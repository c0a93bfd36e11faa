/** Canonical football events: what the fixture diff emits and the reducer consumes. */
module MatchEvents {
  import opened Common

  datatype Side = Home | Away

  datatype Score = Score(home: nat, away: nat) {
    function Plus(side: Side, goals: nat): Score {
      match side
      case Home => Score(home + goals, away)
      case Away => Score(home, away + goals)
    }

    predicate AtMost(other: Score) {
      home <= other.home && away <= other.away
    }
  }

  // The suffix of `event_type`; a suffix that no branch of the reducer knows is `Unrecognised`.
  datatype EventType =
    | Scheduled | Kickoff | Goal | ScoreCorrected | YellowCard | RedCard | Substitution
    | Halftime | SecondHalf | ExtraTime | Penalties | Fulltime | Unrecognised

  // The part of `dedupe_key` after the fixture prefix, one constructor per key format.
  datatype Identity =
    | ScheduledKey(version: nat, kickoff: int)
    | KickoffKey | HalftimeKey | SecondHalfKey | ExtraTimeKey | PenaltiesKey | FulltimeKey
    | ProviderKey(id: nat)
    | ScoreGoalKey(version: nat, side: Side, number: nat, minute: nat)
    | CorrectionKey(version: nat, counted: Score, reported: Score)

  // `currentMinute` is absent from payloads that only carry `minute`.
  datatype MatchEvent = MatchEvent(
    kind: EventType,
    version: nat,
    identity: Identity,
    minute: nat,
    currentMinute: Option<nat>,
    side: Option<Side>,
    score: Score)
}
