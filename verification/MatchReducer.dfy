/** Folding canonical events into the current state of one match. */
module MatchReducer {
  import opened Common
  import opened MatchEvents

  // "scheduled", "live", "halftime" and "fulltime" in the match_state table.
  datatype Status = Upcoming | Live | Interval | Finished

  // `UnknownPhase` stands for the "scheduled" and "unknown" labels the reducer tolerates.
  datatype Phase =
    | PreMatch | FirstHalfPhase | IntervalPhase | SecondHalfPhase | ExtraTimePhase
    | PenaltiesPhase | FinishedPhase | UnknownPhase

  datatype MatchState = MatchState(
    score: Score, status: Status, minute: nat, phase: Phase, version: nat)

  // The one error of the reducer: a goal without a side.
  datatype ReduceError = GoalWithoutSide

  // ---------------------------------------------------------------- specification

  const Blank := MatchState(Score(0, 0), Upcoming, 0, PreMatch, 0)

  function Before(current: Option<MatchState>): MatchState {
    if current.Some? then current.value else Blank
  }

  /** The event is answered with the unchanged current state. */
  predicate Ignores(current: Option<MatchState>, event: MatchEvent) {
    current.Some? && (event.version <= current.value.version
                      || (current.value.status.Finished? && !event.kind.ScoreCorrected?))
  }

  function ScoreAfter(score: Score, event: MatchEvent): Score {
    match event.kind
    case Goal => if event.side.Some? then score.Plus(event.side.value, 1) else score
    case ScoreCorrected => event.score
    case _ => score
  }

  function PayloadMinute(event: MatchEvent): nat {
    if event.currentMinute.Some? then event.currentMinute.value else event.minute
  }

  function ClockAfter(minute: nat, event: MatchEvent): nat {
    Max(minute, PayloadMinute(event))
  }

  function StatusAfter(status: Status, kind: EventType): Status {
    match kind
    case Scheduled => Upcoming
    case Kickoff => Live
    case Fulltime => Finished
    case Halftime => if status.Finished? then status else Interval
    case SecondHalf | ExtraTime | Penalties => if status.Finished? then status else Live
    case Goal | YellowCard | RedCard | Substitution =>
      if status.Finished? || status.Interval? then status else Live
    case ScoreCorrected | Unrecognised => status
  }

  function PhaseAfter(status: Status, phase: Phase, minute: nat, kind: EventType): Phase {
    match kind
    case Scheduled => PreMatch
    case Kickoff => FirstHalfPhase
    case Fulltime => FinishedPhase
    case Halftime => if status.Finished? then phase else IntervalPhase
    case SecondHalf => if status.Finished? then phase else SecondHalfPhase
    case ExtraTime => if status.Finished? then phase else ExtraTimePhase
    case Penalties => if status.Finished? then phase else PenaltiesPhase
    case Goal | YellowCard | RedCard | Substitution =>
      if status.Finished? || status.Interval? then phase
      else if phase.PreMatch? || phase.UnknownPhase? || (kind.Goal? && phase.FirstHalfPhase?) then
        if minute >= 45 then SecondHalfPhase
        else FirstHalfPhase
      else phase
    case ScoreCorrected | Unrecognised => phase
  }

  function MinuteAfter(status: Status, minute: nat, kind: EventType): nat {
    if status.Finished? then minute
    else if kind.ExtraTime? then Max(90, minute)
    else if kind.Penalties? then Max(120, minute)
    else minute
  }

  function Advanced(prev: MatchState, event: MatchEvent): MatchState {
    var clock := ClockAfter(prev.minute, event);
    MatchState(
      ScoreAfter(prev.score, event),
      StatusAfter(prev.status, event.kind),
      MinuteAfter(prev.status, clock, event.kind),
      PhaseAfter(prev.status, prev.phase, clock, event.kind),
      event.version)
  }

  function Reduce(current: Option<MatchState>, event: MatchEvent): Result<MatchState, ReduceError> {
    if Ignores(current, event) then Ok(current.value)
    else if event.kind.Goal? && event.side.None? then Err(GoalWithoutSide)
    else Ok(Advanced(Before(current), event))
  }

  // ---------------------------------------------------------------- the reducer as written

  method ReduceMatchState(current: Option<MatchState>, event: MatchEvent)
    returns (result: Result<MatchState, ReduceError>)
    ensures result == Reduce(current, event)
  {
    if current.Some? && event.version <= current.value.version {
      return Ok(current.value);
    }
    if current.Some? && current.value.status == Finished && event.kind != ScoreCorrected {
      return Ok(current.value);
    }
    var score := if current.Some? then current.value.score else Score(0, 0);
    var status := if current.Some? then current.value.status else Upcoming;
    var phase := if current.Some? then current.value.phase else PreMatch;
    var payloadMinute := if event.currentMinute.Some? then event.currentMinute.value else event.minute;
    var minute: nat := Max(if current.Some? then current.value.minute else 0, payloadMinute);

    if event.kind == Scheduled {
      status, phase := Upcoming, PreMatch;
    } else if event.kind == Kickoff {
      status, phase := Live, FirstHalfPhase;
    } else if event.kind == Goal {
      if event.side == Some(Home) {
        score := score.(home := score.home + 1);
      } else if event.side == Some(Away) {
        score := score.(away := score.away + 1);
      } else {
        return Err(GoalWithoutSide);
      }
      if status != Finished && status != Interval {
        if phase == PreMatch || phase == UnknownPhase {
          phase := if minute >= 45 then SecondHalfPhase else FirstHalfPhase;
        } else if phase == FirstHalfPhase && minute >= 45 {
          phase := SecondHalfPhase;
        }
        status := Live;
      }
    } else if event.kind == ScoreCorrected {
      score := event.score;
    } else if event.kind == YellowCard || event.kind == RedCard || event.kind == Substitution {
      if status != Finished && status != Interval {
        if phase == PreMatch || phase == UnknownPhase {
          phase := if minute >= 45 then SecondHalfPhase else FirstHalfPhase;
        }
        status := Live;
      }
    } else if event.kind == Halftime {
      if status != Finished { status, phase := Interval, IntervalPhase; }
    } else if event.kind == SecondHalf {
      if status != Finished { status, phase := Live, SecondHalfPhase; }
    } else if event.kind == ExtraTime {
      if status != Finished { status, phase, minute := Live, ExtraTimePhase, Max(90, minute); }
    } else if event.kind == Penalties {
      if status != Finished { status, phase, minute := Live, PenaltiesPhase, Max(120, minute); }
    } else if event.kind == Fulltime {
      status, phase := Finished, FinishedPhase;
    }
    result := Ok(MatchState(score, status, minute, phase, event.version));
  }

  // ---------------------------------------------------------------- folding a history

  /** One projection step; a rejected event leaves the row as it was. */
  function Step(current: Option<MatchState>, event: MatchEvent): Option<MatchState> {
    var result := Reduce(current, event);
    if result.Ok? then Some(result.value) else current
  }

  function Fold(events: seq<MatchEvent>): Option<MatchState> {
    if |events| == 0 then None else Step(Fold(events[..|events| - 1]), events[|events| - 1])
  }

  lemma FoldAppend(events: seq<MatchEvent>, event: MatchEvent)
    ensures Fold(events + [event]) == Step(Fold(events), event)
  {
    assert (events + [event])[..|events|] == events;
  }

  predicate Over(state: Option<MatchState>) {
    state.Some? && state.value.status.Finished?
  }

  /** Which phases may stand beside each status. */
  predicate WellPhased(state: MatchState) {
    match state.status
    case Upcoming => state.phase.PreMatch?
    case Interval => state.phase.IntervalPhase?
    case Finished => state.phase.FinishedPhase?
    case Live => state.phase.FirstHalfPhase? || state.phase.SecondHalfPhase?
                 || state.phase.ExtraTimePhase? || state.phase.PenaltiesPhase?
  }

  /** Whatever the events and whatever their order, status and phase stay paired. */
  lemma {:induction false} ReachableStatesAreWellPhased(events: seq<MatchEvent>)
    ensures Fold(events).Some? ==> WellPhased(Fold(events).value)
  {
    if |events| > 0 {
      ReachableStatesAreWellPhased(events[..|events| - 1]);
    }
  }

  /** `later` came after `earlier`: nothing regressed, and a final whistle froze all but corrections. */
  ghost predicate Progressed(earlier: Option<MatchState>, later: Option<MatchState>) {
    earlier.Some? ==>
      && later.Some?
      && earlier.value.version <= later.value.version
      && earlier.value.minute <= later.value.minute
      && (earlier.value.status.Finished? ==> later.value.status.Finished?)
  }

  lemma {:induction false} FoldNeverRegresses(events: seq<MatchEvent>, suffix: seq<MatchEvent>)
    ensures Progressed(Fold(events), Fold(events + suffix))
  {
    if |suffix| == 0 {
      assert events + suffix == events;
    } else {
      var shorter := suffix[..|suffix| - 1];
      FoldNeverRegresses(events, shorter);
      assert events + suffix == (events + shorter) + [suffix[|suffix| - 1]];
      FoldAppend(events + shorter, suffix[|suffix| - 1]);
    }
  }

  /** After full time the score is the one of the last accepted correction, if there was any. */
  lemma {:induction false} OnlyCorrectionsMoveAFinalScore(events: seq<MatchEvent>, suffix: seq<MatchEvent>)
    requires Over(Fold(events))
    ensures Over(Fold(events + suffix))
    ensures Fold(events + suffix) == Fold(events)
            || exists i :: 0 <= i < |suffix| && suffix[i].kind.ScoreCorrected?
                           && Fold(events + suffix).value.score == suffix[i].score
  {
    if |suffix| == 0 {
      assert events + suffix == events;
    } else {
      var n := |suffix| - 1;
      OnlyCorrectionsMoveAFinalScore(events, suffix[..n]);
      assert events + suffix == (events + suffix[..n]) + [suffix[n]];
      FoldAppend(events + suffix[..n], suffix[n]);
      if !Ignores(Fold(events + suffix[..n]), suffix[n]) {
        assert suffix[n].kind.ScoreCorrected?;
      } else if Fold(events + suffix[..n]) != Fold(events) {
        var i :| 0 <= i < n && suffix[..n][i].kind.ScoreCorrected?
                 && Fold(events + suffix[..n]).value.score == suffix[..n][i].score;
        assert suffix[i].kind.ScoreCorrected?;
      }
    }
  }
}
