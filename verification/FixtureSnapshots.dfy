/** Provider snapshots of one fixture, and the checkpoint kept between two of them. */
module FixtureSnapshots {
  import opened Common
  import opened MatchEvents

  // API-Football status codes in upper case; `OtherCode` is any code outside the rank table.
  datatype StatusCode =
    | TBD | NS | PST | SUSP | INT | FirstHalfCode | HT | SecondHalfCode | ET | BT | P
    | LIVE | FT | AET | PEN | CANC | ABD | AWD | WO | OtherCode(code: string)

  function Rank(status: StatusCode): nat {
    match status
    case TBD | NS | PST => 0
    case SUSP | INT | FirstHalfCode => 1
    case HT => 2
    case SecondHalfCode => 3
    case ET | BT | P => 4
    case FT | AET | PEN | CANC | ABD | AWD | WO => 5
    case LIVE | OtherCode(_) => 0
  }

  predicate InPlay(status: StatusCode) {
    status.FirstHalfCode? || status.HT? || status.SecondHalfCode? || status.ET? || status.BT?
    || status.P? || status.LIVE?
  }

  predicate FullTime(status: StatusCode) {
    status.FT? || status.AET? || status.PEN?
  }

  predicate Cancelled(status: StatusCode) {
    status.CANC? || status.ABD? || status.AWD? || status.WO?
  }

  datatype ProviderKind = GoalKind | CardKind | SubstitutionKind | OtherKind

  // Which of the texts the classifier looks for occur in the lower-cased detail.
  datatype DetailText = Disallowed | MissedPenalty | GoalCancelled | SecondYellow | RedCardText | StraightRed | Yellow

  // `identity` is a fixed-length digest, so digests order like numbers.
  datatype ProviderEvent = ProviderEvent(
    identity: nat, kind: ProviderKind, minute: nat, side: Option<Side>, detail: set<DetailText>)

  datatype Observation = Observation(
    fixtureId: nat,
    kickoff: int,
    status: StatusCode,
    minute: nat,
    home: Option<nat>,
    away: Option<nat>,
    events: seq<ProviderEvent>,
    finalVerification: bool,
    observedAt: int)

  datatype Stages = Stages(
    kickoff: bool, halftime: bool, secondHalf: bool, extraTime: bool, penalties: bool, fulltime: bool)

  const NoStages := Stages(false, false, false, false, false, false)

  datatype Checkpoint = Checkpoint(
    fixtureId: nat,
    kickoff: int,
    status: StatusCode,
    minute: nat,
    score: Score,
    eventIds: set<nat>,
    scheduledEmitted: bool,
    stages: Stages,
    pending: bool,
    terminal: bool,
    version: nat,
    lastObservedAt: int)

  /** None for provider events that never become canonical ones. */
  function Classify(event: ProviderEvent): Option<EventType> {
    match event.kind
    case GoalKind =>
      if event.detail * {Disallowed, MissedPenalty, GoalCancelled} != {} then None else Some(Goal)
    case CardKind =>
      if event.detail * {SecondYellow, RedCardText, StraightRed} != {} then Some(RedCard)
      else if Yellow in event.detail then Some(YellowCard)
      else None
    case SubstitutionKind => Some(Substitution)
    case OtherKind => None
  }

  /** Classified, and carrying a side wherever one is needed. */
  predicate Accepted(event: ProviderEvent) {
    Classify(event).Some? && (event.side.Some? || Classify(event).value.Substitution?)
  }

  // ---------------------------------------------------------------- chronological order

  predicate Earlier(a: ProviderEvent, b: ProviderEvent) {
    a.minute < b.minute || (a.minute == b.minute && a.identity < b.identity)
  }

  function InsertEvent(event: ProviderEvent, sorted: seq<ProviderEvent>): seq<ProviderEvent> {
    if |sorted| == 0 || !Earlier(sorted[0], event) then [event] + sorted
    else [sorted[0]] + InsertEvent(event, sorted[1..])
  }

  function Chronological(events: seq<ProviderEvent>): seq<ProviderEvent> {
    if |events| == 0 then [] else InsertEvent(events[0], Chronological(events[1..]))
  }

  predicate InOrder(events: seq<ProviderEvent>) {
    forall i, j :: 0 <= i < j < |events| ==> !Earlier(events[j], events[i])
  }

  lemma {:induction false} InsertAdds(event: ProviderEvent, sorted: seq<ProviderEvent>)
    ensures multiset(InsertEvent(event, sorted)) == multiset(sorted) + multiset{event}
  {
    hide Earlier;
    if |sorted| > 0 {
      assert sorted == [sorted[0]] + sorted[1..];
      if Earlier(sorted[0], event) { InsertAdds(event, sorted[1..]); }
    }
  }

  lemma {:induction false} InsertKeepsOrder(event: ProviderEvent, sorted: seq<ProviderEvent>)
    requires InOrder(sorted)
    ensures InOrder(InsertEvent(event, sorted))
  {
    if |sorted| > 0 && Earlier(sorted[0], event) {
      var rest := InsertEvent(event, sorted[1..]);
      InsertKeepsOrder(event, sorted[1..]);
      InsertAdds(event, sorted[1..]);
      hide InsertEvent;
      forall i | 0 <= i < |rest| ensures !Earlier(rest[i], sorted[0]) {
        assert rest[i] in multiset(rest);
        assert rest[i] == event || rest[i] in sorted[1..];
      }
    }
  }

  /** The events with this sort key, in the order of the list. */
  function WithKey(events: seq<ProviderEvent>, minute: nat, identity: nat): seq<ProviderEvent> {
    if |events| == 0 then []
    else
      var rest := WithKey(events[1..], minute, identity);
      if events[0].minute == minute && events[0].identity == identity then [events[0]] + rest else rest
  }

  lemma {:induction false} InsertGoesBeforeTies(event: ProviderEvent, sorted: seq<ProviderEvent>, minute: nat, identity: nat)
    ensures WithKey(InsertEvent(event, sorted), minute, identity) == WithKey([event] + sorted, minute, identity)
  {
    if |sorted| > 0 && Earlier(sorted[0], event) {
      InsertGoesBeforeTies(event, sorted[1..], minute, identity);
      assert ([event] + sorted)[1..] == sorted && ([event] + sorted[1..])[1..] == sorted[1..];
    }
  }

  lemma {:induction false} TiesKeepTheirOrder(events: seq<ProviderEvent>, minute: nat, identity: nat)
    ensures WithKey(Chronological(events), minute, identity) == WithKey(events, minute, identity)
  {
    if |events| > 0 {
      TiesKeepTheirOrder(events[1..], minute, identity);
      InsertGoesBeforeTies(events[0], Chronological(events[1..]), minute, identity);
    }
  }

  /** The walk over provider events visits exactly the reported ones by minute and identity, ties as they were listed. */
  lemma {:induction false} ChronologicalSorts(events: seq<ProviderEvent>)
    ensures InOrder(Chronological(events))
    ensures var sorted := Chronological(events);
      forall i, j :: 0 <= i < j < |sorted| ==>
        sorted[i].minute < sorted[j].minute
        || (sorted[i].minute == sorted[j].minute && sorted[i].identity <= sorted[j].identity)
    ensures multiset(Chronological(events)) == multiset(events)
    ensures forall minute: nat, identity: nat :: WithKey(Chronological(events), minute, identity) == WithKey(events, minute, identity)
  {
    if |events| > 0 {
      ChronologicalSorts(events[1..]);
      InsertKeepsOrder(events[0], Chronological(events[1..]));
      InsertAdds(events[0], Chronological(events[1..]));
      assert events == [events[0]] + events[1..];
    }
    hide Chronological, WithKey;
    assert InOrder(Chronological(events));
    forall minute: nat, identity: nat
      ensures WithKey(Chronological(events), minute, identity) == WithKey(events, minute, identity)
    {
      TiesKeepTheirOrder(events, minute, identity);
    }
  }
}
