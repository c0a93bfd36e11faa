/**
 A run in which one failed send costs a match a goal, although every event is delivered in the end. It is
 followed state by state: both rows are claimed, the first send fails, the second event goes out and takes
 effect, and the retried first one comes too late.
 */
module Overtaking {
  import opened Common
  import opened MatchEvents
  import opened MatchReducer
  import opened Ordering
  import opened EventStore
  import opened EventInvariants
  import opened Pipeline
  import opened EnvelopeLists
  import opened OrderedDelivery

  ghost predicate Reachable(s: System) {
    exists states, actions :: IsRun(states, actions) && states[|states| - 1] == s
  }

  lemma Starts(partitions: nat)
    ensures Reachable(Initial(partitions))
  {
    var s := Initial(partitions);
    assert IsRun([s], []);
    assert [s][|[s]| - 1] == s;
  }

  lemma Steps(s: System, action: Action)
    requires Reachable(s) && Shaped(s) && Enabled(s, action)
    ensures Reachable(Next(s, action))
  {
    hide Enabled, Next, Shaped, Initial;
    var states, actions :| IsRun(states, actions) && states[|states| - 1] == s;
    var longer, more := states + [Next(s, action)], actions + [action];
    forall i | 0 <= i < |more|
      ensures Shaped(longer[i]) && Enabled(longer[i], more[i]) && longer[i + 1] == Next(longer[i], more[i])
    {
      if i < |actions| {
        assert longer[i] == states[i] && longer[i + 1] == states[i + 1] && more[i] == actions[i];
      }
    }
    assert longer[0] == states[0];
    assert IsRun(longer, more) && longer[|longer| - 1] == Next(s, action);
  }

  const SUBJECT: nat := 7

  function GoalBy(side: Side, version: nat): MatchEvent {
    MatchEvent(Goal, version, ProviderKey(version), 10, Some(10), Some(side), Score(1, if side.Away? then 1 else 0))
  }

  // The home goal is stored first, the away goal second.
  const FIRST: Envelope := Envelope(1, FixtureKey(SUBJECT, ProviderKey(1)), SUBJECT, 0, Some(GoalBy(Home, 1)))
  const SECOND: Envelope := Envelope(2, FixtureKey(SUBJECT, ProviderKey(2)), SUBJECT, 0, Some(GoalBy(Away, 2)))

  function Rows(first: OutboxRow, second: OutboxRow): Database {
    EmptyDatabase.(canonical := map[1 := FIRST, 2 := SECOND], outbox := map[0 := first, 1 := second], nextRow := 2)
  }

  const BOTH: Past := Past(map[1 := FIRST, 2 := SECOND], [FIRST, SECOND], [], map[])

  /** Both events are stored; what the outbox rows, the log, the claims and the send flag are is given. */
  function Stage(first: OutboxRow, second: OutboxRow, log: seq<Envelope>, claims: seq<Claim>, sent: bool): System {
    System(Rows(first, second), BOTH, [log], [0], [0], [], claims, sent, [])
  }

  function Pending(event: Envelope, claimedAt: Option<int>, attempts: nat): OutboxRow {
    OutboxRow(event, None, claimedAt, attempts)
  }

  lemma BothStored()
    ensures Reachable(Stage(Pending(FIRST, None, 0), Pending(SECOND, None, 0), [], [], false))
  {
    Starts(1);
    hide Reachable;
    var s := Initial(1);
    Steps(s, PersistStep(FIRST));
    var t := Next(s, PersistStep(FIRST));
    assert PersistOutcome(s.db, FIRST).Inserted?;
    assert PersistOutcome(t.db, SECOND).Inserted?;
    Steps(t, PersistStep(SECOND));
    assert Next(t, PersistStep(SECOND)) == Stage(Pending(FIRST, None, 0), Pending(SECOND, None, 0), [], [], false);
  }

  /** With both rows open a claim takes both, in order. */
  lemma ClaimsBoth(db: Database)
    requires db == Rows(Pending(FIRST, None, 0), Pending(SECOND, None, 0))
    ensures RowsToClaim(db, 0, 50) == [0, 1]
    ensures ClaimRows(db, 0, 50) == Rows(Pending(FIRST, Some(0), 0), Pending(SECOND, Some(0), 0))
  {
    assert RowsInOrder(db, [FIRST, SECOND], 0, 0, false);
    assert ClaimableRows(db, 0) == {0, 1};
    ConsecutiveRows({0, 1}, 0, 2, RowRank(db));
    assert Ordered({0, 1}, RowRank(db)) == [0, 1];
    assert Elements([0, 1]) == {0, 1};
    hide Ordered;
  }

  /** With the second row published a claim takes the first. */
  lemma ClaimsFirst(db: Database, at: int)
    requires db == Rows(Pending(FIRST, None, 1), OutboxRow(SECOND, Some(at), None, 0))
    ensures RowsToClaim(db, 2, 50) == [0]
    ensures ClaimRows(db, 2, 50) == Rows(Pending(FIRST, Some(2), 1), OutboxRow(SECOND, Some(at), None, 0))
  {
    assert ClaimableRows(db, 2) == {0};
    ConsecutiveRows({0}, 0, 1, RowRank(db));
    assert Ordered({0}, RowRank(db)) == [0];
    assert Elements([0]) == {0};
    hide Ordered;
  }

  lemma ClaimsOf(db: Database, first: OutboxRow, second: OutboxRow)
    requires db == Rows(first, second) && first.envelope == FIRST && second.envelope == SECOND
    ensures EventStore.Claims(db, [0]) == [Claim(0, FIRST)]
    ensures EventStore.Claims(db, [0, 1]) == [Claim(0, FIRST), Claim(1, SECOND)]
  {
    ConsecutiveClaims(db, [FIRST, SECOND], [0], 0);
    ConsecutiveClaims(db, [FIRST, SECOND], [0, 1], 0);
    hide EventStore.Claims;
  }

  lemma FirstSendFails()
    ensures Reachable(Stage(Pending(FIRST, None, 1), Pending(SECOND, Some(0), 0), [], [Claim(1, SECOND)], false))
  {
    BothStored();
    hide Reachable, RowsToClaim, ClaimRows, EventStore.Claims;
    var first, second := Pending(FIRST, None, 0), Pending(SECOND, None, 0);
    var s0 := Stage(first, second, [], [], false);
    ClaimsBoth(s0.db);
    ClaimsOf(s0.db, first, second);
    Steps(s0, ClaimStep(0, 50));
    var s1 := Next(s0, ClaimStep(0, 50));
    assert s1 == Stage(Pending(FIRST, Some(0), 0), Pending(SECOND, Some(0), 0), [], [Claim(0, FIRST), Claim(1, SECOND)], false);
    Steps(s1, FailStep);
    assert Next(s1, FailStep).db.outbox == map[0 := Pending(FIRST, None, 1), 1 := Pending(SECOND, Some(0), 0)];
    assert [Claim(0, FIRST), Claim(1, SECOND)][1..] == [Claim(1, SECOND)];
  }

  lemma SendAndMark(s: System, at: int)
    requires Reachable(s) && Shaped(s) && |s.log| == 1 && |s.claims| == 1 && !s.sent
    ensures Reachable(s.(log := [s.log[0] + [s.claims[0].envelope]],
                         db := MarkPublished(s.db, s.claims[0].row, at), claims := []))
  {
    hide Reachable, MarkPublished;
    Steps(s, SendStep(0));
    var t := Next(s, SendStep(0));
    assert t.log == [s.log[0] + [s.claims[0].envelope]];
    Steps(t, MarkStep(at));
    assert Next(t, MarkStep(at)).claims == [];
  }

  lemma SecondGoesFirst()
    ensures Reachable(Stage(Pending(FIRST, None, 1), OutboxRow(SECOND, Some(1), None, 0), [SECOND], [], false))
  {
    FirstSendFails();
    hide Reachable;
    var s := Stage(Pending(FIRST, None, 1), Pending(SECOND, Some(0), 0), [], [Claim(1, SECOND)], false);
    SendAndMark(s, 1);
    assert [] + [SECOND] == [SECOND];
    assert MarkPublished(s.db, 1, 1) == Rows(Pending(FIRST, None, 1), OutboxRow(SECOND, Some(1), None, 0));
  }

  lemma BothPublished()
    ensures Reachable(Stage(OutboxRow(FIRST, Some(3), None, 1), OutboxRow(SECOND, Some(1), None, 0), [SECOND, FIRST], [], false))
  {
    SecondGoesFirst();
    hide Reachable, RowsToClaim, ClaimRows, EventStore.Claims;
    var first, second := Pending(FIRST, None, 1), OutboxRow(SECOND, Some(1), None, 0);
    var s0 := Stage(first, second, [SECOND], [], false);
    ClaimsFirst(s0.db, 1);
    ClaimsOf(s0.db, first, second);
    Steps(s0, ClaimStep(2, 50));
    var s1 := Next(s0, ClaimStep(2, 50));
    assert s1 == Stage(Pending(FIRST, Some(2), 1), second, [SECOND], [Claim(0, FIRST)], false);
    SendAndMark(s1, 3);
    assert [SECOND] + [FIRST] == [SECOND, FIRST];
    assert MarkPublished(s1.db, 0, 3) == Rows(OutboxRow(FIRST, Some(3), None, 1), second);
  }

  lemma FoldOfTwo(a: MatchEvent, b: MatchEvent)
    ensures Fold([a, b]) == Step(Step(None, a), b)
  {
    hide Step;
    assert Fold([]) == None;
    FoldAppend([], a);
    FoldAppend([a], b);
    assert [] + [a] == [a] && [a] + [b] == [a, b];
    hide Fold;
  }

  lemma FirstGoal(e: MatchEvent)
    requires e.kind.Goal? && e.side.Some?
    ensures Reduce(None, e).Ok? && Step(None, e).Some? && Step(None, e).value.version == e.version
    ensures !Over(Step(None, e)) && Step(None, e).value.score == Score(0, 0).Plus(e.side.value, 1)
  {
  }

  lemma NextGoal(state: MatchState, e: MatchEvent)
    requires e.kind.Goal? && e.side.Some? && !state.status.Finished?
    ensures e.version > state.version
            ==> Step(Some(state), e).Some? && Step(Some(state), e).value.score == state.score.Plus(e.side.value, 1)
    ensures e.version <= state.version ==> Reduce(Some(state), e) == Ok(state) && Step(Some(state), e) == Some(state)
  {
  }

  /** What two goals make in the stored order, and in the order of delivery. */
  lemma OrdersDiffer(h: MatchEvent, a: MatchEvent)
    requires h.kind.Goal? && h.side == Some(Home) && a.kind.Goal? && a.side == Some(Away) && h.version < a.version
    ensures Fold([h, a]).Some? && Fold([h, a]).value.score == Score(1, 1)
    ensures Step(None, a).Some? && Step(None, a).value.score == Score(0, 1)
    ensures Reduce(None, a).Ok? && Reduce(Step(None, a), h).Ok? && Step(Step(None, a), h) == Step(None, a)
  {
    hide Step, Reduce, Fold;
    FoldOfTwo(h, a);
    FirstGoal(h);
    FirstGoal(a);
    NextGoal(Step(None, h).value, a);
    NextGoal(Step(None, a).value, h);
  }

  lemma StoredOrder()
    ensures FootballOf([FIRST, SECOND], SUBJECT) == [GoalBy(Home, 1), GoalBy(Away, 2)]
  {
    assert [FIRST, SECOND][..1] == [FIRST] && [FIRST][..0] == [];
    assert FootballOf([FIRST], SUBJECT) == [GoalBy(Home, 1)];
  }

  function Done(): Database {
    Rows(OutboxRow(FIRST, Some(3), None, 1), OutboxRow(SECOND, Some(1), None, 0))
  }

  function AwayRow(): MatchRow
    requires Step(None, GoalBy(Away, 2)).Some?
  {
    MatchRow(Step(None, GoalBy(Away, 2)).value, 2, 4)
  }

  function HalfDone(): Database
    requires Step(None, GoalBy(Away, 2)).Some?
  {
    Done().(processed := {2}, timeline := [Entry(0, SECOND)], nextCursor := 1, matches := map[SUBJECT := AwayRow()])
  }

  function AllDone(): Database
    requires Step(None, GoalBy(Away, 2)).Some?
  {
    HalfDone().(processed := {1, 2}, timeline := [Entry(0, SECOND), Entry(1, FIRST)], nextCursor := 2)
  }

  lemma AllIsDone()
    requires Step(None, GoalBy(Away, 2)).Some? && Step(None, GoalBy(Away, 2)).value.score == Score(0, 1)
    ensures var db := AllDone();
      && db.processed == {1, 2} == db.canonical.Keys
      && (forall r :: r in db.outbox ==> db.outbox[r].publishedAt.Some?)
      && MatchStateOf(db, SUBJECT).Some? && MatchStateOf(db, SUBJECT).value.score == Score(0, 1)
  {
    hide Step;
  }

  /** The away goal makes the match row. */
  lemma SecondProjects()
    ensures Step(None, GoalBy(Away, 2)).Some?
    ensures Projects(Done(), SECOND) && Project(Done(), SECOND, 0, 4) == HalfDone()
  {
    OrdersDiffer(GoalBy(Home, 1), GoalBy(Away, 2));
    hide Step, Reduce;
    assert MatchesAfter(Done(), SECOND, 4) == map[SUBJECT := AwayRow()];
    assert [] + [Entry(0, SECOND)] == [Entry(0, SECOND)] && {} + {2} == {2};
  }

  /** The home goal is older and leaves the row as it is. */
  lemma FirstProjects()
    ensures Step(None, GoalBy(Away, 2)).Some?
    ensures Projects(HalfDone(), FIRST)
    ensures Project(HalfDone(), FIRST, 1, 4) == AllDone()
  {
    OrdersDiffer(GoalBy(Home, 1), GoalBy(Away, 2));
    hide Step, Reduce;
    assert MatchesAfter(HalfDone(), FIRST, 4) == HalfDone().matches;
    assert [Entry(0, SECOND)] + [Entry(1, FIRST)] == [Entry(0, SECOND), Entry(1, FIRST)] && {2} + {1} == {1, 2};
  }

  lemma ProjectsHead(s: System, cursor: nat, now: int) returns (t: System)
    requires Reachable(s) && Shaped(s) && s.batch != [] && cursor >= s.db.nextCursor && Projects(s.db, s.batch[0])
    ensures Reachable(t) && Shaped(t) && t.db == Project(s.db, s.batch[0], cursor, now) && t.batch == s.batch[1..]
    ensures t.log == s.log && t.position == s.position && t.claims == s.claims && t.past.order == s.past.order
  {
    hide Reachable, Project, Poisonous;
    Steps(s, ProjectStep(cursor, now));
    t := Next(s, ProjectStep(cursor, now));
  }

  lemma Delivers() returns (s: System)
    ensures Reachable(s) && Shaped(s) && s.db == Done() && s.past == BOTH && s.batch == [SECOND, FIRST] && s.claims == []
    ensures s.log == [[SECOND, FIRST]] && s.position == [2] && s.committed == [0]
  {
    BothPublished();
    hide Reachable;
    var s0 := Stage(OutboxRow(FIRST, Some(3), None, 1), OutboxRow(SECOND, Some(1), None, 0), [SECOND, FIRST], [], false);
    Steps(s0, FetchStep(0, 2));
    s := Next(s0, FetchStep(0, 2));
    assert [SECOND, FIRST][0..2] == [SECOND, FIRST];
  }

  /**
   After one failed send, a reachable state in which every event is published, committed, processed and on
   the timeline, but the match row shows one goal where the stored events make two.
   */
  lemma OneFailureLosesAGoal() returns (s: System)
    ensures Reachable(s) && s.claims == [] && s.batch == [] && s.committed == [2] && s.log == [[SECOND, FIRST]]
    ensures s.db.processed == {1, 2} == s.db.canonical.Keys
    ensures forall r :: r in s.db.outbox ==> s.db.outbox[r].publishedAt.Some?
    ensures MatchStateOf(s.db, SUBJECT).Some? && MatchStateOf(s.db, SUBJECT).value.score == Score(0, 1)
    ensures var stored := Fold(FootballOf(s.past.order, SUBJECT)); stored.Some? && stored.value.score == Score(1, 1)
  {
    hide Reachable, Fold, FootballOf, Project, Step, Reduce, Projects, Done, HalfDone, AllDone, GoalBy;
    OrdersDiffer(GoalBy(Home, 1), GoalBy(Away, 2)) by { TheGoals(); }
    StoredOrder();
    SecondProjects();
    FirstProjects();
    AllIsDone();
    var s1 := Delivers();
    assert s1.db.nextCursor == 0 by { DoneCursors(); }
    var s2 := ProjectsHead(s1, 0, 4);
    assert s2.db.nextCursor == 1 by { DoneCursors(); }
    var s3 := ProjectsHead(s2, 1, 4);
    Steps(s3, CommitStep);
    s := Next(s3, CommitStep);
  }

  lemma TheGoals()
    ensures var h, a := GoalBy(Home, 1), GoalBy(Away, 2);
      h.kind.Goal? && h.side == Some(Home) && a.kind.Goal? && a.side == Some(Away) && h.version < a.version
  {
  }

  lemma DoneCursors()
    ensures Done().nextCursor == 0
    ensures Step(None, GoalBy(Away, 2)).Some? ==> HalfDone().nextCursor == 1
  {
    hide Step;
  }
}
