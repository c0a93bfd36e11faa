/** The one path from a provider snapshot to a match row. */
module EndToEnd {
  import opened Common
  import opened MatchEvents
  import opened MatchReducer
  import opened FixtureSnapshots
  import opened FixtureDiff
  import opened FixtureHistory
  import opened FixtureRuns
  import Pipeline
  import opened EventStore
  import opened EventInvariants
  import opened EnvelopeLists
  import opened FirstDelivery
  import opened StoredLog
  import FixtureStatus
  import FootballStore

  /**
   In every run whose sends respect the key hash a match row is the fold of the first copies handled since
   its last pruning, however often records repeat or the projector restarts.
   */
  lemma RowFollowsFirstCopies(
    states: seq<Pipeline.System>, actions: seq<Pipeline.Action>, route: nat -> nat, subject: nat, i: nat)
    returns (h: nat, j: nat)
    requires RoutedRun(states, actions, route) && i < |states| && route(subject) < |states[0].log|
    ensures var s, p := states[i], route(subject);
      && Pipeline.Shaped(s) && p < |s.log| && s.committed[p] <= h <= |s.log[p]|
      && var effects := FootballOf(FirstCopies(s.log[p][..h]), subject);
      && effects == MatchEventsIn(s.past.applied, subject)
      && j <= |effects| && MatchStateOf(s.db, subject) == Fold(effects[j..])
      && (subject !in s.past.pruned ==> j == 0)
  {
    var s, p := states[i], route(subject);
    LogsKeepTheirNumber(states, actions, i);
    h := EffectsAreFirstCopies(states, actions, route, i, p);
    Pipeline.EffectsHappenOnce(states, actions, i);
    hide RoutedRun, Fold, FirstCopies, SubjectEvents, FootballOf, AppliedOf, MatchesFold, MatchEventsIn;
    EffectsOfSubject(s, route, subject);
    FootballOfSubject(AppliedOf(s, route, p), subject);
    j := FoldSincePruning(s.db, s.past, subject);
  }

  lemma FoldSincePruning(db: Database, past: Past, subject: nat) returns (j: nat)
    requires MatchesFold(db, past)
    ensures var effects := MatchEventsIn(past.applied, subject);
      j <= |effects| && MatchStateOf(db, subject) == Fold(effects[j..]) && (subject !in past.pruned ==> j == 0)
  {
    var from := PrunedAt(past, subject);
    assert MatchStateOf(db, subject) == Fold(MatchEventsIn(past.applied[from..], subject));
    j := |MatchEventsIn(past.applied[..from], subject)|;
    MatchEventsConcat(past.applied[..from], past.applied[from..], subject);
    assert past.applied == past.applied[..from] + past.applied[from..];
    hide Fold, MatchesFold;
    assert MatchEventsIn(past.applied, subject)[j..] == MatchEventsIn(past.applied[from..], subject);
  }

  lemma {:induction false} MatchEventsConcat(a: seq<Entry>, b: seq<Entry>, subject: nat)
    ensures MatchEventsIn(a + b, subject) == MatchEventsIn(a, subject) + MatchEventsIn(b, subject)
  {
    if |b| == 0 {
      assert a + b == a;
    } else {
      var n := |b| - 1;
      MatchEventsConcat(a, b[..n], subject);
      assert (a + b)[..|a| + n] == a + b[..n];
    }
  }

  /**
   As long as nothing was overtaken, a match row is the fold of a stretch of the events stored for the
   match: from its last pruning, or from the first, up to the last that took effect.
   */
  lemma RowFollowsLog(
    states: seq<Pipeline.System>, actions: seq<Pipeline.Action>, route: nat -> nat, subject: nat, i: nat)
    returns (j: nat)
    requires RoutedRun(states, actions, route) && i < |states| && route(subject) < |states[0].log|
    requires NeverOvertaken(states, actions, route, subject, i)
    ensures var log := FootballOf(states[i].past.order, subject);
      var k := |MatchEventsIn(states[i].past.applied, subject)|;
      && j <= k <= |log| && MatchStateOf(states[i].db, subject) == Fold(log[j..k])
      && (subject !in states[i].past.pruned ==> j == 0)
  {
    var h;
    h, j := RowFollowsFirstCopies(states, actions, route, subject, i);
    EffectsKeepStoredOrder(states, actions, route, subject, i);
    hide RoutedRun, NeverOvertaken, Fold, FootballOf, MatchEventsIn, FirstCopies;
    var effects, log := MatchEventsIn(states[i].past.applied, subject), FootballOf(states[i].past.order, subject);
    assert log[..|effects|] == effects;
    assert log[j..|effects|] == effects[j..];
  }

  lemma PrefixScore(log: seq<MatchEvent>, k: nat)
    requires Legal(log) && 0 < k <= |log| && !Over(Fold(log[..k - 1]))
    ensures Fold(log[..k]).Some? && Fold(log[..k]).value.score == log[k - 1].score
  {
    hide Fold, Legal;
    LegalAt(log, k - 1);
    assert log[..k] == log[..k - 1] + [log[k - 1]];
    if k < |log| { LegalAt(log, k); } else { assert log[..k] == log; }
    LegalFold(log[..k]);
  }

  /** The state that the first `k` events of a run lead to, against the events and the checkpoint of the run. */
  lemma PrefixAgrees(polls: seq<Poll>, k: nat)
    requires k <= |History(polls).log|
    ensures var log := History(polls).log; var row := Fold(log[..k]);
      && (k > 0 && !Over(Fold(log[..k - 1])) ==> row.Some? && row.value.score == log[k - 1].score)
      && (k == |log| ==> (Over(row) <==> Whistled(History(polls).checkpoint)))
      && (k == |log| ==> (Before(row).score == CheckpointScore(History(polls).checkpoint) <==> Synchronised(polls)))
      && (k == |log| ==> (Before(row).status.Upcoming? <==> FixtureStatus.Unstarted(polls)))
  {
    FixtureStatus.StatusOverWholeRuns(polls);
    hide Fold, History, Legal, Synchronised, CheckpointScore, FixtureStatus.Unstarted;
    var log := History(polls).log;
    HistoryIsFaithful(polls);
    PayloadScoresAgree(polls);
    AgreementOverWholeRuns(polls);
    if k > 0 && !Over(Fold(log[..k - 1])) { PrefixScore(log, k); }
    if k == |log| { assert log[..k] == log; }
  }

  /** The events of a run of polls are all stored when they are offered in order. */
  lemma PollsAreStored(polls: seq<Poll>)
    ensures FootballStore.PersistAll([], History(polls).log) == History(polls).log
  {
    HistoryIsFaithful(polls);
    hide History, Legal;
    var log := History(polls).log;
    assert [] + log == log;
    FootballStore.FreshEventsAreAllStored([], log);
  }

  /**
   From the snapshots to the row. The events that a fixture's polls emit are offered to the pipeline under
   the keys of the fixture, and no send overtakes one of them; everything else may fail, crash, repeat and
   overlap. Then the row shows, up to full time, the score that the last event in effect carries. Once all
   are in effect it is finished exactly when full time was emitted, it shows the checkpoint's score exactly
   when the polls left the two synchronised, and it is scheduled exactly when they left the match unstarted.
   */
  lemma RowAgreesWithPolls(
    states: seq<Pipeline.System>, actions: seq<Pipeline.Action>, route: nat -> nat, fixture: nat, subject: nat,
    i: nat, polls: seq<Poll>)
    requires RoutedRun(states, actions, route) && i < |states| && route(subject) < |states[0].log|
    requires NeverOvertaken(states, actions, route, subject, i) && subject !in states[i].past.pruned
    requires KeyedByFixture(actions, fixture, subject) && Offered(actions[..i], subject) == History(polls).log
    ensures var log := History(polls).log;
      var k := |MatchEventsIn(states[i].past.applied, subject)|;
      var row := MatchStateOf(states[i].db, subject);
      && FootballOf(states[i].past.order, subject) == log && k <= |log|
      && (k > 0 && !Over(Fold(log[..k - 1])) ==> row.Some? && row.value.score == log[k - 1].score)
      && (k == |log| ==> (Over(row) <==> Whistled(History(polls).checkpoint)))
      && (k == |log| ==> (Before(row).score == CheckpointScore(History(polls).checkpoint) <==> Synchronised(polls)))
      && (k == |log| ==> (Before(row).status.Upcoming? <==> FixtureStatus.Unstarted(polls)))
  {
    StoredIsFixtureLog(states, actions, i, fixture, subject);
    PollsAreStored(polls);
    var j := RowFollowsLog(states, actions, route, subject, i);
    hide RoutedRun, NeverOvertaken, KeyedByFixture, Fold, FootballOf, MatchEventsIn, History, Synchronised, Offered;
    var log := History(polls).log;
    var k := |MatchEventsIn(states[i].past.applied, subject)|;
    assert log[0..k] == log[..k];
    PrefixAgrees(polls, k);
  }
}
