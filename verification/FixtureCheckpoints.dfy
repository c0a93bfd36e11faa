/** How checkpoints evolve: repeated and stale snapshots, monotone fields, and final verification. */
module FixtureCheckpoints {
  import opened Common
  import opened MatchEvents
  import opened MatchReducer
  import opened FixtureSnapshots
  import opened FixtureDiff
  import opened FixtureHistory
  import opened FixtureRuns

  // ---------------------------------------------------------------- the diff is a fixpoint

  /** No stage that the status calls for is missing. */
  predicate Covered(status: StatusCode, stages: Stages) {
    && (HalftimeDue(status) ==> stages.halftime)
    && (SecondHalfDue(status) ==> stages.secondHalf)
    && (ExtraTimeDue(status) ==> stages.extraTime)
    && (PenaltiesDue(status) ==> stages.penalties)
  }

  lemma EnsureStagesCovers(p: Progress, ctx: Context)
    ensures Covered(ctx.status, EnsureStages(p, ctx).stages)
    ensures p.stages.kickoff ==> EnsureStages(p, ctx).stages.kickoff
  {
    hide Event;
    var p1 := EnsureHalftime(p, ctx);
    var p2 := EnsureSecondHalf(p1, ctx);
    var p3 := EnsureExtraTime(p2, ctx);
    assert HalftimeDue(ctx.status) ==> p1.stages.halftime;
    assert SecondHalfDue(ctx.status) ==> p2.stages.secondHalf;
    assert p2.stages.halftime == p1.stages.halftime;
  }

  lemma {:induction false} AbsorbKeepsKickoff(p: Progress, ctx: Context, events: seq<ProviderEvent>)
    ensures p.stages.kickoff ==> AbsorbAll(p, ctx, events).stages.kickoff
  {
    hide Event, Accepted;
    if |events| > 0 {
      AbsorbKeepsKickoff(p, ctx, events[..|events| - 1]);
    }
  }

  lemma DiffCovers(prior: Option<Checkpoint>, observation: Observation, emitScheduled: bool)
    ensures var c := Diff(prior, observation, emitScheduled).checkpoint;
      && Covered(c.status, c.stages)
      && (InPlay(c.status) || FullTime(c.status) ==> c.stages.kickoff)
      && (FullTime(c.status) ==> c.stages.fulltime)
  {
    hide Event, EnsureStages, ScoreGoals, AbsorbAll;
    var ctx := Start(prior, observation);
    var start := Opened(prior, ctx, emitScheduled);
    AbsorbKeepsKickoff(start, ctx, Chronological(observation.events));
    var absorbed := AbsorbAll(start, ctx, Chronological(observation.events));
    EnsureStagesCovers(absorbed, ctx);
    var p := Played(prior, ctx, emitScheduled);
    var counted := Counted(p, ctx);
    ScoreGoalsKeepIds(p, ctx, Home, counted.home, ctx.reported.home);
    ScoreGoalsKeepIds(ScoreGoals(p, ctx, Home, counted.home, ctx.reported.home), ctx, Away, counted.away, ctx.reported.away);
  }

  lemma {:induction false} KnownEventsAddNothing(p: Progress, ctx: Context, events: seq<ProviderEvent>)
    requires Covered(ctx.status, p.stages)
    requires forall e :: e in events && Accepted(e) ==> e.identity in p.eventIds
    ensures AbsorbAll(p, ctx, events) == p
  {
    hide Event, Accepted;
    if |events| > 0 {
      KnownEventsAddNothing(p, ctx, events[..|events| - 1]);
    }
  }

  lemma StartAgain(prior: Option<Checkpoint>, observation: Observation, checkpoint: Checkpoint, at: int)
    requires var ctx := Start(prior, observation);
      checkpoint.status == ctx.status && checkpoint.minute == ctx.minute && checkpoint.score == ctx.reported
    ensures var again := Start(Some(checkpoint), observation.(observedAt := at));
      && again.status == checkpoint.status
      && again.minute == checkpoint.minute
      && again.reported == checkpoint.score
  {
  }

  /** A covered checkpoint, met by a snapshot without news, emits at most a new schedule. */
  lemma NothingToSettle(c: Checkpoint, ctx: Context, emitScheduled: bool)
    requires Covered(ctx.status, c.stages)
    requires InPlay(ctx.status) || FullTime(ctx.status) ==> c.stages.kickoff
    requires FullTime(ctx.status) ==> c.stages.fulltime
    requires ctx.known == ctx.reported == c.score
    requires forall e :: e in ctx.observation.events && Accepted(e) ==> e.identity in c.eventIds
    ensures Settled(Some(c), ctx, emitScheduled)
            == Announce(Begin(Some(c)), ctx, emitScheduled && ScheduleChanged(Some(c), ctx.observation))
  {
    hide Event, Chronological, Accepted;
    var start := Announce(Begin(Some(c)), ctx, emitScheduled && ScheduleChanged(Some(c), ctx.observation));
    var events := Chronological(ctx.observation.events);
    ChronologicalSorts(ctx.observation.events);
    forall e | e in events && Accepted(e) ensures e.identity in c.eventIds {
      assert e in multiset(events);
    }
    KnownEventsAddNothing(start, ctx, events);
    assert Played(Some(c), ctx, emitScheduled) == start;
  }

  /** Polling the same snapshot again emits nothing and changes nothing but the observation time. */
  lemma DiffIsAFixpoint(prior: Option<Checkpoint>, observation: Observation, first: bool, second: bool, at: int)
    ensures var c := Diff(prior, observation, first).checkpoint;
      Diff(Some(c), observation.(observedAt := at), second) == Outcome([], c.(lastObservedAt := at))
  {
    var c := Diff(prior, observation, first).checkpoint;
    StartAgain(prior, observation, c, at);
    DiffCovers(prior, observation, first);
    DiffKeepsIds(prior, observation, first);
    hide Settled, Covered, Accepted, Chronological;
    NothingToSettle(c, Start(Some(c), observation.(observedAt := at)), second);
  }

  // ---------------------------------------------------------------- monotone fields and stale snapshots

  /** Nothing known was forgotten: status rank, minute, version and ids; a terminal status and a verification stay. */
  predicate Remembers(earlier: Checkpoint, later: Checkpoint) {
    && Rank(earlier.status) <= Rank(later.status)
    && earlier.minute <= later.minute
    && (earlier.terminal ==> later.terminal)
    && earlier.eventIds <= later.eventIds
    && earlier.version <= later.version
    && (earlier.stages.fulltime && !earlier.pending ==> later.stages.fulltime && !later.pending)
  }

  lemma DiffRemembers(past: seq<MatchEvent>, prior: Checkpoint, observation: Observation, emitScheduled: bool)
    requires Faithful(past, Some(prior))
    ensures var c := Diff(Some(prior), observation, emitScheduled).checkpoint;
      && Remembers(prior, c) && (c.pending ==> c.stages.fulltime)
      && (prior.pending ==> (c.pending <==> !observation.finalVerification))
  {
    DiffKeepsIds(Some(prior), observation, emitScheduled);
    DiffKeepsFaith(past, Some(prior), observation, emitScheduled);
    VerificationStands(past, prior, observation, emitScheduled);
    hide Settled, Legal, Agrees, StagesMatch, IdsMatch;
  }

  lemma VerificationStands(past: seq<MatchEvent>, prior: Checkpoint, observation: Observation, emitScheduled: bool)
    requires Faithful(past, Some(prior))
    ensures var c := Diff(Some(prior), observation, emitScheduled).checkpoint;
      && (prior.stages.fulltime && !prior.pending ==> c.stages.fulltime && !c.pending)
      && (prior.pending ==> (c.pending <==> !observation.finalVerification))
  {
    var ctx := Start(Some(prior), observation);
    BeginInStep(past, Some(prior), observation);
    SettledInStep(past, Some(prior), ctx, emitScheduled);
    if prior.stages.fulltime { FulltimeStands(past, Some(prior), Settled(Some(prior), ctx, emitScheduled)); }
    hide Settled, InStep, Tracks;
  }

  /** Over any run no later checkpoint of a fixture forgets what an earlier one knew. */
  lemma {:induction false} CheckpointsNeverRegress(polls: seq<Poll>, i: nat, j: nat)
    requires i <= j <= |polls| && History(polls[..i]).checkpoint.Some?
    ensures History(polls[..j]).checkpoint.Some?
    ensures Remembers(History(polls[..i]).checkpoint.value, History(polls[..j]).checkpoint.value)
  {
    hide Diff;
    if i < j {
      CheckpointsNeverRegress(polls, i, j - 1);
      var before := History(polls[..j - 1]);
      HistoryIsFaithful(polls[..j - 1]);
      hide Faithful;
      DiffRemembers(before.log, before.checkpoint.value, polls[j - 1].observation, polls[j - 1].emitScheduled);
      assert polls[..j][..j - 1] == polls[..j - 1];
    }
  }

  // ---------------------------------------------------------------- final verification

  /**
   Over any run a pending fixture has emitted full time, stays pending exactly until a snapshot verifies it,
   and is never pending again afterwards.
   */
  lemma VerificationIsFinal(polls: seq<Poll>, i: nat, j: nat)
    requires i <= j <= |polls| && History(polls[..i]).checkpoint.Some?
    ensures var c, d := History(polls[..i]).checkpoint.value, History(polls[..j]).checkpoint.value;
      && (c.pending ==> c.stages.fulltime)
      && (c.pending ==> (d.pending <==> forall k :: i <= k < j ==> !polls[k].observation.finalVerification))
      && (c.stages.fulltime && !c.pending ==> !d.pending)
  {
    CheckpointsNeverRegress(polls, i, j);
    HistoryIsFaithful(polls[..i]);
    hide History, Legal, Agrees;
    if History(polls[..i]).checkpoint.value.pending { PendingUntilVerified(polls, i, j); }
  }

  lemma PendingStep(before: Record, poll: Poll)
    requires Faithful(before.log, before.checkpoint) && before.checkpoint.Some? && before.checkpoint.value.stages.fulltime
    ensures var c := Diff(before.checkpoint, poll.observation, poll.emitScheduled).checkpoint;
      c.stages.fulltime && (c.pending <==> before.checkpoint.value.pending && !poll.observation.finalVerification)
  {
    FulltimeRemains(before, poll);
    VerificationStands(before.log, before.checkpoint.value, poll.observation, poll.emitScheduled);
    hide Diff, Faithful;
  }

  lemma {:induction false} PendingUntilVerified(polls: seq<Poll>, i: nat, j: nat)
    requires i <= j <= |polls| && History(polls[..i]).checkpoint.Some? && History(polls[..i]).checkpoint.value.pending
    ensures History(polls[..j]).checkpoint.Some? && History(polls[..j]).checkpoint.value.stages.fulltime
    ensures History(polls[..j]).checkpoint.value.pending
            <==> forall k :: i <= k < j ==> !polls[k].observation.finalVerification
  {
    hide Diff, Legal, Agrees, StagesMatch, IdsMatch;
    if i == j {
      HistoryIsFaithful(polls[..i]);
    } else {
      PendingUntilVerified(polls, i, j - 1);
      HistoryIsFaithful(polls[..j - 1]);
      hide Faithful;
      PendingStep(History(polls[..j - 1]), polls[j - 1]);
      assert polls[..j][..j - 1] == polls[..j - 1];
    }
  }

  lemma FulltimeRemains(before: Record, poll: Poll)
    requires Faithful(before.log, before.checkpoint) && before.checkpoint.Some? && before.checkpoint.value.stages.fulltime
    ensures Diff(before.checkpoint, poll.observation, poll.emitScheduled).checkpoint.stages.fulltime
  {
    var prior, ctx := before.checkpoint, Start(before.checkpoint, poll.observation);
    BeginInStep(before.log, prior, poll.observation);
    SettledInStep(before.log, prior, ctx, poll.emitScheduled);
    FulltimeStands(before.log, prior, Settled(prior, ctx, poll.emitScheduled));
    hide Settled, InStep, Tracks;
  }

  /**
   A snapshot from the past, by clock or by status, leaves the checkpoint score alone whatever goals it lists;
   before full time it leaves the projected score alone as well, although its unseen goals are logged.
   */
  lemma StaleSnapshotsKeepTheScore(polls: seq<Poll>)
    requires |polls| > 0
    requires var prior := History(polls[..|polls| - 1]).checkpoint; var observation := polls[|polls| - 1].observation;
      prior.Some? && (observation.minute < prior.value.minute || Rank(observation.status) < Rank(prior.value.status))
    ensures var before, after := History(polls[..|polls| - 1]), History(polls);
      && after.checkpoint.value.score == before.checkpoint.value.score
      && (!Whistled(before.checkpoint) ==> ProjectedScore(after.log) == ProjectedScore(before.log) == after.checkpoint.value.score)
  {
    var before := History(polls[..|polls| - 1]);
    var poll := polls[|polls| - 1];
    DiffReports(before.checkpoint, poll.observation, poll.emitScheduled);
    HistoryIsFaithful(polls[..|polls| - 1]);
    if !Whistled(before.checkpoint) {
      ScoresAgreeUpToTheWhistle(before.log, before.checkpoint, poll.observation, poll.emitScheduled);
      LegalFold(before.log);
    }
    hide Diff, Fold, Legal;
  }

  // ---------------------------------------------------------------- limits of the agreement

  lemma DiffReports(prior: Option<Checkpoint>, observation: Observation, emitScheduled: bool)
    ensures
      var c := Diff(prior, observation, emitScheduled).checkpoint;
      var ctx := Start(prior, observation);
      c.score == ctx.reported && c.status == ctx.status && c.minute == ctx.minute
  {
    hide Settled, Start;
  }

  function Snapshot(status: StatusCode, minute: nat, home: nat, away: nat): Observation {
    Observation(1, 0, status, minute, Some(home), Some(away), [], false, 0)
  }

  /** Full time at 1-0 and then a report of 2-0: the checkpoint moves on, the projection does not. */
  lemma LateGoalsEscapeTheProjection()
    ensures var h := History([Poll(Snapshot(FT, 90, 1, 0), true), Poll(Snapshot(FT, 90, 2, 0), true)]);
      CheckpointScore(h.checkpoint) == Score(2, 0) && ProjectedScore(h.log) != Score(2, 0)
  {
    hide Diff, Fold;
    var first, second := Poll(Snapshot(FT, 90, 1, 0), true), Poll(Snapshot(FT, 90, 2, 0), true);
    var polls := [first, second];
    assert polls[..1] == [first] && [first][..0] == [];
    var c := Diff(None, first.observation, true).checkpoint;
    assert History(polls[..1]).checkpoint == Some(c);
    DiffCovers(None, first.observation, true);
    DiffReports(None, first.observation, true);
    DiffReports(Some(c), second.observation, true);
    AgreementOverWholeRuns(polls);
  }
}
