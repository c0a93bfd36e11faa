/** Whole runs of one fixture: any snapshots, diffed one after another. */
module FixtureRuns {
  import opened Common
  import opened MatchEvents
  import opened MatchReducer
  import opened FixtureSnapshots
  import opened FixtureDiff
  import opened FixtureHistory

  datatype Poll = Poll(observation: Observation, emitScheduled: bool)

  datatype Record = Record(log: seq<MatchEvent>, checkpoint: Option<Checkpoint>)

  function History(polls: seq<Poll>): Record {
    if |polls| == 0 then Record([], None)
    else
      var n := |polls| - 1;
      var before := History(polls[..n]);
      var result := Diff(before.checkpoint, polls[n].observation, polls[n].emitScheduled);
      Record(before.log + result.events, Some(result.checkpoint))
  }

  lemma {:induction false} HistoryIsFaithful(polls: seq<Poll>)
    ensures var h := History(polls); Faithful(h.log, h.checkpoint) && Legal(h.log)
  {
    if |polls| > 0 {
      var n := |polls| - 1;
      HistoryIsFaithful(polls[..n]);
      var before := History(polls[..n]);
      DiffKeepsFaith(before.log, before.checkpoint, polls[n].observation, polls[n].emitScheduled);
      hide Diff;
    }
  }

  // ---------------------------------------------------------------- identities and versions

  /** Over any run no two events share a dedupe key, and versions count 1, 2, 3 across the calls. */
  lemma IdentitiesAreFreshAndVersionsContiguous(polls: seq<Poll>)
    ensures var log := History(polls).log;
      && (forall i, j :: 0 <= i < j < |log| ==> log[i].identity != log[j].identity)
      && (forall i :: 0 <= i < |log| ==> log[i].version == i + 1)
      && PriorVersion(History(polls).checkpoint) == |log|
  {
    HistoryIsFaithful(polls);
    hide History;
    LegalIsFresh(History(polls).log);
  }

  lemma LegalIsFresh(log: seq<MatchEvent>)
    requires Legal(log)
    ensures forall i, j :: 0 <= i < j < |log| ==> log[i].identity != log[j].identity
    ensures forall i :: 0 <= i < |log| ==> log[i].version == i + 1
  {
    hide Legal;
    forall i | 0 <= i < |log| ensures log[i].version == i + 1 {
      LegalAt(log, i);
    }
    forall i, j | 0 <= i < j < |log| ensures log[i].identity != log[j].identity {
      LegalAt(log, j);
      assert log[..j][i] == log[i];
    }
  }

  /** Every accepted provider event of every poll is in the log, once. */
  lemma {:induction false} ProviderEventsAreLoggedOnce(polls: seq<Poll>, k: nat, event: ProviderEvent)
    requires k < |polls| && event in polls[k].observation.events && Accepted(event)
    ensures var log := History(polls).log;
      exists i :: 0 <= i < |log| && log[i].identity == ProviderKey(event.identity)
                  && forall j :: 0 <= j < |log| && j != i ==> log[j].identity != ProviderKey(event.identity)
  {
    hide History, Legal, Diff;
    var log := History(polls).log;
    HistoryIsFaithful(polls);
    IdsAreKept(polls, k, event);
    LegalIsFresh(log);
    assert ProviderKey(event.identity) in Keys(log);
    var e :| e in log && e.identity == ProviderKey(event.identity);
    var i :| 0 <= i < |log| && log[i] == e;
  }

  lemma {:induction false} IdsAreKept(polls: seq<Poll>, k: nat, event: ProviderEvent)
    requires k < |polls| && event in polls[k].observation.events && Accepted(event)
    ensures event.identity in PriorIds(History(polls).checkpoint)
  {
    hide Diff, Accepted;
    var n := |polls| - 1;
    var before := History(polls[..n]).checkpoint;
    DiffKeepsIds(before, polls[n].observation, polls[n].emitScheduled);
    if k < n {
      IdsAreKept(polls[..n], k, event);
    }
  }

  /** The ids after a diff: the known ones and every accepted one of this snapshot. */
  lemma DiffKeepsIds(prior: Option<Checkpoint>, observation: Observation, emitScheduled: bool)
    ensures var ids := Diff(prior, observation, emitScheduled).checkpoint.eventIds;
      PriorIds(prior) <= ids
      && forall e :: e in observation.events && Accepted(e) ==> e.identity in ids
  {
    var ctx := Start(prior, observation);
    var start := Opened(prior, ctx, emitScheduled);
    var events := Chronological(observation.events);
    ChronologicalSorts(observation.events);
    AbsorbedIds(start, ctx, events);
    ClosingKeepsIds(AbsorbAll(start, ctx, events), ctx);
    forall e | e in observation.events ensures e in events {
      assert e in multiset(observation.events);
    }
  }

  lemma {:induction false} AbsorbedIds(p: Progress, ctx: Context, events: seq<ProviderEvent>)
    ensures var ids := AbsorbAll(p, ctx, events).eventIds;
      p.eventIds <= ids && forall e :: e in events && Accepted(e) ==> e.identity in ids
  {
    if |events| > 0 {
      var n := |events| - 1;
      AbsorbedIds(p, ctx, events[..n]);
      EnsureKeepsIds(AbsorbAll(p, ctx, events[..n]), ctx, events[n].minute);
      assert forall e :: e in events ==> e in events[..n] || e == events[n];
    }
  }

  lemma EnsureKeepsIds(p: Progress, ctx: Context, minute: nat)
    ensures EnsureStagesBy(p, ctx, minute).eventIds == p.eventIds
    ensures EnsureStagesBy(p, ctx, minute).goals == p.goals
    ensures EnsureStages(p, ctx).eventIds == p.eventIds
    ensures EnsureStages(p, ctx).goals == p.goals
  {
    hide Event;
  }

  lemma {:induction false} ScoreGoalsKeepIds(p: Progress, ctx: Context, side: Side, counted: nat, reported: nat)
    ensures ScoreGoals(p, ctx, side, counted, reported).eventIds == p.eventIds
    ensures ScoreGoals(p, ctx, side, counted, reported).stages == p.stages
    decreases reported - counted
  {
    if reported > counted {
      ScoreGoalsKeepIds(p, ctx, side, counted, reported - 1);
    }
  }

  lemma ClosingKeepsIds(p: Progress, ctx: Context)
    ensures EnsureFulltime(CorrectScore(AlignScore(EnsureStages(p, ctx), ctx), ctx), ctx).eventIds == p.eventIds
  {
    EnsureKeepsIds(p, ctx, 0);
    var q := EnsureStages(p, ctx);
    var counted := Counted(q, ctx);
    ScoreGoalsKeepIds(q, ctx, Home, counted.home, ctx.reported.home);
    ScoreGoalsKeepIds(ScoreGoals(q, ctx, Home, counted.home, ctx.reported.home), ctx, Away, counted.away, ctx.reported.away);
    hide Event, EnsureStages, ScoreGoals;
  }

  // ---------------------------------------------------------------- lifecycle order

  predicate Lifecycle(kind: EventType) {
    kind.Kickoff? || kind.Halftime? || kind.SecondHalf? || kind.ExtraTime? || kind.Penalties? || kind.Fulltime?
  }

  predicate StoodBefore(log: seq<MatchEvent>, i: nat, kind: EventType)
    requires i < |log|
  {
    exists j :: 0 <= j < i && log[j].kind == kind
  }

  predicate StagesInOrder(log: seq<MatchEvent>) {
    forall i: nat :: i < |log| ==>
      && (log[i].kind.Halftime? ==> StoodBefore(log, i, Kickoff))
      && (log[i].kind.SecondHalf? ==> StoodBefore(log, i, Halftime))
      && (log[i].kind.ExtraTime? || log[i].kind.Fulltime? ==> StoodBefore(log, i, SecondHalf))
      && (log[i].kind.Penalties? ==> StoodBefore(log, i, ExtraTime))
  }

  /**
   Each lifecycle event happens at most once in a fixture's whole history; halftime, second half,
   extra time and penalties each come after the stage before them, full time after the second half.
   */
  lemma LifecycleIsOrdered(polls: seq<Poll>)
    ensures var log := History(polls).log;
      && StagesInOrder(log)
      && forall i, j :: 0 <= i < j < |log| && Lifecycle(log[i].kind) ==> log[i].kind != log[j].kind
  {
    HistoryIsFaithful(polls);
    hide History;
    LegalIsOrdered(History(polls).log);
    hide Legal, StagesInOrder, Lifecycle;
  }

  lemma LegalIsOrdered(log: seq<MatchEvent>)
    requires Legal(log)
    ensures StagesInOrder(log)
    ensures forall i, j :: 0 <= i < j < |log| && Lifecycle(log[i].kind) ==> log[i].kind != log[j].kind
  {
    hide Legal;
    LegalIsFresh(log);
    LegalKeys(log);
    forall i, j | 0 <= i < j < |log| && Lifecycle(log[i].kind) ensures log[i].kind != log[j].kind {
      assert KeyFits(log[i]) && KeyFits(log[j]) && log[i].identity != log[j].identity;
    }
    hide KeyFits, Lifecycle;
    forall i: nat, kind | i < |log| && kind in Prerequisites(log[i].kind) ensures StoodBefore(log, i, kind) {
      LegalAt(log, i);
      var e :| e in log[..i] && e.kind == kind;
      var j :| 0 <= j < i && log[..i][j] == e;
      assert log[j].kind == kind;
    }
    hide StoodBefore;
  }

  // ---------------------------------------------------------------- score agreement

  function CheckpointScore(checkpoint: Option<Checkpoint>): Score {
    PriorScore(checkpoint)
  }

  predicate Whistled(checkpoint: Option<Checkpoint>) {
    PriorStages(checkpoint).fulltime
  }

  /**
   Up to and including full time every payload score is the score the reducer reaches with that event,
   and the projection is finished exactly when the checkpoint says that full time was emitted.
   */
  lemma PayloadScoresAgree(polls: seq<Poll>)
    ensures var log := History(polls).log;
      && (forall i :: 0 <= i < |log| && !Over(Fold(log[..i])) ==> log[i].score == ProjectedScore(log[..i + 1]))
      && (Over(Fold(log)) <==> Whistled(History(polls).checkpoint))
  {
    HistoryIsFaithful(polls);
    hide History, Legal, Fold;
    var log := History(polls).log;
    LegalFold(log);
    forall i | 0 <= i < |log| && !Over(Fold(log[..i]))
      ensures log[i].score == ProjectedScore(log[..i + 1])
    {
      LegalAt(log, i);
      assert log[..i + 1] == log[..i] + [log[i]];
    }
  }

  lemma NotOver(past: seq<MatchEvent>, p: Progress)
    requires Legal(past) && InStep(past, p) && Fulltime !in Kinds(past) && Unfinished(p.emitted)
    ensures !Over(Fold(past + p.emitted))
  {
    hide Fold, Legal;
    LegalFold(past + p.emitted);
    LegalKeys(past + p.emitted);
    assert forall e :: e in past + p.emitted ==> e in past || e in p.emitted;
  }

  lemma WhistleKeepsAgreement(past: seq<MatchEvent>, ctx: Context, p: Progress)
    requires InStep(past, p) && p.score == ctx.reported && !Over(Fold(past + p.emitted))
    ensures ProjectedScore(past + EnsureFulltime(p, ctx).emitted) == ctx.reported
  {
    hide Fold, Legal;
    if FullTime(ctx.status) && !p.stages.fulltime {
      var e := Event(p, ctx, Fulltime, FulltimeKey, Max(90, ctx.minute), None, Some(ctx.reported));
      AgreesAppend(past + p.emitted, p.score, e);
      assert past + (p.emitted + [e]) == (past + p.emitted) + [e];
    }
  }

  /** A diff that starts before the final whistle leaves checkpoint and projection with one score. */
  lemma ScoresAgreeUpToTheWhistle(past: seq<MatchEvent>, prior: Option<Checkpoint>, observation: Observation, emitScheduled: bool)
    requires Faithful(past, prior) && !Whistled(prior)
    ensures var result := Diff(prior, observation, emitScheduled);
      ProjectedScore(past + result.events) == result.checkpoint.score
  {
    hide Legal, Fold, Agrees, Kinds;
    var ctx := Start(prior, observation);
    BeginInStep(past, prior, observation);
    ScoredCloses(past, prior, ctx, emitScheduled);
    var scored := Scored(prior, ctx, emitScheduled);
    CorrectScoreRuns(past, ctx, scored);
    NotOver(past, CorrectScore(scored, ctx));
    WhistleKeepsAgreement(past, ctx, CorrectScore(scored, ctx));
  }

  // ---------------------------------------------------------------- after the final whistle

  datatype Tally = Tally(ids: set<nat>, goals: Score)

  /** Goals among the accepted provider events whose identity is new. */
  function CountGoals(ids: set<nat>, events: seq<ProviderEvent>): Tally {
    if |events| == 0 then Tally(ids, Score(0, 0))
    else
      var e := events[|events| - 1];
      var t := CountGoals(ids, events[..|events| - 1]);
      if Accepted(e) && e.identity !in t.ids then
        Tally(t.ids + {e.identity}, if Classify(e).value.Goal? then t.goals.Plus(e.side.value, 1) else t.goals)
      else t
  }

  lemma {:induction false} AbsorbedGoals(p: Progress, ctx: Context, events: seq<ProviderEvent>)
    requires p.goals == Score(0, 0)
    ensures var q := AbsorbAll(p, ctx, events); Tally(q.eventIds, q.goals) == CountGoals(p.eventIds, events)
  {
    hide EnsureStagesBy, Event;
    if |events| > 0 {
      var n := |events| - 1;
      AbsorbedGoals(p, ctx, events[..n]);
      EnsureKeepsIds(AbsorbAll(p, ctx, events[..n]), ctx, events[n].minute);
    }
  }

  /** The known score with the new provider goals of a snapshot on top. */
  function CountedScore(prior: Option<Checkpoint>, observation: Observation): Score {
    var goals := CountGoals(PriorIds(prior), Chronological(observation.events)).goals;
    Score(PriorScore(prior).home + goals.home, PriorScore(prior).away + goals.away)
  }

  lemma CountedScoreIsCounted(prior: Option<Checkpoint>, observation: Observation, emitScheduled: bool)
    ensures var ctx := Start(prior, observation);
      Counted(Played(prior, ctx, emitScheduled), ctx) == CountedScore(prior, observation)
  {
    var ctx := Start(prior, observation);
    var start := Opened(prior, ctx, emitScheduled);
    var events := Chronological(observation.events);
    AbsorbedGoals(start, ctx, events);
    EnsureKeepsIds(AbsorbAll(start, ctx, events), ctx, 0);
    hide EnsureStages, Event;
  }

  /** Events other than corrections pass a finished projection by. */
  lemma FinishedUnmoved(past: seq<MatchEvent>, p: Progress)
    requires InStep(past, p) && Over(Fold(past)) && Uncorrected(p.emitted)
    ensures Fold(past + p.emitted) == Fold(past)
  {
    hide Fold, Legal;
    OnlyCorrectionsMoveAFinalScore(past, p.emitted);
    LegalKeys(past + p.emitted);
    forall i | 0 <= i < |p.emitted| ensures !p.emitted[i].kind.ScoreCorrected? {
      assert p.emitted[i] in past + p.emitted;
    }
  }

  /** An accepted correction sets even a finished projection to the reported score. */
  lemma CorrectionReaches(past: seq<MatchEvent>, ctx: Context, p: Progress)
    requires InStep(past, p) && ctx.reported != Aligned(p, ctx)
    ensures ProjectedScore(past + CorrectScore(p, ctx).emitted) == ctx.reported
  {
    var key := CorrectionKey(ctx.version, Aligned(p, ctx), ctx.reported);
    var e := Event(p, ctx, ScoreCorrected, key, ctx.minute, None, Some(ctx.reported));
    var log := past + p.emitted;
    assert past + (p.emitted + [e]) == log + [e];
    LegalFold(log);
    FoldAppend(log, e);
    hide Fold, Legal;
  }

  /**
   After full time one diff leaves checkpoint and projection with one score exactly when either the
   reported score falls short of the counted one, so that a correction is emitted, or the two agreed
   before and the snapshot reports the known score.
   */
  lemma ScoresAgreeAfterTheWhistle(
    past: seq<MatchEvent>, prior: Option<Checkpoint>, observation: Observation, emitScheduled: bool)
    requires Faithful(past, prior) && Whistled(prior)
    ensures
      var result := Diff(prior, observation, emitScheduled);
      var reported := Start(prior, observation).reported;
      ProjectedScore(past + result.events) == result.checkpoint.score
      <==> (!CountedScore(prior, observation).AtMost(reported)
            || (ProjectedScore(past) == PriorScore(prior) && reported == PriorScore(prior)))
  {
    hide Legal, Fold, CountGoals, Chronological, Played;
    var ctx := Start(prior, observation);
    BeginInStep(past, prior, observation);
    ScoredCloses(past, prior, ctx, emitScheduled);
    CountedScoreIsCounted(prior, observation, emitScheduled);
    var p := Scored(prior, ctx, emitScheduled);
    LegalFold(past);
    CorrectScoreRuns(past, ctx, p);
    FulltimeStands(past, prior, CorrectScore(p, ctx));
    if ctx.reported != Aligned(p, ctx) {
      CorrectionReaches(past, ctx, p);
    } else {
      FinishedUnmoved(past, p);
    }
  }

  /** Checkpoint and projection show one score after the last of these polls, told from the polls alone. */
  ghost predicate Synchronised(polls: seq<Poll>) {
    |polls| == 0 ||
    var n := |polls| - 1;
    var prior := History(polls[..n]).checkpoint;
    var reported := Start(prior, polls[n].observation).reported;
    Whistled(prior) ==>
      !CountedScore(prior, polls[n].observation).AtMost(reported)
      || (Synchronised(polls[..n]) && reported == PriorScore(prior))
  }

  /** Over every run, the projected score is the checkpoint's exactly as `Synchronised` says. */
  lemma {:induction false} AgreementOverWholeRuns(polls: seq<Poll>)
    ensures var h := History(polls);
      && (ProjectedScore(h.log) == CheckpointScore(h.checkpoint) <==> Synchronised(polls))
      && ProjectedScore(h.log).AtMost(CheckpointScore(h.checkpoint))
      && (!Whistled(h.checkpoint) ==> Synchronised(polls))
  {
    if |polls| > 0 {
      hide Legal, Fold, Diff, Start, CountedScore;
      HistoryIsFaithful(polls);
      PayloadScoresAgree(polls);
      var n := |polls| - 1;
      var before := History(polls[..n]);
      AgreementOverWholeRuns(polls[..n]);
      HistoryIsFaithful(polls[..n]);
      if Whistled(before.checkpoint) {
        ScoresAgreeAfterTheWhistle(before.log, before.checkpoint, polls[n].observation, polls[n].emitScheduled);
      } else {
        ScoresAgreeUpToTheWhistle(before.log, before.checkpoint, polls[n].observation, polls[n].emitScheduled);
      }
    }
  }
}
