/** When a snapshot leaves the projected match scheduled. */
module FixtureStatus {
  import opened Common
  import opened MatchEvents
  import opened MatchReducer
  import opened FixtureSnapshots
  import opened FixtureDiff
  import opened FixtureHistory
  import opened FixtureRuns
  import opened FixtureCheckpoints

  // A kickoff that moves during play is announced as a new schedule, and the reducer then takes the match
  // for one that has not begun.

  // ---------------------------------------------------------------- the announcement

  /** A schedule is announced first or not at all. */
  predicate Announces(events: seq<MatchEvent>, announced: bool) {
    && (announced ==> |events| > 0)
    && forall i :: 0 <= i < |events| ==> (events[i].kind.Scheduled? <==> announced && i == 0)
  }

  lemma EmitAnnounces(p: Progress, ctx: Context, announced: bool, kind: EventType, key: Identity,
                      minute: nat, side: Option<Side>, fixed: Option<Score>)
    requires Announces(p.emitted, announced) && !kind.Scheduled?
    ensures Announces(Emit(p, ctx, kind, key, minute, side, fixed).emitted, announced)
  {
  }

  lemma HalvesAnnounce(p: Progress, ctx: Context, announced: bool)
    requires Announces(p.emitted, announced)
    ensures Announces(EnsureHalftime(p, ctx).emitted, announced)
    ensures Announces(EnsureSecondHalf(p, ctx).emitted, announced)
  {
    hide Emit, Announces;
    EmitAnnounces(p, ctx, announced, Halftime, HalftimeKey, 45, None, None);
    EmitAnnounces(EnsureHalftime(p, ctx), ctx, announced, SecondHalf, SecondHalfKey, 45, None, None);
  }

  lemma StagesAnnounce(p: Progress, ctx: Context, announced: bool)
    requires Announces(p.emitted, announced)
    ensures Announces(EnsureExtraTime(p, ctx).emitted, announced)
    ensures Announces(EnsurePenalties(p, ctx).emitted, announced)
  {
    hide Emit, Announces, EnsureSecondHalf;
    HalvesAnnounce(p, ctx, announced);
    EmitAnnounces(EnsureSecondHalf(p, ctx), ctx, announced, ExtraTime, ExtraTimeKey, 90, None, None);
    EmitAnnounces(EnsureExtraTime(p, ctx), ctx, announced, Penalties, PenaltiesKey, 120, None, None);
  }

  lemma AbsorbAnnounces(p: Progress, ctx: Context, announced: bool, event: ProviderEvent)
    requires Announces(p.emitted, announced)
    ensures Announces(Absorb(p, ctx, event).emitted, announced)
  {
    hide Emit, Announces, EnsureHalftime, EnsureSecondHalf, EnsureExtraTime, EnsurePenalties;
    var m := event.minute;
    var p1 := if m >= 45 then EnsureHalftime(p, ctx) else p;
    var p2 := if m > 45 then EnsureSecondHalf(p1, ctx) else p1;
    var p3 := if m >= 90 then EnsureExtraTime(p2, ctx) else p2;
    var p4 := EnsureStagesBy(p, ctx, m);
    HalvesAnnounce(p, ctx, announced);
    HalvesAnnounce(p1, ctx, announced);
    StagesAnnounce(p2, ctx, announced);
    StagesAnnounce(p3, ctx, announced);
    if Accepted(event) {
      EmitAnnounces(p4, ctx, announced, Classify(event).value, ProviderKey(event.identity), m, event.side, None);
    }
  }

  lemma {:induction false} AbsorbAllAnnounces(p: Progress, ctx: Context, announced: bool, events: seq<ProviderEvent>)
    requires Announces(p.emitted, announced)
    ensures Announces(AbsorbAll(p, ctx, events).emitted, announced)
  {
    hide Announces, Absorb;
    if |events| > 0 {
      AbsorbAllAnnounces(p, ctx, announced, events[..|events| - 1]);
      AbsorbAnnounces(AbsorbAll(p, ctx, events[..|events| - 1]), ctx, announced, events[|events| - 1]);
    }
  }

  lemma {:induction false} ScoreGoalsAnnounce(p: Progress, ctx: Context, announced: bool, side: Side, counted: nat, reported: nat)
    requires Announces(p.emitted, announced)
    ensures Announces(ScoreGoals(p, ctx, side, counted, reported).emitted, announced)
    decreases reported - counted
  {
    hide Emit, Announces;
    if reported > counted {
      ScoreGoalsAnnounce(p, ctx, announced, side, counted, reported - 1);
      EmitAnnounces(ScoreGoals(p, ctx, side, counted, reported - 1), ctx, announced, Goal,
                    ScoreGoalKey(ctx.version, side, reported, ctx.minute), ctx.minute, Some(side), None);
    }
  }

  lemma ClosingAnnounces(p: Progress, ctx: Context, announced: bool)
    requires Announces(p.emitted, announced)
    ensures Announces(EnsureFulltime(CorrectScore(AlignScore(p, ctx), ctx), ctx).emitted, announced)
  {
    hide Emit, Announces, ScoreGoals;
    var counted := Counted(p, ctx);
    ScoreGoalsAnnounce(p, ctx, announced, Home, counted.home, ctx.reported.home);
    ScoreGoalsAnnounce(ScoreGoals(p, ctx, Home, counted.home, ctx.reported.home), ctx, announced, Away,
                       counted.away, ctx.reported.away);
    var q := AlignScore(p, ctx);
    EmitAnnounces(q, ctx, announced, ScoreCorrected, CorrectionKey(ctx.version, Aligned(q, ctx), ctx.reported),
                  ctx.minute, None, Some(ctx.reported));
    EmitAnnounces(CorrectScore(q, ctx), ctx, announced, Fulltime, FulltimeKey, Max(90, ctx.minute), None,
                  Some(ctx.reported));
  }

  predicate Announced(prior: Option<Checkpoint>, observation: Observation, emitScheduled: bool) {
    emitScheduled && ScheduleChanged(prior, observation)
  }

  lemma DiffAnnounces(prior: Option<Checkpoint>, observation: Observation, emitScheduled: bool)
    ensures Announces(Diff(prior, observation, emitScheduled).events, Announced(prior, observation, emitScheduled))
  {
    var ctx := Start(prior, observation);
    var announced := Announced(prior, observation, emitScheduled);
    var begun := Announce(Begin(prior), ctx, announced);
    assert Announces(begun.emitted, announced);
    hide Emit, Announces, AbsorbAll, Announce, EnsureHalftime, EnsureSecondHalf, EnsureExtraTime, EnsurePenalties,
         AlignScore, CorrectScore, EnsureFulltime;
    EmitAnnounces(begun, ctx, announced, Kickoff, KickoffKey, 0, None, None);
    var start := Opened(prior, ctx, emitScheduled);
    var events := Chronological(observation.events);
    AbsorbAllAnnounces(start, ctx, announced, events);
    var p := AbsorbAll(start, ctx, events);
    HalvesAnnounce(p, ctx, announced);
    HalvesAnnounce(EnsureHalftime(p, ctx), ctx, announced);
    StagesAnnounce(EnsureSecondHalf(EnsureHalftime(p, ctx), ctx), ctx, announced);
    StagesAnnounce(EnsureExtraTime(EnsureSecondHalf(EnsureHalftime(p, ctx), ctx), ctx), ctx, announced);
    ClosingAnnounces(EnsureStages(p, ctx), ctx, announced);
  }

  // ---------------------------------------------------------------- news of the match itself

  /** Events that take the projection out of the scheduled status. */
  predicate Moves(kind: EventType) {
    !kind.Scheduled? && !kind.ScoreCorrected? && !kind.Unrecognised?
  }

  ghost predicate Moved(events: seq<MatchEvent>) {
    exists e :: e in events && Moves(e.kind)
  }

  /** The snapshot brings nothing that a diff would emit, apart from a schedule and a score correction. */
  predicate Quiet(prior: Option<Checkpoint>, observation: Observation) {
    var ctx, stages := Start(prior, observation), PriorStages(prior);
    && (InPlay(ctx.status) || FullTime(ctx.status) ==> stages.kickoff)
    && Covered(ctx.status, stages)
    && (FullTime(ctx.status) ==> stages.fulltime)
    && (forall e :: e in observation.events && Accepted(e) ==> e.identity in PriorIds(prior))
    && ctx.reported.AtMost(PriorScore(prior))
  }

  /** `q` comes after `p`; it differs in stages, ids and goals only if the match has moved. */
  ghost predicate Calm(p: Progress, q: Progress) {
    && p.emitted <= q.emitted
    && (Moved(q.emitted) || (q.stages == p.stages && q.eventIds == p.eventIds && q.goals == p.goals))
  }

  lemma MovedGrows(events: seq<MatchEvent>, more: seq<MatchEvent>)
    requires events <= more && Moved(events)
    ensures Moved(more)
  {
    var e :| e in events && Moves(e.kind);
    assert e in more;
  }

  lemma CalmChain(p: Progress, q: Progress, r: Progress)
    requires Calm(p, q) && Calm(q, r)
    ensures Calm(p, r)
  {
    hide Moved;
    if Moved(q.emitted) { MovedGrows(q.emitted, r.emitted); }
  }

  lemma EmitMoves(p: Progress, ctx: Context, kind: EventType, key: Identity, minute: nat, side: Option<Side>, fixed: Option<Score>)
    ensures var q := Emit(p, ctx, kind, key, minute, side, fixed);
      && p.emitted <= q.emitted && (Moves(kind) ==> Moved(q.emitted))
      && (!Moves(kind) ==> (Moved(q.emitted) <==> Moved(p.emitted)))
      && q.stages == p.stages && q.eventIds == p.eventIds && q.goals == p.goals
  {
    var q := Emit(p, ctx, kind, key, minute, side, fixed);
    var e := q.emitted[|p.emitted|];
    assert forall x :: x in q.emitted <==> x in p.emitted || x == e;
  }

  lemma HalvesAreCalm(p: Progress, ctx: Context)
    ensures Calm(p, EnsureHalftime(p, ctx)) && Calm(p, EnsureSecondHalf(p, ctx))
  {
    hide Emit, Moved;
    EmitMoves(p, ctx, Halftime, HalftimeKey, 45, None, None);
    EmitMoves(EnsureHalftime(p, ctx), ctx, SecondHalf, SecondHalfKey, 45, None, None);
  }

  lemma StagesAreCalm(p: Progress, ctx: Context)
    ensures Calm(p, EnsureExtraTime(p, ctx)) && Calm(p, EnsurePenalties(p, ctx))
  {
    hide Emit, Moved, EnsureSecondHalf;
    HalvesAreCalm(p, ctx);
    EmitMoves(EnsureSecondHalf(p, ctx), ctx, ExtraTime, ExtraTimeKey, 90, None, None);
    EmitMoves(EnsureExtraTime(p, ctx), ctx, Penalties, PenaltiesKey, 120, None, None);
  }

  lemma AllStagesAreCalm(p: Progress, ctx: Context)
    ensures Calm(p, EnsureStages(p, ctx))
  {
    hide Calm, EnsureHalftime, EnsureSecondHalf, EnsureExtraTime, EnsurePenalties;
    var p1 := EnsureHalftime(p, ctx);
    var p2 := EnsureSecondHalf(p1, ctx);
    var p3 := EnsureExtraTime(p2, ctx);
    HalvesAreCalm(p, ctx);
    HalvesAreCalm(p1, ctx);
    StagesAreCalm(p2, ctx);
    StagesAreCalm(p3, ctx);
    CalmChain(p, p1, p2);
    CalmChain(p, p2, p3);
    CalmChain(p, p3, EnsureStages(p, ctx));
  }

  lemma CalmItself(p: Progress)
    ensures Calm(p, p)
  {
  }

  lemma StagesByAreCalm(p: Progress, ctx: Context, minute: nat)
    ensures Calm(p, EnsureStagesBy(p, ctx, minute))
  {
    hide Calm, EnsureHalftime, EnsureSecondHalf, EnsureExtraTime, EnsurePenalties;
    var p1 := if minute >= 45 then EnsureHalftime(p, ctx) else p;
    var p2 := if minute > 45 then EnsureSecondHalf(p1, ctx) else p1;
    var p3 := if minute >= 90 then EnsureExtraTime(p2, ctx) else p2;
    var p4 := EnsureStagesBy(p, ctx, minute);
    CalmItself(p);
    CalmItself(p1);
    CalmItself(p2);
    CalmItself(p3);
    HalvesAreCalm(p, ctx);
    HalvesAreCalm(p1, ctx);
    StagesAreCalm(p2, ctx);
    StagesAreCalm(p3, ctx);
    CalmChain(p, p1, p2);
    CalmChain(p, p2, p3);
    CalmChain(p, p3, p4);
  }

  lemma AbsorbIsCalm(p: Progress, ctx: Context, event: ProviderEvent)
    ensures Calm(p, Absorb(p, ctx, event))
  {
    hide Emit, Moved, EnsureStagesBy;
    StagesByAreCalm(p, ctx, event.minute);
    var q := EnsureStagesBy(p, ctx, event.minute);
    if Accepted(event) {
      EmitMoves(q, ctx, Classify(event).value, ProviderKey(event.identity), event.minute, event.side, None);
    }
  }

  lemma {:induction false} AbsorbAllIsCalm(p: Progress, ctx: Context, events: seq<ProviderEvent>)
    ensures Calm(p, AbsorbAll(p, ctx, events))
  {
    hide Calm, Absorb;
    if |events| == 0 {
      CalmItself(p);
    } else {
      var q := AbsorbAll(p, ctx, events[..|events| - 1]);
      AbsorbAllIsCalm(p, ctx, events[..|events| - 1]);
      AbsorbIsCalm(q, ctx, events[|events| - 1]);
      CalmChain(p, q, AbsorbAll(p, ctx, events));
    }
  }

  lemma {:induction false} ScoreGoalsMove(p: Progress, ctx: Context, side: Side, counted: nat, reported: nat)
    ensures Calm(p, ScoreGoals(p, ctx, side, counted, reported))
    ensures reported > counted ==> Moved(ScoreGoals(p, ctx, side, counted, reported).emitted)
    ensures reported <= counted ==> ScoreGoals(p, ctx, side, counted, reported) == p
    decreases reported - counted
  {
    hide Emit, Moved;
    if reported > counted {
      ScoreGoalsMove(p, ctx, side, counted, reported - 1);
      EmitMoves(ScoreGoals(p, ctx, side, counted, reported - 1), ctx, Goal,
                ScoreGoalKey(ctx.version, side, reported, ctx.minute), ctx.minute, Some(side), None);
    }
  }

  lemma OpeningIsCalm(prior: Option<Checkpoint>, ctx: Context, emitScheduled: bool)
    ensures Calm(Begin(prior), Opened(prior, ctx, emitScheduled))
  {
    hide Emit, Moved;
    var announce := emitScheduled && ScheduleChanged(prior, ctx.observation);
    EmitMoves(Begin(prior), ctx, Scheduled, ScheduledKey(ctx.version, ctx.observation.kickoff), 0, None, None);
    var begun := Announce(Begin(prior), ctx, announce);
    EmitMoves(begun, ctx, Kickoff, KickoffKey, 0, None, None);
  }

  lemma PlayIsCalm(prior: Option<Checkpoint>, ctx: Context, emitScheduled: bool)
    ensures Calm(Begin(prior), Played(prior, ctx, emitScheduled))
  {
    hide Calm, AbsorbAll, EnsureStages;
    var events := Chronological(ctx.observation.events);
    var start := Opened(prior, ctx, emitScheduled);
    OpeningIsCalm(prior, ctx, emitScheduled);
    AbsorbAllIsCalm(start, ctx, events);
    AllStagesAreCalm(AbsorbAll(start, ctx, events), ctx);
    hide Opened;
    CalmChain(Begin(prior), start, AbsorbAll(start, ctx, events));
    CalmChain(Begin(prior), AbsorbAll(start, ctx, events), Played(prior, ctx, emitScheduled));
  }

  /** If the closing part moves nothing, the score was already counted and full time emitted. */
  lemma ClosingMoves(p: Progress, ctx: Context)
    ensures var q := EnsureFulltime(CorrectScore(AlignScore(p, ctx), ctx), ctx);
      && Calm(p, q)
      && (!Moved(q.emitted) ==> ctx.reported.AtMost(Counted(p, ctx)))
  {
    hide Emit, Moved, ScoreGoals;
    var counted := Counted(p, ctx);
    var p1 := ScoreGoals(p, ctx, Home, counted.home, ctx.reported.home);
    var p2 := AlignScore(p, ctx);
    ScoreGoalsMove(p, ctx, Home, counted.home, ctx.reported.home);
    ScoreGoalsMove(p1, ctx, Away, counted.away, ctx.reported.away);
    CalmChain(p, p1, p2);
    if Moved(p1.emitted) { MovedGrows(p1.emitted, p2.emitted); }
    var p3 := CorrectScore(p2, ctx);
    EmitMoves(p2, ctx, ScoreCorrected, CorrectionKey(ctx.version, Aligned(p2, ctx), ctx.reported), ctx.minute,
              None, Some(ctx.reported));
    CalmChain(p, p2, p3);
    EmitMoves(p3, ctx, Fulltime, FulltimeKey, Max(90, ctx.minute), None, Some(ctx.reported));
    var p4 := EnsureFulltime(p3, ctx);
    CalmChain(p, p3, p4);
    if Moved(p2.emitted) { MovedGrows(p2.emitted, p4.emitted); }
  }

  lemma StillMeansQuiet(prior: Option<Checkpoint>, observation: Observation, emitScheduled: bool)
    requires !Moved(Diff(prior, observation, emitScheduled).events)
    ensures Quiet(prior, observation)
  {
    hide Moved, Covered, Accepted, Played, AlignScore, CorrectScore, EnsureFulltime;
    var ctx := Start(prior, observation);
    var played := Played(prior, ctx, emitScheduled);
    var settled := Settled(prior, ctx, emitScheduled);
    PlayIsCalm(prior, ctx, emitScheduled);
    ClosingMoves(played, ctx);
    CalmChain(Begin(prior), played, settled);
    if Moved(played.emitted) { MovedGrows(played.emitted, settled.emitted); }
    DiffCovers(prior, observation, emitScheduled);
    DiffKeepsIds(prior, observation, emitScheduled);
    hide Start;
  }

  lemma QuietMeansStill(prior: Option<Checkpoint>, observation: Observation, emitScheduled: bool)
    requires Quiet(prior, observation)
    ensures !Moved(Diff(prior, observation, emitScheduled).events)
    ensures Diff(prior, observation, emitScheduled).checkpoint.stages == PriorStages(prior)
  {
    hide Event, Chronological, Accepted, Moved, EnsureStages;
    var ctx := Start(prior, observation);
    var announce := emitScheduled && ScheduleChanged(prior, ctx.observation);
    var begun := Announce(Begin(prior), ctx, announce);
    var events := Chronological(observation.events);
    ChronologicalSorts(observation.events);
    forall e | e in events && Accepted(e) ensures e.identity in PriorIds(prior) {
      assert e in multiset(events);
    }
    assert Opened(prior, ctx, emitScheduled) == begun;
    KnownEventsAddNothing(begun, ctx, events);
    CoveredStagesStand(begun, ctx);
    assert Played(prior, ctx, emitScheduled) == begun;
    hide AbsorbAll, Covered;
    assert AlignScore(begun, ctx) == begun;
    NothingMovesYet(prior);
    EmitMoves(Begin(prior), ctx, Scheduled, ScheduledKey(ctx.version, ctx.observation.kickoff), 0, None, None);
    EmitMoves(begun, ctx, ScoreCorrected, CorrectionKey(ctx.version, Aligned(begun, ctx), ctx.reported), ctx.minute,
              None, Some(ctx.reported));
  }

  lemma NothingMovesYet(prior: Option<Checkpoint>)
    ensures !Moved(Begin(prior).emitted)
  {
  }

  lemma CoveredStagesStand(p: Progress, ctx: Context)
    requires Covered(ctx.status, p.stages)
    ensures EnsureStages(p, ctx) == p
  {
    hide Emit;
  }

  // ---------------------------------------------------------------- the projected status

  ghost predicate Unbegun(log: seq<MatchEvent>) {
    Before(Fold(log)).status.Upcoming?
  }

  lemma OneStatus(log: seq<MatchEvent>, e: MatchEvent)
    requires Legal(log + [e])
    ensures !e.kind.Scheduled? ==> (Unbegun(log + [e]) <==> Unbegun(log) && !Moves(e.kind))
    ensures e.kind.Scheduled? ==> (Unbegun(log + [e]) <==> !Over(Fold(log)))
  {
    LegalAt(log + [e], |log|);
    assert (log + [e])[..|log|] == log;
    LegalFold(log);
    FoldAppend(log, e);
    hide Fold, Legal, Keys, Kinds;
  }

  lemma {:induction false} StatusFollows(past: seq<MatchEvent>, events: seq<MatchEvent>)
    requires Legal(past + events) && forall e :: e in events ==> !e.kind.Scheduled?
    ensures Unbegun(past + events) <==> Unbegun(past) && !Moved(events)
  {
    hide Legal, Fold, Unbegun;
    if |events| == 0 {
      assert past + events == past;
    } else {
      var n := |events| - 1;
      assert past + events == (past + events[..n]) + [events[n]];
      LegalPrefix(past + events, |past| + n);
      assert (past + events)[..|past| + n] == past + events[..n];
      StatusFollows(past, events[..n]);
      OneStatus(past + events[..n], events[n]);
      assert events == events[..n] + [events[n]];
      assert forall e :: e in events <==> e in events[..n] || e == events[n];
    }
  }

  lemma LegalPrefix(log: seq<MatchEvent>, n: nat)
    requires Legal(log) && n <= |log|
    ensures Legal(log[..n])
  {
    if n < |log| { LegalAt(log, n); } else { assert log[..n] == log; }
  }

  lemma WhistleIsOver(past: seq<MatchEvent>, prior: Option<Checkpoint>)
    requires Faithful(past, prior)
    ensures Over(Fold(past)) <==> Whistled(prior)
  {
    LegalFold(past);
    hide Fold, Legal;
  }

  /**
   After any diff the projected match is scheduled exactly when full time is not out, the snapshot is quiet,
   and either its kickoff is new and announced, or the match was scheduled before.
   */
  lemma DiffDecidesStatus(past: seq<MatchEvent>, prior: Option<Checkpoint>, observation: Observation, emitScheduled: bool)
    requires Faithful(past, prior)
    ensures Unbegun(past + Diff(prior, observation, emitScheduled).events)
            <==> !Whistled(prior) && Quiet(prior, observation)
                 && (Announced(prior, observation, emitScheduled) || Unbegun(past))
  {
    var events := Diff(prior, observation, emitScheduled).events;
    DiffAnnounces(prior, observation, emitScheduled);
    DiffKeepsFaith(past, prior, observation, emitScheduled);
    WhistleIsOver(past, prior);
    if Quiet(prior, observation) { QuietMeansStill(prior, observation, emitScheduled); }
    if !Moved(events) { StillMeansQuiet(prior, observation, emitScheduled); }
    assert Legal(past + events);
    hide Diff, Quiet, Faithful, Legal, Fold, Moved, Announces, Whistled, Announced;
    AnnouncedStatus(past, events, Announced(prior, observation, emitScheduled));
  }

  lemma AnnouncedStatus(past: seq<MatchEvent>, events: seq<MatchEvent>, announced: bool)
    requires Legal(past + events) && Announces(events, announced)
    ensures Unbegun(past + events) <==> !Over(Fold(past)) && !Moved(events) && (announced || Unbegun(past))
  {
    hide Legal, Fold;
    if announced {
      var rest := events[1..];
      assert events == [events[0]] + rest;
      assert past + events == (past + [events[0]]) + rest;
      LegalPrefix(past + events, |past| + 1);
      assert (past + events)[..|past| + 1] == past + [events[0]];
      OneStatus(past, events[0]);
      forall e | e in rest ensures !e.kind.Scheduled? {
        var i :| 0 <= i < |rest| && rest[i] == e;
        assert events[i + 1] == e;
      }
      StatusFollows(past + [events[0]], rest);
      assert forall e :: e in events <==> e in rest || e == events[0];
    } else {
      forall e | e in events ensures !e.kind.Scheduled? {
        var i :| 0 <= i < |events| && events[i] == e;
      }
      StatusFollows(past, events);
    }
  }

  // ---------------------------------------------------------------- whole runs

  /** The polls leave the projection scheduled, told from the polls alone. */
  predicate Unstarted(polls: seq<Poll>) {
    |polls| == 0 ||
    var n := |polls| - 1;
    var prior := History(polls[..n]).checkpoint;
    && !Whistled(prior) && Quiet(prior, polls[n].observation)
    && (Announced(prior, polls[n].observation, polls[n].emitScheduled) || Unstarted(polls[..n]))
  }

  /** Over every run the projection is scheduled exactly when the polls leave the match unstarted. */
  lemma {:induction false} StatusOverWholeRuns(polls: seq<Poll>)
    ensures Unbegun(History(polls).log) <==> Unstarted(polls)
  {
    if |polls| > 0 {
      var n := |polls| - 1;
      var before := History(polls[..n]);
      StatusOverWholeRuns(polls[..n]);
      HistoryIsFaithful(polls[..n]);
      hide Diff, Quiet, Fold, Legal, Faithful, Announced;
      DiffDecidesStatus(before.log, before.checkpoint, polls[n].observation, polls[n].emitScheduled);
    } else {
      NothingIsUnbegun();
    }
  }

  lemma NothingIsUnbegun()
    ensures Unbegun([])
  {
  }

  /** The poll announces a kickoff for a match whose kickoff event is out. */
  predicate MovesKickoff(polls: seq<Poll>, k: nat)
    requires k < |polls|
  {
    var prior := History(polls[..k]).checkpoint;
    Announced(prior, polls[k].observation, polls[k].emitScheduled) && PriorStages(prior).kickoff
  }

  /** A match that has kicked off shows as scheduled only since some poll moved its kickoff. */
  lemma {:induction false} OnlyAMovedKickoffUnstarts(polls: seq<Poll>) returns (k: nat)
    requires Unbegun(History(polls).log) && PriorStages(History(polls).checkpoint).kickoff
    ensures k < |polls| && MovesKickoff(polls, k)
    ensures forall j :: k <= j < |polls| ==> Quiet(History(polls[..j]).checkpoint, polls[j].observation)
  {
    hide Diff, Quiet, Fold, Legal, Announced;
    StatusOverWholeRuns(polls);
    var n := |polls| - 1;
    var prior := History(polls[..n]).checkpoint;
    QuietMeansStill(prior, polls[n].observation, polls[n].emitScheduled);
    if Announced(prior, polls[n].observation, polls[n].emitScheduled) {
      k := n;
    } else {
      StatusOverWholeRuns(polls[..n]);
      k := OnlyAMovedKickoffUnstarts(polls[..n]);
      assert polls[..n][..k] == polls[..k];
      forall j | k <= j < |polls| ensures Quiet(History(polls[..j]).checkpoint, polls[j].observation) {
        if j < n { assert polls[..n][..j] == polls[..j]; }
      }
    }
  }

  /** Two polls of the first half, the second with a later kickoff: in play, but shown as scheduled. */
  lemma MovedKickoffUnstartsTheMatch()
    ensures var first, second := Snapshot(FirstHalfCode, 10, 0, 0), Snapshot(FirstHalfCode, 11, 0, 0).(kickoff := 1);
      var h := History([Poll(first, true), Poll(second, true)]);
      && h.checkpoint.Some? && InPlay(h.checkpoint.value.status) && h.checkpoint.value.stages.kickoff
      && Unbegun(h.log)
  {
    hide Diff, Fold;
    var first := Poll(Snapshot(FirstHalfCode, 10, 0, 0), true);
    var second := Poll(Snapshot(FirstHalfCode, 11, 0, 0).(kickoff := 1), true);
    var polls := [first, second];
    assert polls[..1] == [first] && [first][..0] == [];
    var c := Diff(None, first.observation, true).checkpoint;
    assert History(polls[..1]).checkpoint == Some(c);
    DiffCovers(None, first.observation, true);
    DiffReports(None, first.observation, true);
    DiffReports(Some(c), second.observation, true);
    DiffCovers(Some(c), second.observation, true);
    SavedKickoff(None, first.observation, true);
    FulltimeComesFromStatus(None, first.observation, true);
    StatusOverWholeRuns(polls);
  }

  lemma SavedKickoff(prior: Option<Checkpoint>, observation: Observation, emitScheduled: bool)
    ensures Diff(prior, observation, emitScheduled).checkpoint.kickoff == observation.kickoff
  {
    hide Settled;
  }

  lemma StagesKeepFulltime(p: Progress, ctx: Context, minute: nat)
    ensures EnsureStages(p, ctx).stages.fulltime == p.stages.fulltime
    ensures EnsureStagesBy(p, ctx, minute).stages.fulltime == p.stages.fulltime
  {
    hide EnsureHalftime, EnsureSecondHalf, EnsureExtraTime, EnsurePenalties;
    StageKeepsFulltime(ctx);
  }

  lemma StageKeepsFulltime(ctx: Context)
    ensures forall p :: EnsureHalftime(p, ctx).stages.fulltime == p.stages.fulltime
    ensures forall p :: EnsureSecondHalf(p, ctx).stages.fulltime == p.stages.fulltime
    ensures forall p :: EnsureExtraTime(p, ctx).stages.fulltime == p.stages.fulltime
    ensures forall p :: EnsurePenalties(p, ctx).stages.fulltime == p.stages.fulltime
  {
    hide Event;
  }

  lemma {:induction false} AbsorbKeepsFulltime(p: Progress, ctx: Context, events: seq<ProviderEvent>)
    ensures AbsorbAll(p, ctx, events).stages.fulltime == p.stages.fulltime
  {
    hide Event, Accepted, EnsureStagesBy;
    if |events| > 0 {
      var n := |events| - 1;
      AbsorbKeepsFulltime(p, ctx, events[..n]);
      StagesKeepFulltime(AbsorbAll(p, ctx, events[..n]), ctx, events[n].minute);
    }
  }

  lemma PlayKeepsFulltime(prior: Option<Checkpoint>, ctx: Context, emitScheduled: bool)
    ensures Played(prior, ctx, emitScheduled).stages.fulltime == PriorStages(prior).fulltime
  {
    hide Event, AbsorbAll, Chronological, EnsureStages;
    var begun := Opened(prior, ctx, emitScheduled);
    assert begun.stages.fulltime == PriorStages(prior).fulltime;
    hide Opened;
    AbsorbKeepsFulltime(begun, ctx, Chronological(ctx.observation.events));
    StagesKeepFulltime(AbsorbAll(begun, ctx, Chronological(ctx.observation.events)), ctx, 0);
  }

  lemma AlignKeepsFulltime(p: Progress, ctx: Context)
    ensures AlignScore(p, ctx).stages == p.stages
  {
    hide ScoreGoals;
    var counted := Counted(p, ctx);
    ScoreGoalsKeepIds(p, ctx, Home, counted.home, ctx.reported.home);
    ScoreGoalsKeepIds(ScoreGoals(p, ctx, Home, counted.home, ctx.reported.home), ctx, Away, counted.away, ctx.reported.away);
  }

  /** Full time is only put on record by a status that says so. */
  lemma FulltimeComesFromStatus(prior: Option<Checkpoint>, observation: Observation, emitScheduled: bool)
    ensures Diff(prior, observation, emitScheduled).checkpoint.stages.fulltime
            <==> PriorStages(prior).fulltime || FullTime(Start(prior, observation).status)
  {
    hide Start, Played, AlignScore, Event, PriorStages;
    var ctx := Start(prior, observation);
    PlayKeepsFulltime(prior, ctx, emitScheduled);
    AlignKeepsFulltime(Played(prior, ctx, emitScheduled), ctx);
  }
}
