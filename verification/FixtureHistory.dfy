/**
 The grammar of a fixture's event log, and the proof that every diff extends a log within it.

 A log is legal when each event is a legal successor of the events before it. Distinct identities,
 contiguous versions, lifecycle order and agreement with the reducer are all read off this grammar.
 */
module FixtureHistory {
  import opened Common
  import opened MatchEvents
  import opened MatchReducer
  import opened FixtureSnapshots
  import opened FixtureDiff

  ghost function Keys(log: seq<MatchEvent>): set<Identity> {
    set e | e in log :: e.identity
  }

  ghost function Kinds(log: seq<MatchEvent>): set<EventType> {
    set e | e in log :: e.kind
  }

  /** The checkpoint version quoted inside a key; zero where the key quotes none. */
  function KeyVersion(key: Identity): nat {
    match key
    case ScheduledKey(version, _) => version
    case ScoreGoalKey(version, _, _, _) => version
    case CorrectionKey(version, _, _) => version
    case _ => 0
  }

  /** Lifecycle kinds own exactly one key each; the other kinds own one key format or two. */
  predicate KeyFits(e: MatchEvent) {
    && !e.kind.Unrecognised?
    && (e.kind.Scheduled? <==> e.identity.ScheduledKey?)
    && (e.kind.ScoreCorrected? <==> e.identity.CorrectionKey?)
    && (e.identity.ScoreGoalKey? ==> e.kind.Goal?)
    && (e.kind.Kickoff? <==> e.identity.KickoffKey?)
    && (e.kind.Halftime? <==> e.identity.HalftimeKey?)
    && (e.kind.SecondHalf? <==> e.identity.SecondHalfKey?)
    && (e.kind.ExtraTime? <==> e.identity.ExtraTimeKey?)
    && (e.kind.Penalties? <==> e.identity.PenaltiesKey?)
    && (e.kind.Fulltime? <==> e.identity.FulltimeKey?)
  }

  function Prerequisites(kind: EventType): set<EventType> {
    match kind
    case Halftime => {Kickoff}
    case SecondHalf => {Kickoff, Halftime}
    case ExtraTime | Fulltime => {Kickoff, Halftime, SecondHalf}
    case Penalties => {Kickoff, Halftime, SecondHalf, ExtraTime}
    case _ => {}
  }

  function ProjectedScore(log: seq<MatchEvent>): Score {
    Before(Fold(log)).score
  }

  ghost predicate Extends(log: seq<MatchEvent>, e: MatchEvent) {
    && e.version == |log| + 1
    && e.identity !in Keys(log)
    && KeyVersion(e.identity) <= |log|
    && KeyFits(e)
    && Prerequisites(e.kind) <= Kinds(log)
    && (e.kind.Goal? ==> e.side.Some?)
    && (!Over(Fold(log)) ==> ProjectedScore(log + [e]) == e.score)
  }

  ghost predicate Legal(log: seq<MatchEvent>) {
    |log| == 0 || (Legal(log[..|log| - 1]) && Extends(log[..|log| - 1], log[|log| - 1]))
  }

  // ---------------------------------------------------------------- reading a legal log

  lemma KeysAppend(log: seq<MatchEvent>, e: MatchEvent)
    ensures Keys(log + [e]) == Keys(log) + {e.identity}
    ensures Kinds(log + [e]) == Kinds(log) + {e.kind}
  {
    assert forall x :: x in log + [e] <==> x in log || x == e;
  }

  lemma LegalAppend(log: seq<MatchEvent>, e: MatchEvent)
    requires Legal(log) && Extends(log, e)
    ensures Legal(log + [e])
  {
    assert (log + [e])[..|log|] == log;
  }

  lemma {:induction false} LegalAt(log: seq<MatchEvent>, i: nat)
    requires Legal(log) && i < |log|
    ensures Legal(log[..i]) && Extends(log[..i], log[i])
  {
    var n := |log| - 1;
    if i < n {
      LegalAt(log[..n], i);
      assert log[..n][..i] == log[..i];
    }
  }

  lemma {:induction false} LegalFold(log: seq<MatchEvent>)
    requires Legal(log)
    ensures Fold(log).Some? <==> |log| > 0
    ensures Fold(log).Some? ==> Fold(log).value.version <= |log|
    ensures Over(Fold(log)) <==> Fulltime in Kinds(log)
  {
    if |log| > 0 {
      var n := |log| - 1;
      LegalFold(log[..n]);
      assert log == log[..n] + [log[n]];
      KeysAppend(log[..n], log[n]);
    }
  }

  lemma LegalKeys(log: seq<MatchEvent>)
    requires Legal(log)
    ensures forall e :: e in log ==> KeyFits(e) && KeyVersion(e.identity) <= |log| - 1
  {
    forall e | e in log ensures KeyFits(e) && KeyVersion(e.identity) <= |log| - 1 {
      var i :| 0 <= i < |log| && log[i] == e;
      LegalAt(log, i);
    }
  }

  /** In a legal log every kind stands after all its prerequisites, so it never stands without them. */
  lemma KindsAreClosed(log: seq<MatchEvent>, kind: EventType)
    requires Legal(log) && kind in Kinds(log)
    ensures Prerequisites(kind) <= Kinds(log)
  {
    var i :| 0 <= i < |log| && log[i].kind == kind;
    LegalAt(log, i);
    forall k | k in Kinds(log[..i]) ensures k in Kinds(log) {}
  }

  // ---------------------------------------------------------------- log and checkpoint in step

  ghost predicate StagesMatch(log: seq<MatchEvent>, stages: Stages) {
    && (Kickoff in Kinds(log) <==> stages.kickoff)
    && (Halftime in Kinds(log) <==> stages.halftime)
    && (SecondHalf in Kinds(log) <==> stages.secondHalf)
    && (ExtraTime in Kinds(log) <==> stages.extraTime)
    && (Penalties in Kinds(log) <==> stages.penalties)
    && (Fulltime in Kinds(log) <==> stages.fulltime)
  }

  ghost predicate IdsMatch(log: seq<MatchEvent>, ids: set<nat>) {
    forall id :: ProviderKey(id) in Keys(log) <==> id in ids
  }

  /** Equal scores until the final whistle; afterwards the projection may only lag behind. */
  predicate Agrees(log: seq<MatchEvent>, score: Score) {
    if Over(Fold(log)) then ProjectedScore(log).AtMost(score) else ProjectedScore(log) == score
  }

  ghost predicate Tracks(log: seq<MatchEvent>, version: nat, score: Score, stages: Stages, ids: set<nat>) {
    && Legal(log)
    && version == |log|
    && Agrees(log, score)
    && StagesMatch(log, stages)
    && IdsMatch(log, ids)
  }

  /** `past` is the log before this diff; `p` is the diff under way. */
  ghost predicate InStep(past: seq<MatchEvent>, p: Progress) {
    Tracks(past + p.emitted, p.version, p.score, p.stages, p.eventIds)
  }

  /** The payload score follows from the running score the way the reducer's score does. */
  predicate ScoreFollows(score: Score, e: MatchEvent) {
    match e.kind
    case ScoreCorrected => true
    case Goal => e.side.Some? && e.score == score.Plus(e.side.value, 1)
    case _ => e.score == score
  }

  lemma AgreesAppend(log: seq<MatchEvent>, score: Score, e: MatchEvent)
    requires Legal(log) && Agrees(log, score)
    requires e.version == |log| + 1 && ScoreFollows(score, e)
    ensures Agrees(log + [e], e.score)
    ensures !Over(Fold(log)) ==> ProjectedScore(log + [e]) == e.score
  {
    LegalFold(log);
    FoldAppend(log, e);
  }

  lemma ExtendsAppend(log: seq<MatchEvent>, score: Score, e: MatchEvent)
    requires Legal(log) && Agrees(log, score) && ScoreFollows(score, e)
    requires e.version == |log| + 1 && KeyFits(e) && Prerequisites(e.kind) <= Kinds(log)
    requires e.identity !in Keys(log) && KeyVersion(e.identity) <= |log|
    ensures Legal(log + [e]) && Agrees(log + [e], e.score)
  {
    AgreesAppend(log, score, e);
    LegalAppend(log, e);
  }

  lemma EmitInStep(past: seq<MatchEvent>, p: Progress, ctx: Context, kind: EventType, key: Identity,
                   minute: nat, side: Option<Side>, fixed: Option<Score>)
    requires InStep(past, p)
    requires key !in Keys(past + p.emitted) && KeyVersion(key) <= |past + p.emitted|
    requires KeyFits(Event(p, ctx, kind, key, minute, side, fixed))
    requires Prerequisites(kind) <= Kinds(past + p.emitted)
    requires kind.Goal? ==> side.Some?
    requires fixed.Some? ==> kind.ScoreCorrected? || (kind.Fulltime? && fixed == Some(p.score))
    requires kind.ScoreCorrected? ==> fixed.Some?
    ensures
      var q := Emit(p, ctx, kind, key, minute, side, fixed);
      var log := past + q.emitted;
      && Legal(log) && q.version == |log| && Agrees(log, q.score)
      && Keys(log) == Keys(past + p.emitted) + {key}
      && Kinds(log) == Kinds(past + p.emitted) + {kind}
      && Kinds(q.emitted) == Kinds(p.emitted) + {kind}
  {
    var q := Emit(p, ctx, kind, key, minute, side, fixed);
    var log := past + p.emitted;
    var e := Event(p, ctx, kind, key, minute, side, fixed);
    assert past + q.emitted == log + [e];
    KeysAppend(log, e);
    KeysAppend(p.emitted, e);
    ExtendsAppend(log, p.score, e);
  }

  lemma FreshKeys(past: seq<MatchEvent>, p: Progress)
    requires InStep(past, p)
    ensures var keys := Keys(past + p.emitted);
      && (KickoffKey in keys <==> p.stages.kickoff)
      && (HalftimeKey in keys <==> p.stages.halftime)
      && (SecondHalfKey in keys <==> p.stages.secondHalf)
      && (ExtraTimeKey in keys <==> p.stages.extraTime)
      && (PenaltiesKey in keys <==> p.stages.penalties)
      && (FulltimeKey in keys <==> p.stages.fulltime)
  {
    var log := past + p.emitted;
    LegalKeys(log);
    forall kind | kind in Kinds(log) ensures exists e :: e in log && e.kind == kind {}
    forall key | key in Keys(log) ensures exists e :: e in log && e.identity == key {}
  }

  /** Keys that only the closing part of a diff produces. */
  predicate Opening(events: seq<MatchEvent>) {
    forall e :: e in events ==>
      !e.identity.ScoreGoalKey? && !e.identity.CorrectionKey? && !e.identity.FulltimeKey?
  }

  /** Until the score is corrected it leaves the known one exactly when a goal is emitted. */
  ghost predicate GoalsShow(ctx: Context, p: Progress) {
    ctx.known.AtMost(p.score) && (Goal in Kinds(p.emitted) <==> p.score != ctx.known)
  }

  /** What holds from the first emitted event until the score is closed. */
  ghost predicate Running(past: seq<MatchEvent>, ctx: Context, p: Progress) {
    && InStep(past, p)
    && ctx.version == |past|
    && p.score == Counted(p, ctx)
    && Opening(p.emitted)
    && GoalsShow(ctx, p)
  }

  /** The stage record once `kind` has been emitted. */
  function WithStage(stages: Stages, kind: EventType): Stages {
    match kind
    case Kickoff => stages.(kickoff := true)
    case Halftime => stages.(halftime := true)
    case SecondHalf => stages.(secondHalf := true)
    case ExtraTime => stages.(extraTime := true)
    case Penalties => stages.(penalties := true)
    case Fulltime => stages.(fulltime := true)
    case _ => stages
  }

  lemma StagesAppend(log: seq<MatchEvent>, longer: seq<MatchEvent>, stages: Stages, kind: EventType)
    requires Kinds(longer) == Kinds(log) + {kind} && StagesMatch(log, stages)
    ensures StagesMatch(longer, WithStage(stages, kind))
  {
  }

  /** Emitting anything that keeps the score keeps the diff running. */
  lemma EmitRuns(past: seq<MatchEvent>, ctx: Context, p: Progress, kind: EventType, key: Identity, minute: nat)
    requires Running(past, ctx, p)
    requires !kind.Goal? && !kind.ScoreCorrected?
    requires !key.ProviderKey? && !key.ScoreGoalKey? && !key.CorrectionKey? && !key.FulltimeKey?
    requires key !in Keys(past + p.emitted) && KeyVersion(key) <= |past + p.emitted|
    requires KeyFits(Event(p, ctx, kind, key, minute, None, None))
    requires Prerequisites(kind) <= Kinds(past + p.emitted)
    ensures var q := Emit(p, ctx, kind, key, minute, None, None);
      Running(past, ctx, q.(stages := WithStage(p.stages, kind)))
  {
    hide Legal, Fold, Agrees;
    EmitInStep(past, p, ctx, kind, key, minute, None, None);
    var q := Emit(p, ctx, kind, key, minute, None, None);
    StagesAppend(past + p.emitted, past + q.emitted, p.stages, kind);
  }

  // ---------------------------------------------------------------- stages

  /** Running, with the kickoff on record for any status that needs one. */
  ghost predicate Ready(past: seq<MatchEvent>, ctx: Context, p: Progress) {
    Running(past, ctx, p) && (InPlay(ctx.status) || FullTime(ctx.status) ==> p.stages.kickoff)
  }

  lemma AnnounceRuns(past: seq<MatchEvent>, ctx: Context, p: Progress, announce: bool)
    requires Running(past, ctx, p) && p.emitted == []
    ensures Running(past, ctx, Announce(p, ctx, announce))
  {
    assert past + p.emitted == past;
    if announce {
      LegalKeys(past);
      EmitRuns(past, ctx, p, Scheduled, ScheduledKey(ctx.version, ctx.observation.kickoff), 0);
    }
  }

  lemma EnsureKickoffRuns(past: seq<MatchEvent>, ctx: Context, p: Progress)
    requires Running(past, ctx, p)
    ensures Ready(past, ctx, EnsureKickoff(p, ctx))
  {
    hide Legal, Fold, Agrees, Keys, Kinds;
    if (InPlay(ctx.status) || FullTime(ctx.status)) && !p.stages.kickoff {
      FreshKeys(past, p);
      EmitRuns(past, ctx, p, Kickoff, KickoffKey, 0);
    }
  }

  lemma EnsureHalftimeRuns(past: seq<MatchEvent>, ctx: Context, p: Progress)
    requires Ready(past, ctx, p)
    ensures var q := EnsureHalftime(p, ctx);
      Ready(past, ctx, q) && (HalftimeDue(ctx.status) ==> q.stages.halftime)
  {
    hide Legal, Fold, Agrees, Keys, Kinds;
    if HalftimeDue(ctx.status) && !p.stages.halftime {
      FreshKeys(past, p);
      EmitRuns(past, ctx, p, Halftime, HalftimeKey, 45);
    }
  }

  lemma EnsureSecondHalfRuns(past: seq<MatchEvent>, ctx: Context, p: Progress)
    requires Ready(past, ctx, p)
    ensures var q := EnsureSecondHalf(p, ctx);
      Ready(past, ctx, q) && (SecondHalfDue(ctx.status) ==> q.stages.secondHalf)
  {
    hide Legal, Fold, Agrees, Keys, Kinds;
    if SecondHalfDue(ctx.status) && !p.stages.secondHalf {
      var q := EnsureHalftime(p, ctx);
      EnsureHalftimeRuns(past, ctx, p);
      FreshKeys(past, q);
      EmitRuns(past, ctx, q, SecondHalf, SecondHalfKey, 45);
    }
  }

  lemma EnsureExtraTimeRuns(past: seq<MatchEvent>, ctx: Context, p: Progress)
    requires Ready(past, ctx, p)
    ensures var q := EnsureExtraTime(p, ctx);
      Ready(past, ctx, q) && (ExtraTimeDue(ctx.status) ==> q.stages.extraTime)
  {
    hide Legal, Fold, Agrees, Keys, Kinds;
    if ExtraTimeDue(ctx.status) && !p.stages.extraTime {
      var q := EnsureSecondHalf(p, ctx);
      EnsureSecondHalfRuns(past, ctx, p);
      FreshKeys(past, q);
      KindsAreClosed(past + q.emitted, SecondHalf);
      EmitRuns(past, ctx, q, ExtraTime, ExtraTimeKey, 90);
    }
  }

  lemma EnsurePenaltiesRuns(past: seq<MatchEvent>, ctx: Context, p: Progress)
    requires Ready(past, ctx, p)
    ensures Ready(past, ctx, EnsurePenalties(p, ctx))
  {
    hide Legal, Fold, Agrees, Keys, Kinds;
    if PenaltiesDue(ctx.status) && !p.stages.penalties {
      var q := EnsureExtraTime(p, ctx);
      EnsureExtraTimeRuns(past, ctx, p);
      FreshKeys(past, q);
      KindsAreClosed(past + q.emitted, ExtraTime);
      EmitRuns(past, ctx, q, Penalties, PenaltiesKey, 120);
    }
  }

  lemma EnsureStagesRuns(past: seq<MatchEvent>, ctx: Context, p: Progress)
    requires Ready(past, ctx, p)
    ensures Ready(past, ctx, EnsureStages(p, ctx))
    ensures SecondHalfDue(ctx.status) ==> EnsureStages(p, ctx).stages.secondHalf
  {
    hide Ready;
    var p1 := EnsureHalftime(p, ctx);
    var p2 := EnsureSecondHalf(p1, ctx);
    var p3 := EnsureExtraTime(p2, ctx);
    EnsureHalftimeRuns(past, ctx, p);
    EnsureSecondHalfRuns(past, ctx, p1);
    EnsureExtraTimeRuns(past, ctx, p2);
    EnsurePenaltiesRuns(past, ctx, p3);
  }

  lemma EnsureStagesByRuns(past: seq<MatchEvent>, ctx: Context, p: Progress, minute: nat)
    requires Ready(past, ctx, p)
    ensures Ready(past, ctx, EnsureStagesBy(p, ctx, minute))
  {
    hide Ready;
    var p1 := if minute >= 45 then EnsureHalftime(p, ctx) else p;
    var p2 := if minute > 45 then EnsureSecondHalf(p1, ctx) else p1;
    var p3 := if minute >= 90 then EnsureExtraTime(p2, ctx) else p2;
    if minute >= 45 { EnsureHalftimeRuns(past, ctx, p); }
    if minute > 45 { EnsureSecondHalfRuns(past, ctx, p1); }
    if minute >= 90 { EnsureExtraTimeRuns(past, ctx, p2); }
    if minute >= 120 { EnsurePenaltiesRuns(past, ctx, p3); }
  }

  // ---------------------------------------------------------------- provider events

  lemma AbsorbRuns(past: seq<MatchEvent>, ctx: Context, p: Progress, event: ProviderEvent)
    requires Ready(past, ctx, p)
    ensures Ready(past, ctx, Absorb(p, ctx, event))
  {
    hide Ready, EnsureStagesBy, Emit;
    EnsureStagesByRuns(past, ctx, p, event.minute);
    var q := EnsureStagesBy(p, ctx, event.minute);
    if Accepted(event) && event.identity !in q.eventIds { AcceptedRuns(past, ctx, q, event); }
  }

  lemma AcceptedRuns(past: seq<MatchEvent>, ctx: Context, q: Progress, event: ProviderEvent)
    requires Ready(past, ctx, q) && Accepted(event) && event.identity !in q.eventIds
    ensures var kind := Classify(event).value;
      var r := Emit(q, ctx, kind, ProviderKey(event.identity), event.minute, event.side, None);
      Ready(past, ctx, r.(eventIds := r.eventIds + {event.identity},
                          goals := if kind.Goal? && event.side.Some? then r.goals.Plus(event.side.value, 1) else r.goals))
  {
    hide Legal, Fold, Agrees, Keys, Kinds;
    var kind := Classify(event).value;
    var key := ProviderKey(event.identity);
    EmitInStep(past, q, ctx, kind, key, event.minute, event.side, None);
    var r := Emit(q, ctx, kind, key, event.minute, event.side, None);
    StagesAppend(past + q.emitted, past + r.emitted, q.stages, kind);
  }

  lemma {:induction false} AbsorbAllRuns(past: seq<MatchEvent>, ctx: Context, p: Progress, events: seq<ProviderEvent>)
    requires Ready(past, ctx, p)
    ensures Ready(past, ctx, AbsorbAll(p, ctx, events))
  {
    hide Ready, Absorb;
    if |events| > 0 {
      AbsorbAllRuns(past, ctx, p, events[..|events| - 1]);
      AbsorbRuns(past, ctx, AbsorbAll(p, ctx, events[..|events| - 1]), events[|events| - 1]);
    }
  }

  // ---------------------------------------------------------------- closing the score

  /** Score numbers already used by generic goals of one side in this diff. */
  predicate NumbersUpTo(events: seq<MatchEvent>, side: Side, number: nat) {
    forall e :: e in events && e.identity.ScoreGoalKey? && e.identity.side == side ==> e.identity.number <= number
  }

  predicate Uncorrected(events: seq<MatchEvent>) {
    forall e :: e in events ==> !e.identity.CorrectionKey?
  }

  predicate Unfinished(events: seq<MatchEvent>) {
    forall e :: e in events ==> !e.identity.FulltimeKey?
  }

  ghost predicate Closing(past: seq<MatchEvent>, ctx: Context, p: Progress) {
    InStep(past, p) && Legal(past) && ctx.version == |past| && Uncorrected(p.emitted)
    && Unfinished(p.emitted) && GoalsShow(ctx, p)
  }

  lemma NewKey(past: seq<MatchEvent>, p: Progress, key: Identity)
    requires Legal(past) && KeyVersion(key) == |past| && (key.ScoreGoalKey? || key.CorrectionKey?)
    requires forall e :: e in p.emitted ==> e.identity != key
    ensures key !in Keys(past + p.emitted)
  {
    LegalKeys(past);
    assert forall e :: e in past + p.emitted ==> e in past || e in p.emitted;
  }

  lemma ScoreGoalRuns(past: seq<MatchEvent>, ctx: Context, p: Progress, side: Side, number: nat)
    requires Closing(past, ctx, p) && number > 0 && NumbersUpTo(p.emitted, side, number - 1)
    ensures var q := Emit(p, ctx, Goal, ScoreGoalKey(ctx.version, side, number, ctx.minute), ctx.minute, Some(side), None);
      Closing(past, ctx, q) && NumbersUpTo(q.emitted, side, number)
  {
    hide Legal, Fold, Agrees, Keys, Kinds;
    var key := ScoreGoalKey(ctx.version, side, number, ctx.minute);
    NewKey(past, p, key);
    EmitInStep(past, p, ctx, Goal, key, ctx.minute, Some(side), None);
    var q := Emit(p, ctx, Goal, key, ctx.minute, Some(side), None);
    StagesAppend(past + p.emitted, past + q.emitted, p.stages, Goal);
  }

  lemma {:induction false} ScoreGoalsRun(past: seq<MatchEvent>, ctx: Context, p: Progress, side: Side,
                                         counted: nat, reported: nat)
    requires Closing(past, ctx, p) && NumbersUpTo(p.emitted, side, counted)
    ensures var q := ScoreGoals(p, ctx, side, counted, reported);
      && Closing(past, ctx, q)
      && NumbersUpTo(q.emitted, side, Max(counted, reported))
      && q.score == p.score.Plus(side, Max(counted, reported) - counted)
      && q == q.(eventIds := p.eventIds, stages := p.stages, goals := p.goals)
    ensures forall other, n ::
      other != side && NumbersUpTo(p.emitted, other, n)
      ==> NumbersUpTo(ScoreGoals(p, ctx, side, counted, reported).emitted, other, n)
    decreases reported - counted
  {
    hide Closing;
    if reported > counted {
      ScoreGoalsRun(past, ctx, p, side, counted, reported - 1);
      ScoreGoalRuns(past, ctx, ScoreGoals(p, ctx, side, counted, reported - 1), side, reported);
    }
  }

  lemma ReadyToScore(past: seq<MatchEvent>, ctx: Context, p: Progress)
    requires Ready(past, ctx, p) && Legal(past)
    ensures Closing(past, ctx, p) && p.score == Counted(p, ctx)
    ensures NumbersUpTo(p.emitted, Home, Counted(p, ctx).home) && NumbersUpTo(p.emitted, Away, Counted(p, ctx).away)
  {
  }

  lemma AlignScoreRuns(past: seq<MatchEvent>, ctx: Context, p: Progress)
    requires Ready(past, ctx, p) && Legal(past)
    ensures var q := AlignScore(p, ctx);
      && Closing(past, ctx, q)
      && q.score == Aligned(p, ctx)
      && q == q.(eventIds := p.eventIds, stages := p.stages, goals := p.goals)
  {
    hide Closing, Ready, Legal, NumbersUpTo, ScoreGoals;
    var counted := Counted(p, ctx);
    ReadyToScore(past, ctx, p);
    ScoreGoalsRun(past, ctx, p, Home, counted.home, ctx.reported.home);
    var q := ScoreGoals(p, ctx, Home, counted.home, ctx.reported.home);
    ScoreGoalsRun(past, ctx, q, Away, counted.away, ctx.reported.away);
  }

  lemma CorrectScoreRuns(past: seq<MatchEvent>, ctx: Context, p: Progress)
    requires Closing(past, ctx, p) && p.score == Aligned(p, ctx)
    ensures var q := CorrectScore(p, ctx);
      InStep(past, q) && q.score == ctx.reported && q.stages == p.stages && Unfinished(q.emitted)
  {
    hide Legal, Fold, Agrees, Keys, Kinds;
    var aligned := Aligned(p, ctx);
    if ctx.reported != aligned {
      var key := CorrectionKey(ctx.version, aligned, ctx.reported);
      NewKey(past, p, key);
      EmitInStep(past, p, ctx, ScoreCorrected, key, ctx.minute, None, Some(ctx.reported));
      var q := CorrectScore(p, ctx);
      StagesAppend(past + p.emitted, past + q.emitted, p.stages, ScoreCorrected);
    }
  }

  lemma EnsureFulltimeRuns(past: seq<MatchEvent>, ctx: Context, p: Progress)
    requires InStep(past, p) && p.score == ctx.reported
    requires SecondHalfDue(ctx.status) ==> p.stages.secondHalf
    ensures var q := EnsureFulltime(p, ctx);
      InStep(past, q) && q.score == ctx.reported && (FullTime(ctx.status) ==> q.stages.fulltime)
  {
    hide Legal, Fold, Agrees, Keys, Kinds;
    if FullTime(ctx.status) && !p.stages.fulltime {
      FreshKeys(past, p);
      KindsAreClosed(past + p.emitted, SecondHalf);
      EmitInStep(past, p, ctx, Fulltime, FulltimeKey, Max(90, ctx.minute), None, Some(ctx.reported));
      var q := EnsureFulltime(p, ctx);
      StagesAppend(past + p.emitted, past + q.emitted, p.stages, Fulltime);
    }
  }

  // ---------------------------------------------------------------- one observation

  /** A stored checkpoint is a faithful summary of the log emitted so far. */
  ghost predicate Faithful(log: seq<MatchEvent>, checkpoint: Option<Checkpoint>) {
    if checkpoint.None? then log == []
    else
      var c := checkpoint.value;
      && Tracks(log, c.version, c.score, c.stages, c.eventIds)
      && (c.terminal <==> Rank(c.status) == 5)
      && (FullTime(c.status) ==> c.stages.fulltime)
      && (c.pending ==> c.stages.fulltime)
  }

  lemma BeginInStep(past: seq<MatchEvent>, prior: Option<Checkpoint>, observation: Observation)
    requires Faithful(past, prior)
    ensures Legal(past) && Running(past, Start(prior, observation), Begin(prior))
  {
    assert past + Begin(prior).emitted == past;
  }

  /** Everything before the score is corrected. */
  function Scored(prior: Option<Checkpoint>, ctx: Context, emitScheduled: bool): Progress {
    AlignScore(Played(prior, ctx, emitScheduled), ctx)
  }

  lemma ScoredCloses(past: seq<MatchEvent>, prior: Option<Checkpoint>, ctx: Context, emitScheduled: bool)
    requires Legal(past) && Running(past, ctx, Begin(prior))
    ensures var p := Scored(prior, ctx, emitScheduled);
      && Closing(past, ctx, p)
      && p.score == Aligned(p, ctx)
      && p.goals == Played(prior, ctx, emitScheduled).goals
      && (SecondHalfDue(ctx.status) ==> p.stages.secondHalf)
  {
    hide Legal, Running, Ready, InStep, Closing, Diff, Start;
    var begun := Begin(prior);
    var announce := emitScheduled && ScheduleChanged(prior, ctx.observation);
    AnnounceRuns(past, ctx, begun, announce);
    EnsureKickoffRuns(past, ctx, Announce(begun, ctx, announce));
    var start := Opened(prior, ctx, emitScheduled);
    var events := Chronological(ctx.observation.events);
    AbsorbAllRuns(past, ctx, start, events);
    EnsureStagesRuns(past, ctx, AbsorbAll(start, ctx, events));
    AlignScoreRuns(past, ctx, Played(prior, ctx, emitScheduled));
  }

  lemma SettledInStep(past: seq<MatchEvent>, prior: Option<Checkpoint>, ctx: Context, emitScheduled: bool)
    requires Legal(past) && Running(past, ctx, Begin(prior))
    ensures var p := Settled(prior, ctx, emitScheduled);
      InStep(past, p) && p.score == ctx.reported && (FullTime(ctx.status) ==> p.stages.fulltime)
  {
    hide Legal, Running, Ready, InStep, Closing, Diff, Start;
    ScoredCloses(past, prior, ctx, emitScheduled);
    var p := Scored(prior, ctx, emitScheduled);
    CorrectScoreRuns(past, ctx, p);
    EnsureFulltimeRuns(past, ctx, CorrectScore(p, ctx));
  }

  lemma FulltimeStands(past: seq<MatchEvent>, prior: Option<Checkpoint>, p: Progress)
    requires Faithful(past, prior) && InStep(past, p) && PriorStages(prior).fulltime
    ensures p.stages.fulltime
  {
    var e :| e in past && e.kind == Fulltime;
    assert e in past + p.emitted;
  }

  lemma TerminalRank(status: StatusCode)
    ensures FullTime(status) || Cancelled(status) <==> Rank(status) == 5
  {
  }

  /** Diffing against a faithful checkpoint extends the log legally and leaves a faithful checkpoint. */
  lemma DiffKeepsFaith(past: seq<MatchEvent>, prior: Option<Checkpoint>, observation: Observation, emitScheduled: bool)
    requires Faithful(past, prior)
    ensures var result := Diff(prior, observation, emitScheduled);
      Faithful(past + result.events, Some(result.checkpoint))
  {
    var ctx := Start(prior, observation);
    BeginInStep(past, prior, observation);
    SettledInStep(past, prior, ctx, emitScheduled);
    var p := Settled(prior, ctx, emitScheduled);
    if PriorStages(prior).fulltime { FulltimeStands(past, prior, p); }
    TerminalRank(ctx.status);
    hide Tracks, Settled, Rank, Start;
  }
}
