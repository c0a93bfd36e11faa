/** What one snapshot adds to a fixture's history, as a function of checkpoint and snapshot. */
module FixtureDiff {
  import opened Common
  import opened MatchEvents
  import opened FixtureSnapshots

  /** Everything the diff fixes before it emits anything. */
  datatype Context = Context(
    observation: Observation,
    version: nat,
    stale: bool,
    status: StatusCode,
    minute: nat,
    known: Score,
    reported: Score)

  /** The running state of one diff: what its nested functions update. */
  datatype Progress = Progress(
    version: nat,
    score: Score,
    emitted: seq<MatchEvent>,
    stages: Stages,
    eventIds: set<nat>,
    goals: Score)

  function PriorStatus(prior: Option<Checkpoint>): StatusCode {
    if prior.Some? then prior.value.status else TBD
  }

  function PriorMinute(prior: Option<Checkpoint>): nat {
    if prior.Some? then prior.value.minute else 0
  }

  function PriorScore(prior: Option<Checkpoint>): Score {
    if prior.Some? then prior.value.score else Score(0, 0)
  }

  function PriorVersion(prior: Option<Checkpoint>): nat {
    if prior.Some? then prior.value.version else 0
  }

  function PriorStages(prior: Option<Checkpoint>): Stages {
    if prior.Some? then prior.value.stages else NoStages
  }

  function PriorIds(prior: Option<Checkpoint>): set<nat> {
    if prior.Some? then prior.value.eventIds else {}
  }

  function Start(prior: Option<Checkpoint>, observation: Observation): Context {
    var regressed := Rank(observation.status) < Rank(PriorStatus(prior));
    var stale := prior.Some? && (observation.minute < prior.value.minute || regressed);
    var known := PriorScore(prior);
    Context(
      observation,
      PriorVersion(prior),
      stale,
      if regressed then PriorStatus(prior) else observation.status,
      Max(PriorMinute(prior), observation.minute),
      known,
      if stale then known
      else Score(if observation.home.Some? then observation.home.value else known.home,
                 if observation.away.Some? then observation.away.value else known.away))
  }

  // ---------------------------------------------------------------- emitting one event

  function ResolvedScore(score: Score, kind: EventType, side: Option<Side>, fixed: Option<Score>): Score {
    if fixed.Some? then fixed.value
    else if kind.Goal? && side.Some? then score.Plus(side.value, 1)
    else score
  }

  function Event(p: Progress, ctx: Context, kind: EventType, identity: Identity, minute: nat,
                 side: Option<Side>, fixed: Option<Score>): MatchEvent {
    MatchEvent(kind, p.version + 1, identity, Min(130, minute), Some(Min(130, ctx.observation.minute)),
               side, ResolvedScore(p.score, kind, side, fixed))
  }

  function Emit(p: Progress, ctx: Context, kind: EventType, identity: Identity, minute: nat,
                side: Option<Side>, fixed: Option<Score>): Progress {
    var event := Event(p, ctx, kind, identity, minute, side, fixed);
    p.(version := event.version, score := event.score, emitted := p.emitted + [event])
  }

  // ---------------------------------------------------------------- lifecycle stages

  predicate HalftimeDue(status: StatusCode) {
    status.HT? || status.SecondHalfCode? || status.ET? || status.BT? || status.P? || FullTime(status)
  }

  predicate SecondHalfDue(status: StatusCode) {
    status.SecondHalfCode? || status.ET? || status.BT? || status.P? || FullTime(status)
  }

  predicate ExtraTimeDue(status: StatusCode) {
    status.ET? || status.BT? || status.P? || status.AET? || status.PEN?
  }

  predicate PenaltiesDue(status: StatusCode) {
    status.P? || status.PEN?
  }

  function EnsureHalftime(p: Progress, ctx: Context): Progress {
    if HalftimeDue(ctx.status) && !p.stages.halftime then
      var q := Emit(p, ctx, Halftime, HalftimeKey, 45, None, None);
      q.(stages := q.stages.(halftime := true))
    else p
  }

  function EnsureSecondHalf(p: Progress, ctx: Context): Progress {
    if SecondHalfDue(ctx.status) && !p.stages.secondHalf then
      var q := Emit(EnsureHalftime(p, ctx), ctx, SecondHalf, SecondHalfKey, 45, None, None);
      q.(stages := q.stages.(secondHalf := true))
    else p
  }

  function EnsureExtraTime(p: Progress, ctx: Context): Progress {
    if ExtraTimeDue(ctx.status) && !p.stages.extraTime then
      var q := Emit(EnsureSecondHalf(p, ctx), ctx, ExtraTime, ExtraTimeKey, 90, None, None);
      q.(stages := q.stages.(extraTime := true))
    else p
  }

  function EnsurePenalties(p: Progress, ctx: Context): Progress {
    if PenaltiesDue(ctx.status) && !p.stages.penalties then
      var q := Emit(EnsureExtraTime(p, ctx), ctx, Penalties, PenaltiesKey, 120, None, None);
      q.(stages := q.stages.(penalties := true))
    else p
  }

  function EnsureStages(p: Progress, ctx: Context): Progress {
    EnsurePenalties(EnsureExtraTime(EnsureSecondHalf(EnsureHalftime(p, ctx), ctx), ctx), ctx)
  }

  /** The stages that a provider event at this minute proves to have begun. */
  function EnsureStagesBy(p: Progress, ctx: Context, minute: nat): Progress {
    var p1 := if minute >= 45 then EnsureHalftime(p, ctx) else p;
    var p2 := if minute > 45 then EnsureSecondHalf(p1, ctx) else p1;
    var p3 := if minute >= 90 then EnsureExtraTime(p2, ctx) else p2;
    if minute >= 120 then EnsurePenalties(p3, ctx) else p3
  }

  // ---------------------------------------------------------------- provider events

  function Absorb(p: Progress, ctx: Context, event: ProviderEvent): Progress {
    var q := EnsureStagesBy(p, ctx, event.minute);
    if Accepted(event) && event.identity !in q.eventIds then
      var kind := Classify(event).value;
      var r := Emit(q, ctx, kind, ProviderKey(event.identity), event.minute, event.side, None);
      r.(eventIds := r.eventIds + {event.identity},
         goals := if kind.Goal? then r.goals.Plus(event.side.value, 1) else r.goals)
    else q
  }

  function AbsorbAll(p: Progress, ctx: Context, events: seq<ProviderEvent>): Progress {
    if |events| == 0 then p
    else Absorb(AbsorbAll(p, ctx, events[..|events| - 1]), ctx, events[|events| - 1])
  }

  // ---------------------------------------------------------------- closing the score

  /** Generic goals for the score numbers after `counted`, up to and including `reported`. */
  function ScoreGoals(p: Progress, ctx: Context, side: Side, counted: nat, reported: nat): Progress
    decreases reported - counted
  {
    if reported <= counted then p
    else
      Emit(ScoreGoals(p, ctx, side, counted, reported - 1), ctx, Goal,
           ScoreGoalKey(ctx.version, side, reported, ctx.minute), ctx.minute, Some(side), None)
  }

  /** Provider goals on top of the known score. */
  function Counted(p: Progress, ctx: Context): Score {
    Score(ctx.known.home + p.goals.home, ctx.known.away + p.goals.away)
  }

  /** The same, raised to the reported score where that is higher. */
  function Aligned(p: Progress, ctx: Context): Score {
    Score(Max(Counted(p, ctx).home, ctx.reported.home), Max(Counted(p, ctx).away, ctx.reported.away))
  }

  function AlignScore(p: Progress, ctx: Context): Progress {
    var counted := Counted(p, ctx);
    ScoreGoals(ScoreGoals(p, ctx, Home, counted.home, ctx.reported.home),
               ctx, Away, counted.away, ctx.reported.away)
  }

  function CorrectScore(p: Progress, ctx: Context): Progress {
    var aligned := Aligned(p, ctx);
    if ctx.reported != aligned then
      Emit(p, ctx, ScoreCorrected, CorrectionKey(ctx.version, aligned, ctx.reported), ctx.minute,
           None, Some(ctx.reported))
    else p
  }

  function EnsureFulltime(p: Progress, ctx: Context): Progress {
    if FullTime(ctx.status) && !p.stages.fulltime then
      var q := Emit(p, ctx, Fulltime, FulltimeKey, Max(90, ctx.minute), None, Some(ctx.reported));
      q.(stages := q.stages.(fulltime := true))
    else p
  }

  // ---------------------------------------------------------------- the whole diff

  function ScheduleChanged(prior: Option<Checkpoint>, observation: Observation): bool {
    prior.None? || prior.value.kickoff != observation.kickoff
  }

  function Begin(prior: Option<Checkpoint>): Progress {
    Progress(PriorVersion(prior), PriorScore(prior), [], PriorStages(prior), PriorIds(prior), Score(0, 0))
  }

  function Announce(p: Progress, ctx: Context, announce: bool): Progress {
    if announce then
      Emit(p, ctx, Scheduled, ScheduledKey(ctx.version, ctx.observation.kickoff), 0, None, None)
    else p
  }

  function EnsureKickoff(p: Progress, ctx: Context): Progress {
    if (InPlay(ctx.status) || FullTime(ctx.status)) && !p.stages.kickoff then
      var q := Emit(p, ctx, Kickoff, KickoffKey, 0, None, None);
      q.(stages := q.stages.(kickoff := true))
    else p
  }

  function Opened(prior: Option<Checkpoint>, ctx: Context, emitScheduled: bool): Progress {
    EnsureKickoff(
      Announce(Begin(prior), ctx, emitScheduled && ScheduleChanged(prior, ctx.observation)), ctx)
  }

  function Played(prior: Option<Checkpoint>, ctx: Context, emitScheduled: bool): Progress {
    EnsureStages(
      AbsorbAll(Opened(prior, ctx, emitScheduled), ctx, Chronological(ctx.observation.events)), ctx)
  }

  function Settled(prior: Option<Checkpoint>, ctx: Context, emitScheduled: bool): Progress {
    EnsureFulltime(CorrectScore(AlignScore(Played(prior, ctx, emitScheduled), ctx), ctx), ctx)
  }

  function Pending(prior: Option<Checkpoint>, ctx: Context): bool {
    !ctx.observation.finalVerification
    && ((prior.Some? && prior.value.pending)
        || (FullTime(ctx.status) && !PriorStages(prior).fulltime))
  }

  function Save(prior: Option<Checkpoint>, ctx: Context, emitScheduled: bool, p: Progress): Checkpoint {
    Checkpoint(
      ctx.observation.fixtureId,
      ctx.observation.kickoff,
      ctx.status,
      ctx.minute,
      ctx.reported,
      p.eventIds,
      (prior.Some? && prior.value.scheduledEmitted)
      || (emitScheduled && ScheduleChanged(prior, ctx.observation)),
      p.stages,
      Pending(prior, ctx),
      FullTime(ctx.status) || Cancelled(ctx.status),
      p.version,
      ctx.observation.observedAt)
  }

  datatype Outcome = Outcome(events: seq<MatchEvent>, checkpoint: Checkpoint)

  function Diff(prior: Option<Checkpoint>, observation: Observation, emitScheduled: bool): Outcome {
    var ctx := Start(prior, observation);
    var p := Settled(prior, ctx, emitScheduled);
    Outcome(p.emitted, Save(prior, ctx, emitScheduled, p))
  }
}
