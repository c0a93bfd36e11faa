/**
 One diff told from outside: which events it emits, with which fields, in which order, and what the
 checkpoint says of them, for any checkpoint and any snapshot. The main results speak of fields and
 statuses, not of the steps of the diff.
 */
module FixtureOutcome {
  import opened Common
  import opened MatchEvents
  import opened FixtureSnapshots
  import opened FixtureDiff
  import opened FixtureHistory
  import opened FixtureRuns
  import opened FixtureCheckpoints
  import opened FixtureCourse
  import FixtureStatus

  // ---------------------------------------------------------------- what a snapshot tells

  predicate PlayHasBegun(status: StatusCode) {
    || status.FirstHalfCode? || status.LIVE? || FirstHalfIsOver(status)
  }

  predicate FirstHalfIsOver(status: StatusCode) {
    status.HT? || SecondHalfHasBegun(status)
  }

  predicate SecondHalfHasBegun(status: StatusCode) {
    status.SecondHalfCode? || status.FT? || ExtraTimeHasBegun(status)
  }

  predicate ExtraTimeHasBegun(status: StatusCode) {
    status.ET? || status.BT? || status.AET? || PenaltiesHaveBegun(status)
  }

  predicate PenaltiesHaveBegun(status: StatusCode) {
    status.P? || status.PEN?
  }

  predicate PlayIsOver(status: StatusCode) {
    status.FT? || status.AET? || status.PEN?
  }

  /** The provider event makes a canonical event of this kind. */
  predicate Tells(x: ProviderEvent, kind: EventType) {
    match kind
    case Goal =>
      x.kind.GoalKind? && x.side.Some?
      && Disallowed !in x.detail && MissedPenalty !in x.detail && GoalCancelled !in x.detail
    case RedCard =>
      x.kind.CardKind? && x.side.Some?
      && (SecondYellow in x.detail || RedCardText in x.detail || StraightRed in x.detail)
    case YellowCard =>
      x.kind.CardKind? && x.side.Some? && Yellow in x.detail
      && SecondYellow !in x.detail && RedCardText !in x.detail && StraightRed !in x.detail
    case Substitution => x.kind.SubstitutionKind?
    case _ => false
  }

  predicate TellsSomething(x: ProviderEvent) {
    Tells(x, Goal) || Tells(x, RedCard) || Tells(x, YellowCard) || Tells(x, Substitution)
  }

  lemma AcceptedTells(x: ProviderEvent)
    ensures Accepted(x) <==> TellsSomething(x)
    ensures Accepted(x) ==> Tells(x, Classify(x).value)
  {
    var void := {Disallowed, MissedPenalty, GoalCancelled};
    if Disallowed in x.detail { assert Disallowed in x.detail * void; }
    if MissedPenalty in x.detail { assert MissedPenalty in x.detail * void; }
    if GoalCancelled in x.detail { assert GoalCancelled in x.detail * void; }
    var red := {SecondYellow, RedCardText, StraightRed};
    if SecondYellow in x.detail { assert SecondYellow in x.detail * red; }
    if RedCardText in x.detail { assert RedCardText in x.detail * red; }
    if StraightRed in x.detail { assert StraightRed in x.detail * red; }
  }

  // ---------------------------------------------------------------- the fields of an event

  /** What the event says follows from its key, the checkpoints before and after, and the snapshot. */
  ghost predicate Fits(base: Checkpoint, observation: Observation, minute: nat, score: Score, e: MatchEvent) {
    && e.currentMinute == Some(Min(130, observation.minute))
    && match e.identity
       case ScheduledKey(version, kickoff) =>
         e.kind.Scheduled? && e.minute == 0 && e.side.None? && version == base.version && kickoff == observation.kickoff
       case KickoffKey => e.kind.Kickoff? && e.minute == 0 && e.side.None?
       case HalftimeKey => e.kind.Halftime? && e.minute == 45 && e.side.None?
       case SecondHalfKey => e.kind.SecondHalf? && e.minute == 45 && e.side.None?
       case ExtraTimeKey => e.kind.ExtraTime? && e.minute == 90 && e.side.None?
       case PenaltiesKey => e.kind.Penalties? && e.minute == 120 && e.side.None?
       case ProviderKey(id) => exists x :: x in observation.events && Retells(e, x)
       case ScoreGoalKey(version, side, _, at) =>
         e.kind.Goal? && e.side == Some(side) && version == base.version && at == minute && e.minute == Min(130, minute)
       case CorrectionKey(version, _, reported) =>
         e.kind.ScoreCorrected? && e.side.None? && version == base.version && reported == score == e.score
         && e.minute == Min(130, minute)
       case FulltimeKey =>
         e.kind.Fulltime? && e.side.None? && e.score == score && e.minute == Min(130, if minute < 90 then 90 else minute)
  }

  predicate Retells(e: MatchEvent, x: ProviderEvent) {
    e.identity == ProviderKey(x.identity) && Tells(x, e.kind) && e.side == x.side && e.minute == Min(130, x.minute)
  }

  // ---------------------------------------------------------------- the order of events

  /** Announcement and kickoff come first. */
  predicate Opens(e: MatchEvent) {
    e.identity.ScheduledKey? || e.identity.KickoffKey?
  }

  predicate ToldBy(e: MatchEvent, minute: nat) {
    e.identity.ProviderKey? && e.minute < minute
  }

  /**
   Provider events by minute, each stage before the first provider event that proves it, then the generic
   goals of the home side and of the away side, the correction, and full time.
   */
  predicate MayPrecede(a: MatchEvent, b: MatchEvent) {
    match b.identity
    case ScheduledKey(_, _) => false
    case KickoffKey => a.identity.ScheduledKey?
    case HalftimeKey => Opens(a) || ToldBy(a, 45)
    case SecondHalfKey => Opens(a) || ToldBy(a, 46) || a.identity.HalftimeKey?
    case ExtraTimeKey => Opens(a) || ToldBy(a, 90) || a.identity.HalftimeKey? || a.identity.SecondHalfKey?
    case PenaltiesKey =>
      Opens(a) || ToldBy(a, 120) || a.identity.HalftimeKey? || a.identity.SecondHalfKey? || a.identity.ExtraTimeKey?
    case ProviderKey(id) =>
      (match a.identity
       case ScheduledKey(_, _) | KickoffKey => true
       case HalftimeKey => b.minute >= 45
       case SecondHalfKey => b.minute > 45
       case ExtraTimeKey => b.minute >= 90
       case PenaltiesKey => b.minute >= 120
       case ProviderKey(earlier) => a.minute < b.minute || (a.minute == b.minute && (earlier < id || a.minute == 130))
       case _ => false)
    case ScoreGoalKey(_, side, number, _) =>
      && !a.identity.CorrectionKey? && !a.identity.FulltimeKey?
      && (a.identity.ScoreGoalKey? ==>
            (a.identity.side.Home? && side.Away?) || (a.identity.side == side && a.identity.number < number))
    case CorrectionKey(_, _, _) => !a.identity.CorrectionKey? && !a.identity.FulltimeKey?
    case FulltimeKey => !a.identity.FulltimeKey?
  }

  predicate InTurn(events: seq<MatchEvent>) {
    forall i, j :: 0 <= i < j < |events| ==> MayPrecede(events[i], events[j])
  }

  /** Versions count on from the checkpoint, and each payload carries the score so far. */
  predicate Counts(base: Checkpoint, events: seq<MatchEvent>) {
    forall i :: 0 <= i < |events| ==> CountsAt(base, events, i)
  }

  predicate CountsAt(base: Checkpoint, events: seq<MatchEvent>, i: nat)
    requires i < |events|
  {
    && events[i].version == base.version + i + 1
    && (events[i].kind.ScoreCorrected? || events[i].kind.Fulltime?
        || Carries(if i == 0 then base.score else events[i - 1].score, events[i]))
  }

  predicate Carries(score: Score, e: MatchEvent) {
    if e.kind.Goal? && e.side == Some(Home) then e.score == Score(score.home + 1, score.away)
    else if e.kind.Goal? && e.side == Some(Away) then e.score == Score(score.home, score.away + 1)
    else e.score == score
  }

  function ProviderGoals(events: seq<MatchEvent>, side: Side): nat {
    if |events| == 0 then 0
    else
      var e := events[|events| - 1];
      ProviderGoals(events[..|events| - 1], side)
      + if e.identity.ProviderKey? && e.kind.Goal? && e.side == Some(side) then 1 else 0
  }

  function OfSide(score: Score, side: Side): nat {
    if side.Home? then score.home else score.away
  }

  // ---------------------------------------------------------------- one emission

  /** The running state counts what it has emitted. */
  predicate Tallies(base: Checkpoint, events: seq<MatchEvent>, version: nat, score: Score, goals: Score) {
    && Counts(base, events) && version == base.version + |events|
    && score == (if events == [] then base.score else events[|events| - 1].score)
    && goals == Score(ProviderGoals(events, Home), ProviderGoals(events, Away))
  }

  predicate Tallied(base: Checkpoint, p: Progress) {
    Tallies(base, p.emitted, p.version, p.score, p.goals)
  }

  /** The provider goals once `e` has been counted. */
  function Scored(goals: Score, e: MatchEvent): Score {
    if e.identity.ProviderKey? && e.kind.Goal? && e.side == Some(Home) then Score(goals.home + 1, goals.away)
    else if e.identity.ProviderKey? && e.kind.Goal? && e.side == Some(Away) then Score(goals.home, goals.away + 1)
    else goals
  }

  lemma CountsAppend(base: Checkpoint, events: seq<MatchEvent>, e: MatchEvent)
    requires Counts(base, events) && e.version == base.version + |events| + 1
    requires !e.kind.ScoreCorrected? && !e.kind.Fulltime? ==>
               Carries(if events == [] then base.score else events[|events| - 1].score, e)
    ensures Counts(base, events + [e])
  {
    hide Carries;
    forall i | 0 <= i < |events + [e]| ensures CountsAt(base, events + [e], i) {
      if i < |events| { assert CountsAt(base, events, i); }
    }
  }

  lemma GoalsAppend(events: seq<MatchEvent>, e: MatchEvent, side: Side)
    ensures ProviderGoals(events + [e], side)
            == ProviderGoals(events, side)
               + if e.identity.ProviderKey? && e.kind.Goal? && e.side == Some(side) then 1 else 0
  {
    assert (events + [e])[..|events|] == events;
  }

  lemma TalliesAppend(base: Checkpoint, events: seq<MatchEvent>, version: nat, score: Score, goals: Score, e: MatchEvent)
    requires Tallies(base, events, version, score, goals) && e.version == version + 1
    requires !e.kind.ScoreCorrected? && !e.kind.Fulltime? ==> Carries(score, e)
    ensures Tallies(base, events + [e], e.version, e.score, Scored(goals, e))
  {
    CountsAppend(base, events, e);
    GoalsAppend(events, e, Home);
    GoalsAppend(events, e, Away);
    hide Counts, ProviderGoals, Carries;
  }

  lemma Emission(base: Checkpoint, p: Progress, ctx: Context, kind: EventType, key: Identity,
                 minute: nat, side: Option<Side>, fixed: Option<Score>) returns (e: MatchEvent)
    requires Tallied(base, p) && (fixed.Some? ==> kind.ScoreCorrected? || kind.Fulltime?)
    requires kind.Goal? ==> side.Some?
    ensures Emit(p, ctx, kind, key, minute, side, fixed)
            == p.(version := e.version, score := e.score, emitted := p.emitted + [e])
    ensures Tallies(base, p.emitted + [e], e.version, e.score, Scored(p.goals, e))
    ensures e.kind == kind && e.identity == key && e.minute == Min(130, minute) && e.side == side
    ensures e.currentMinute == Some(Min(130, ctx.observation.minute)) && (fixed.Some? ==> e.score == fixed.value)
    ensures Keys(p.emitted + [e]) == Keys(p.emitted) + {key}
  {
    e := Event(p, ctx, kind, key, minute, side, fixed);
    KeysAppend(p.emitted, e);
    hide Tallies, Keys;
    TalliesAppend(base, p.emitted, p.version, p.score, p.goals, e);
  }

  lemma TurnAppend(events: seq<MatchEvent>, e: MatchEvent)
    requires InTurn(events) && forall a :: a in events ==> MayPrecede(a, e)
    ensures InTurn(events + [e])
  {
    hide MayPrecede;
    forall i | 0 <= i < |events| ensures MayPrecede(events[i], e) {
      assert events[i] in events;
    }
  }

  // ---------------------------------------------------------------- the walk

  predicate Reaches(done: seq<ProviderEvent>, minute: nat) {
    exists x :: x in done && x.minute >= minute
  }

  /** The stages on record once the events of `done` have been met. */
  predicate StagesAt(base: Stages, status: StatusCode, done: seq<ProviderEvent>, stages: Stages) {
    && (stages.kickoff <==> base.kickoff || PlayHasBegun(status))
    && (stages.halftime <==> base.halftime || (FirstHalfIsOver(status) && Reaches(done, 45)))
    && (stages.secondHalf <==> base.secondHalf || (SecondHalfHasBegun(status) && Reaches(done, 46)))
    && (stages.extraTime <==> base.extraTime || (ExtraTimeHasBegun(status) && Reaches(done, 90)))
    && (stages.penalties <==> base.penalties || (PenaltiesHaveBegun(status) && Reaches(done, 120)))
    && stages.fulltime == base.fulltime
  }

  /** The keys emitted so far are those of the stages and provider events that are new on record. */
  ghost predicate KeysTell(base: Checkpoint, p: Progress) {
    var keys := Keys(p.emitted);
    && (KickoffKey in keys <==> p.stages.kickoff && !base.stages.kickoff)
    && (HalftimeKey in keys <==> p.stages.halftime && !base.stages.halftime)
    && (SecondHalfKey in keys <==> p.stages.secondHalf && !base.stages.secondHalf)
    && (ExtraTimeKey in keys <==> p.stages.extraTime && !base.stages.extraTime)
    && (PenaltiesKey in keys <==> p.stages.penalties && !base.stages.penalties)
    && (FulltimeKey in keys <==> p.stages.fulltime && !base.stages.fulltime)
    && (forall id :: ProviderKey(id) in keys <==> id in p.eventIds && id !in base.eventIds)
    && base.eventIds <= p.eventIds && StagesStay(base.stages, p.stages)
  }

  predicate StagesStay(earlier: Stages, later: Stages) {
    && (earlier.kickoff ==> later.kickoff) && (earlier.halftime ==> later.halftime)
    && (earlier.secondHalf ==> later.secondHalf) && (earlier.extraTime ==> later.extraTime)
    && (earlier.penalties ==> later.penalties) && (earlier.fulltime ==> later.fulltime)
  }

  /** Each provider event emitted so far retells one of those met. */
  ghost predicate Retold(done: seq<ProviderEvent>, events: seq<MatchEvent>) {
    forall e :: e in events && e.identity.ProviderKey? ==> exists x :: x in done && Retells(e, x)
  }

  /** No generic goal, correction or full time yet. */
  predicate StillOpen(events: seq<MatchEvent>) {
    forall e :: e in events ==>
      !e.identity.ScoreGoalKey? && !e.identity.CorrectionKey? && !e.identity.FulltimeKey?
  }

  ghost predicate AllFit(base: Checkpoint, ctx: Context, events: seq<MatchEvent>) {
    forall e :: e in events ==> Fits(base, ctx.observation, ctx.minute, ctx.reported, e)
  }

  lemma FitAppend(base: Checkpoint, ctx: Context, events: seq<MatchEvent>, e: MatchEvent)
    requires AllFit(base, ctx, events) && Fits(base, ctx.observation, ctx.minute, ctx.reported, e)
    ensures AllFit(base, ctx, events + [e])
  {
    hide Fits;
  }

  /** An event of the opening tells nothing that was met and closes nothing. */
  lemma OpenAppend(done: seq<ProviderEvent>, events: seq<MatchEvent>, e: MatchEvent)
    requires Retold(done, events) && StillOpen(events) && Opens(e)
    ensures Retold(done, events + [e]) && StillOpen(events + [e])
  {
    hide Retells;
  }

  /** What holds from the kickoff to the end of the walk over the provider events. */
  ghost predicate Walking(base: Checkpoint, ctx: Context, done: seq<ProviderEvent>, p: Progress) {
    && Tallied(base, p) && InTurn(p.emitted) && AllFit(base, ctx, p.emitted)
    && KeysTell(base, p) && Retold(done, p.emitted) && StillOpen(p.emitted)
  }

  lemma HalftimeInTurn(base: Checkpoint, ctx: Context, done: seq<ProviderEvent>, p: Progress)
    requires Walking(base, ctx, done, p)
    requires FirstHalfIsOver(ctx.status) && !p.stages.halftime ==> !Reaches(done, 45) && NoLaterStage(base.stages, p.stages, HalftimeKey)
    ensures var q := EnsureHalftime(p, ctx);
      && Walking(base, ctx, done, q) && q.eventIds == p.eventIds
      && q.stages == p.stages.(halftime := p.stages.halftime || FirstHalfIsOver(ctx.status))
  {
    if FirstHalfIsOver(ctx.status) && !p.stages.halftime {
      StageTaken(base, ctx, done, p, Halftime, HalftimeKey, 45, 45, p.stages.(halftime := true));
    }
    hide Walking, Event, Reaches;
  }

  lemma SecondHalfInTurn(base: Checkpoint, ctx: Context, done: seq<ProviderEvent>, p: Progress)
    requires Walking(base, ctx, done, p) && (SecondHalfHasBegun(ctx.status) ==> p.stages.halftime)
    requires SecondHalfHasBegun(ctx.status) && !p.stages.secondHalf ==> !Reaches(done, 46) && NoLaterStage(base.stages, p.stages, SecondHalfKey)
    ensures var q := EnsureSecondHalf(p, ctx);
      && Walking(base, ctx, done, q) && q.eventIds == p.eventIds
      && q.stages == p.stages.(secondHalf := p.stages.secondHalf || SecondHalfHasBegun(ctx.status))
  {
    if SecondHalfHasBegun(ctx.status) && !p.stages.secondHalf {
      StageTaken(base, ctx, done, p, SecondHalf, SecondHalfKey, 45, 46, p.stages.(secondHalf := true));
    }
    hide Walking, Event, Reaches;
  }

  lemma ExtraTimeInTurn(base: Checkpoint, ctx: Context, done: seq<ProviderEvent>, p: Progress)
    requires Walking(base, ctx, done, p) && (ExtraTimeHasBegun(ctx.status) ==> p.stages.halftime && p.stages.secondHalf)
    requires ExtraTimeHasBegun(ctx.status) && !p.stages.extraTime ==> !Reaches(done, 90) && NoLaterStage(base.stages, p.stages, ExtraTimeKey)
    ensures var q := EnsureExtraTime(p, ctx);
      && Walking(base, ctx, done, q) && q.eventIds == p.eventIds
      && q.stages == p.stages.(extraTime := p.stages.extraTime || ExtraTimeHasBegun(ctx.status))
  {
    if ExtraTimeHasBegun(ctx.status) && !p.stages.extraTime {
      StageTaken(base, ctx, done, p, ExtraTime, ExtraTimeKey, 90, 90, p.stages.(extraTime := true));
    }
    hide Walking, Event, Reaches;
  }

  lemma PenaltiesInTurn(base: Checkpoint, ctx: Context, done: seq<ProviderEvent>, p: Progress)
    requires Walking(base, ctx, done, p) && (PenaltiesHaveBegun(ctx.status) ==> p.stages.extraTime)
    requires PenaltiesHaveBegun(ctx.status) && !p.stages.penalties ==> !Reaches(done, 120)
    ensures var q := EnsurePenalties(p, ctx);
      && Walking(base, ctx, done, q) && q.eventIds == p.eventIds
      && q.stages == p.stages.(penalties := p.stages.penalties || PenaltiesHaveBegun(ctx.status))
  {
    if PenaltiesHaveBegun(ctx.status) && !p.stages.penalties {
      StageTaken(base, ctx, done, p, Penalties, PenaltiesKey, 120, 120, p.stages.(penalties := true));
    }
    hide Walking, Event, Reaches;
  }

  /** None of the stages behind this one is new on record. */
  predicate NoLaterStage(base: Stages, stages: Stages, key: Identity) {
    match key
    case HalftimeKey =>
      (stages.secondHalf ==> base.secondHalf) && (stages.extraTime ==> base.extraTime) && (stages.penalties ==> base.penalties)
    case SecondHalfKey => (stages.extraTime ==> base.extraTime) && (stages.penalties ==> base.penalties)
    case ExtraTimeKey => stages.penalties ==> base.penalties
    case _ => true
  }

  /** The event of one stage: its minute, the first provider minute that proves it, and the record with it. */
  predicate IsStage(stages: Stages, kind: EventType, key: Identity, at: nat, minute: nat, after: Stages) {
    match key
    case HalftimeKey => kind.Halftime? && at == 45 && minute == 45 && !stages.halftime && after == stages.(halftime := true)
    case SecondHalfKey => kind.SecondHalf? && at == 45 && minute == 46 && !stages.secondHalf && after == stages.(secondHalf := true)
    case ExtraTimeKey => kind.ExtraTime? && at == 90 && minute == 90 && !stages.extraTime && after == stages.(extraTime := true)
    case PenaltiesKey => kind.Penalties? && at == 120 && minute == 120 && !stages.penalties && after == stages.(penalties := true)
    case _ => false
  }

  lemma StageTaken(base: Checkpoint, ctx: Context, done: seq<ProviderEvent>, p: Progress,
                   kind: EventType, key: Identity, at: nat, minute: nat, stages: Stages)
    requires Walking(base, ctx, done, p) && IsStage(p.stages, kind, key, at, minute, stages)
    requires !Reaches(done, minute) && NoLaterStage(base.stages, p.stages, key)
    ensures Walking(base, ctx, done, Emit(p, ctx, kind, key, at, None, None).(stages := stages))
  {
    var e := Emission(base, p, ctx, kind, key, at, None, None);
    hide Tallies, Emit, InTurn, AllFit, Retold, StillOpen, Reaches, NoLaterStage, KeysTell;
    StageFollows(base, ctx, done, p, e, at, minute, stages);
    StageIsTold(base, p, e, at, minute, stages);
    hide IsStage, Keys;
  }

  lemma StageIsTold(base: Checkpoint, p: Progress, e: MatchEvent, at: nat, minute: nat, stages: Stages)
    requires KeysTell(base, p) && IsStage(p.stages, e.kind, e.identity, at, minute, stages)
    requires Keys(p.emitted + [e]) == Keys(p.emitted) + {e.identity}
    ensures KeysTell(base, p.(version := e.version, score := e.score, emitted := p.emitted + [e], stages := stages))
  {
    hide Keys;
  }

  lemma StageFollows(base: Checkpoint, ctx: Context, done: seq<ProviderEvent>, p: Progress, e: MatchEvent,
                     at: nat, minute: nat, stages: Stages)
    requires InTurn(p.emitted) && AllFit(base, ctx, p.emitted) && KeysTell(base, p) && Retold(done, p.emitted) && StillOpen(p.emitted)
    requires IsStage(p.stages, e.kind, e.identity, at, minute, stages)
    requires !Reaches(done, minute) && NoLaterStage(base.stages, p.stages, e.identity)
    requires e.currentMinute == Some(Min(130, ctx.observation.minute)) && e.side.None? && e.minute == Min(130, at)
    ensures InTurn(p.emitted + [e]) && AllFit(base, ctx, p.emitted + [e]) && Retold(done, p.emitted + [e])
    ensures StillOpen(p.emitted + [e])
  {
    forall a | a in p.emitted ensures MayPrecede(a, e) {
      assert Fits(base, ctx.observation, ctx.minute, ctx.reported, a) && a.identity in Keys(p.emitted);
      if a.identity.ProviderKey? {
        var x :| x in done && Retells(a, x);
      }
    }
    TurnAppend(p.emitted, e);
    hide MayPrecede, InTurn;
  }

  /** Nothing met so far lies behind `y` in the order of the walk. */
  predicate Meets(done: seq<ProviderEvent>, y: ProviderEvent) {
    forall x :: x in done ==> x.minute < y.minute || (x.minute == y.minute && x.identity <= y.identity)
  }

  lemma ReachesWith(done: seq<ProviderEvent>, y: ProviderEvent, minute: nat)
    requires Meets(done, y)
    ensures Reaches(done + [y], minute) <==> y.minute >= minute
    ensures Reaches(done, minute) ==> y.minute >= minute
  {
    assert y in done + [y];
  }

  lemma ReachesEarlier(done: seq<ProviderEvent>)
    ensures Reaches(done, 46) ==> Reaches(done, 45)
    ensures Reaches(done, 90) ==> Reaches(done, 46)
    ensures Reaches(done, 120) ==> Reaches(done, 90)
  {
  }

  /** A provider event brings the stages that its minute proves on record. */
  lemma StagesByInTurn(base: Checkpoint, ctx: Context, done: seq<ProviderEvent>, y: ProviderEvent, p: Progress)
    requires Walking(base, ctx, done, p) && StagesAt(base.stages, ctx.status, done, p.stages) && Meets(done, y)
    ensures var q := EnsureStagesBy(p, ctx, y.minute);
      && Walking(base, ctx, done, q) && q.eventIds == p.eventIds
      && StagesAt(base.stages, ctx.status, done + [y], q.stages)
  {
    hide Walking, EnsureHalftime, EnsureSecondHalf, EnsureExtraTime, EnsurePenalties, Reaches, Meets;
    ReachesEarlier(done);
    ReachesWith(done, y, 45);
    ReachesWith(done, y, 46);
    ReachesWith(done, y, 90);
    ReachesWith(done, y, 120);
    if y.minute >= 45 { HalftimeInTurn(base, ctx, done, p); }
    var p1 := if y.minute >= 45 then EnsureHalftime(p, ctx) else p;
    if y.minute > 45 { SecondHalfInTurn(base, ctx, done, p1); }
    var p2 := if y.minute > 45 then EnsureSecondHalf(p1, ctx) else p1;
    if y.minute >= 90 { ExtraTimeInTurn(base, ctx, done, p2); }
    var p3 := if y.minute >= 90 then EnsureExtraTime(p2, ctx) else p2;
    if y.minute >= 120 { PenaltiesInTurn(base, ctx, done, p3); }
  }

  /** The stages that the walk has not brought come at its end. */
  lemma AllStagesInTurn(base: Checkpoint, ctx: Context, done: seq<ProviderEvent>, p: Progress)
    requires Walking(base, ctx, done, p) && StagesAt(base.stages, ctx.status, done, p.stages)
    ensures var q := EnsureStages(p, ctx);
      && Walking(base, ctx, done, q) && q.eventIds == p.eventIds
      && (q.stages.kickoff <==> base.stages.kickoff || PlayHasBegun(ctx.status))
      && (q.stages.halftime <==> base.stages.halftime || FirstHalfIsOver(ctx.status))
      && (q.stages.secondHalf <==> base.stages.secondHalf || SecondHalfHasBegun(ctx.status))
      && (q.stages.extraTime <==> base.stages.extraTime || ExtraTimeHasBegun(ctx.status))
      && (q.stages.penalties <==> base.stages.penalties || PenaltiesHaveBegun(ctx.status))
      && q.stages.fulltime == base.stages.fulltime
  {
    hide Walking, EnsureHalftime, EnsureSecondHalf, EnsureExtraTime, EnsurePenalties, Reaches;
    ReachesEarlier(done);
    HalftimeInTurn(base, ctx, done, p);
    var p1 := EnsureHalftime(p, ctx);
    SecondHalfInTurn(base, ctx, done, p1);
    var p2 := EnsureSecondHalf(p1, ctx);
    ExtraTimeInTurn(base, ctx, done, p2);
    PenaltiesInTurn(base, ctx, done, EnsureExtraTime(p2, ctx));
  }

  // ---------------------------------------------------------------- provider events in turn

  lemma ProviderFollows(base: Checkpoint, ctx: Context, done: seq<ProviderEvent>, y: ProviderEvent, p: Progress, e: MatchEvent)
    requires AllFit(base, ctx, p.emitted) && KeysTell(base, p) && Retold(done, p.emitted) && StillOpen(p.emitted)
    requires StagesAt(base.stages, ctx.status, done + [y], p.stages) && Meets(done, y) && y.identity !in p.eventIds
    requires Retells(e, y)
    ensures forall a :: a in p.emitted ==> MayPrecede(a, e)
  {
    forall a | a in p.emitted ensures MayPrecede(a, e) {
      assert Fits(base, ctx.observation, ctx.minute, ctx.reported, a) && a.identity in Keys(p.emitted);
      hide Reaches, StagesAt, Fits;
      StageIsReached(base, ctx, done, y, p.stages);
      if a.identity.ProviderKey? {
        var x :| x in done && Retells(a, x);
      }
    }
  }

  lemma StageIsReached(base: Checkpoint, ctx: Context, done: seq<ProviderEvent>, y: ProviderEvent, stages: Stages)
    requires StagesAt(base.stages, ctx.status, done + [y], stages) && Meets(done, y)
    ensures stages.halftime && !base.stages.halftime ==> y.minute >= 45
    ensures stages.secondHalf && !base.stages.secondHalf ==> y.minute > 45
    ensures stages.extraTime && !base.stages.extraTime ==> y.minute >= 90
    ensures stages.penalties && !base.stages.penalties ==> y.minute >= 120
  {
    hide Reaches, Meets;
    ReachesWith(done, y, 45);
    ReachesWith(done, y, 46);
    ReachesWith(done, y, 90);
    ReachesWith(done, y, 120);
  }

  lemma RetoldGrows(done: seq<ProviderEvent>, y: ProviderEvent, events: seq<MatchEvent>)
    requires Retold(done, events)
    ensures Retold(done + [y], events)
  {
    hide Retells;
    forall e | e in events && e.identity.ProviderKey? ensures exists x :: x in done + [y] && Retells(e, x) {
      var x :| x in done && Retells(e, x);
      assert x in done + [y];
    }
  }

  lemma ProviderInTurn(base: Checkpoint, ctx: Context, done: seq<ProviderEvent>, y: ProviderEvent, p: Progress)
    requires Walking(base, ctx, done, p) && StagesAt(base.stages, ctx.status, done + [y], p.stages) && Meets(done, y)
    requires y in ctx.observation.events && Accepted(y) && y.identity !in p.eventIds
    ensures var kind := Classify(y).value;
      var r := Emit(p, ctx, kind, ProviderKey(y.identity), y.minute, y.side, None);
      Walking(base, ctx, done + [y],
              r.(eventIds := r.eventIds + {y.identity},
                 goals := if kind.Goal? then r.goals.Plus(y.side.value, 1) else r.goals))
  {
    AcceptedTells(y);
    var kind := Classify(y).value;
    var e := Emission(base, p, ctx, kind, ProviderKey(y.identity), y.minute, y.side, None);
    hide Emit, Classify, Accepted, Tallies, Tells;
    ProviderFollows(base, ctx, done, y, p, e);
    TurnAppend(p.emitted, e);
    RetoldGrows(done, y, p.emitted);
    hide InTurn, MayPrecede, StagesAt, Meets;
    assert y in done + [y];
    ProviderIsTold(base, p, e);
    hide KeysTell, Keys;
  }

  lemma ProviderIsTold(base: Checkpoint, p: Progress, e: MatchEvent)
    requires KeysTell(base, p) && e.identity.ProviderKey? && e.identity.id !in p.eventIds
    requires Keys(p.emitted + [e]) == Keys(p.emitted) + {e.identity}
    ensures forall goals, version, score ::
      KeysTell(base, p.(version := version, score := score, emitted := p.emitted + [e], goals := goals,
                        eventIds := p.eventIds + {e.identity.id}))
  {
    hide Keys;
  }

  /** One provider event of the walk. */
  lemma AbsorbInTurn(base: Checkpoint, ctx: Context, done: seq<ProviderEvent>, y: ProviderEvent, p: Progress)
    requires Walking(base, ctx, done, p) && StagesAt(base.stages, ctx.status, done, p.stages)
    requires Meets(done, y) && y in ctx.observation.events
    ensures var q := Absorb(p, ctx, y);
      && Walking(base, ctx, done + [y], q) && StagesAt(base.stages, ctx.status, done + [y], q.stages)
      && q.eventIds == p.eventIds + if TellsSomething(y) then {y.identity} else {}
  {
    StagesByInTurn(base, ctx, done, y, p);
    AcceptedTells(y);
    var q := EnsureStagesBy(p, ctx, y.minute);
    hide EnsureStagesBy, Accepted, Classify, StagesAt, TellsSomething, Meets;
    if Accepted(y) && y.identity !in q.eventIds {
      ProviderInTurn(base, ctx, done, y, q);
    } else {
      WalkGrows(base, ctx, done, y, q);
    }
    hide Walking, Event;
  }

  lemma WalkGrows(base: Checkpoint, ctx: Context, done: seq<ProviderEvent>, y: ProviderEvent, p: Progress)
    requires Walking(base, ctx, done, p)
    ensures Walking(base, ctx, done + [y], p)
  {
    RetoldGrows(done, y, p.emitted);
    hide Tallied, InTurn, AllFit, KeysTell, Retold, StillOpen;
  }

  function IdsTold(events: seq<ProviderEvent>): set<nat> {
    set x | x in events && TellsSomething(x) :: x.identity
  }

  lemma IdsToldAppend(events: seq<ProviderEvent>, y: ProviderEvent)
    ensures IdsTold(events + [y]) == IdsTold(events) + if TellsSomething(y) then {y.identity} else {}
  {
    hide TellsSomething;
    assert forall x :: x in events + [y] <==> x in events || x == y;
  }

  predicate ByMinute(events: seq<ProviderEvent>) {
    forall i, j :: 0 <= i < j < |events| ==>
      events[i].minute < events[j].minute
      || (events[i].minute == events[j].minute && events[i].identity <= events[j].identity)
  }

  lemma LastIsMet(events: seq<ProviderEvent>)
    requires ByMinute(events) && |events| > 0
    ensures ByMinute(events[..|events| - 1]) && Meets(events[..|events| - 1], events[|events| - 1])
  {
    var n := |events| - 1;
    forall x | x in events[..n]
      ensures x.minute < events[n].minute || (x.minute == events[n].minute && x.identity <= events[n].identity)
    {
      var i :| 0 <= i < n && events[i] == x;
    }
  }

  lemma {:induction false} WalkInTurn(base: Checkpoint, ctx: Context, start: Progress, events: seq<ProviderEvent>)
    requires Walking(base, ctx, [], start) && StagesAt(base.stages, ctx.status, [], start.stages)
    requires ByMinute(events) && forall y :: y in events ==> y in ctx.observation.events
    ensures var q := AbsorbAll(start, ctx, events);
      && Walking(base, ctx, events, q) && StagesAt(base.stages, ctx.status, events, q.stages)
      && q.eventIds == start.eventIds + IdsTold(events)
  {
    hide Walking, StagesAt, Absorb, TellsSomething, ByMinute, Meets;
    if |events| > 0 {
      var n := |events| - 1;
      LastIsMet(events);
      WalkInTurn(base, ctx, start, events[..n]);
      assert events == events[..n] + [events[n]];
      IdsToldAppend(events[..n], events[n]);
      hide IdsTold;
      AbsorbInTurn(base, ctx, events[..n], events[n], AbsorbAll(start, ctx, events[..n]));
    }
  }

  // ---------------------------------------------------------------- from the checkpoint to the walk

  lemma NothingWalks(prior: Option<Checkpoint>, ctx: Context)
    ensures Walking(Base(prior), ctx, [], Begin(prior))
  {
  }

  lemma OpeningInTurn(prior: Option<Checkpoint>, observation: Observation, emitScheduled: bool)
    ensures var base, ctx := Base(prior), Start(prior, observation);
      var p := Opened(prior, ctx, emitScheduled);
      && Walking(base, ctx, [], p) && StagesAt(base.stages, ctx.status, [], p.stages) && p.eventIds == base.eventIds
  {
    var base, ctx := Base(prior), Start(prior, observation);
    var announce := emitScheduled && ScheduleChanged(prior, ctx.observation);
    NothingWalks(prior, ctx);
    AnnouncementInTurn(base, ctx, Begin(prior), announce);
    hide Walking, Event, Start;
    KickoffInTurn(base, ctx, Announce(Begin(prior), ctx, announce));
  }

  lemma AnnouncementInTurn(base: Checkpoint, ctx: Context, p: Progress, announce: bool)
    requires Walking(base, ctx, [], p) && p.emitted == [] && ctx.version == base.version
    ensures var q := Announce(p, ctx, announce);
      && Walking(base, ctx, [], q) && q.stages == p.stages && q.eventIds == p.eventIds
      && forall e :: e in q.emitted ==> e.identity.ScheduledKey?
  {
    if announce {
      var e := Emission(base, p, ctx, Scheduled, ScheduledKey(ctx.version, ctx.observation.kickoff), 0, None, None);
      hide Emit, Tallies;
      FitAppend(base, ctx, p.emitted, e);
      OpenAppend([], p.emitted, e);
      TurnAppend(p.emitted, e);
      hide AllFit, Retold, StillOpen, InTurn, Keys, Fits;
    }
  }

  lemma KickoffInTurn(base: Checkpoint, ctx: Context, p: Progress)
    requires Walking(base, ctx, [], p) && p.stages == base.stages && forall e :: e in p.emitted ==> e.identity.ScheduledKey?
    ensures var q := EnsureKickoff(p, ctx);
      Walking(base, ctx, [], q) && StagesAt(base.stages, ctx.status, [], q.stages) && q.eventIds == p.eventIds
  {
    if PlayHasBegun(ctx.status) && !p.stages.kickoff { KickoffFollows(base, ctx, p); }
    hide Event, Walking;
  }

  lemma KickoffFollows(base: Checkpoint, ctx: Context, p: Progress)
    requires Walking(base, ctx, [], p) && p.stages == base.stages && !p.stages.kickoff
    requires forall e :: e in p.emitted ==> e.identity.ScheduledKey?
    ensures Walking(base, ctx, [], Emit(p, ctx, Kickoff, KickoffKey, 0, None, None).(stages := p.stages.(kickoff := true)))
  {
    var e := Emission(base, p, ctx, Kickoff, KickoffKey, 0, None, None);
    hide Emit, Tallies, KeysTell, InTurn;
    TurnAppend(p.emitted, e);
    KickoffIsTold(base, p, e);
    FitAppend(base, ctx, p.emitted, e);
    OpenAppend([], p.emitted, e);
    hide Keys, MayPrecede, AllFit, Retold, StillOpen;
  }

  lemma KickoffIsTold(base: Checkpoint, p: Progress, e: MatchEvent)
    requires KeysTell(base, p) && p.stages == base.stages && !p.stages.kickoff && e.identity.KickoffKey?
    requires Keys(p.emitted + [e]) == Keys(p.emitted) + {e.identity}
    ensures KeysTell(base, p.(version := e.version, score := e.score, emitted := p.emitted + [e],
                              stages := p.stages.(kickoff := true)))
  {
    hide Keys;
  }

  /** At the end of the walk: everything in turn, all stages of the status on record, all told ids known. */
  ghost predicate Walked(base: Checkpoint, ctx: Context, p: Progress) {
    && Walking(base, ctx, Chronological(ctx.observation.events), p)
    && p.eventIds == base.eventIds + IdsTold(ctx.observation.events)
    && (p.stages.kickoff <==> base.stages.kickoff || PlayHasBegun(ctx.status))
    && (p.stages.halftime <==> base.stages.halftime || FirstHalfIsOver(ctx.status))
    && (p.stages.secondHalf <==> base.stages.secondHalf || SecondHalfHasBegun(ctx.status))
    && (p.stages.extraTime <==> base.stages.extraTime || ExtraTimeHasBegun(ctx.status))
    && (p.stages.penalties <==> base.stages.penalties || PenaltiesHaveBegun(ctx.status))
    && p.stages.fulltime == base.stages.fulltime
  }

  lemma PlayInTurn(prior: Option<Checkpoint>, observation: Observation, emitScheduled: bool)
    ensures var ctx := Start(prior, observation); Walked(Base(prior), ctx, Played(prior, ctx, emitScheduled))
  {
    var base, ctx := Base(prior), Start(prior, observation);
    assert ctx.observation == observation;
    var sorted := Chronological(observation.events);
    ChronologicalSorts(observation.events);
    OpeningInTurn(prior, observation, emitScheduled);
    SameEvents(observation.events);
    hide Walking, Opened, Chronological, Start, StagesAt, EnsureStages, IdsTold, InOrder;
    var start := Opened(prior, ctx, emitScheduled);
    WalkInTurn(base, ctx, start, sorted);
    AllStagesInTurn(base, ctx, sorted, AbsorbAll(start, ctx, sorted));
  }

  lemma SameEvents(events: seq<ProviderEvent>)
    ensures forall x :: x in Chronological(events) <==> x in events
    ensures IdsTold(Chronological(events)) == IdsTold(events)
  {
    ChronologicalSorts(events);
    hide TellsSomething, Chronological;
    forall x ensures x in Chronological(events) <==> x in events {
      assert x in multiset(Chronological(events)) <==> x in multiset(events);
    }
  }

  // ---------------------------------------------------------------- closing the score

  /** The generic goals emitted so far are those from `counted` up to `upto`. */
  ghost predicate GoalsTell(base: Checkpoint, ctx: Context, events: seq<MatchEvent>, counted: Score, upto: Score) {
    forall version: nat, side: Side, number: nat, minute: nat ::
      ScoreGoalKey(version, side, number, minute) in Keys(events)
      <==> version == base.version && minute == ctx.minute && OfSide(counted, side) < number <= OfSide(upto, side)
  }

  ghost predicate Closing(base: Checkpoint, ctx: Context, p: Progress, counted: Score, upto: Score) {
    && Tallied(base, p) && InTurn(p.emitted) && AllFit(base, ctx, p.emitted) && KeysTell(base, p)
    && GoalsTell(base, ctx, p.emitted, counted, upto)
    && forall e :: e in p.emitted ==> !e.identity.CorrectionKey? && !e.identity.FulltimeKey?
  }

  lemma WalkedIsClosing(base: Checkpoint, ctx: Context, p: Progress, counted: Score)
    requires Walked(base, ctx, p)
    ensures Closing(base, ctx, p, counted, counted)
  {
    forall version: nat, side: Side, number: nat, minute: nat ensures ScoreGoalKey(version, side, number, minute) !in Keys(p.emitted) {
      hide Tallied, InTurn, AllFit, KeysTell, Retold;
    }
    hide Tallied, InTurn, AllFit, KeysTell, Retold;
  }

  lemma GoalFollows(base: Checkpoint, ctx: Context, events: seq<MatchEvent>, counted: Score, upto: Score, e: MatchEvent)
    requires GoalsTell(base, ctx, events, counted, upto) && e.identity.ScoreGoalKey?
    requires forall a :: a in events ==> !a.identity.CorrectionKey? && !a.identity.FulltimeKey?
    requires e.identity.number == OfSide(upto, e.identity.side) + 1
    requires e.identity.side.Home? ==> upto.away <= counted.away
    ensures forall a :: a in events ==> MayPrecede(a, e)
  {
    forall a | a in events ensures MayPrecede(a, e) {
      assert a.identity in Keys(events);
      if a.identity.ScoreGoalKey? {
        assert ScoreGoalKey(a.identity.version, a.identity.side, a.identity.number, a.identity.minute) in Keys(events);
      }
    }
  }

  lemma GoalIsTold(base: Checkpoint, ctx: Context, events: seq<MatchEvent>, counted: Score, upto: Score, more: Score,
                   e: MatchEvent, side: Side, number: nat)
    requires GoalsTell(base, ctx, events, counted, upto) && Keys(events + [e]) == Keys(events) + {e.identity}
    requires e.identity == ScoreGoalKey(base.version, side, number, ctx.minute)
    requires number == OfSide(upto, side) + 1 && number > OfSide(counted, side)
    requires more == if side.Home? then Score(number, upto.away) else Score(upto.home, number)
    ensures GoalsTell(base, ctx, events + [e], counted, more)
  {
    hide Keys;
  }

  lemma GoalChangesNoRecord(base: Checkpoint, p: Progress, e: MatchEvent)
    requires KeysTell(base, p) && e.identity.ScoreGoalKey?
    requires Keys(p.emitted + [e]) == Keys(p.emitted) + {e.identity}
    ensures KeysTell(base, p.(version := e.version, score := e.score, emitted := p.emitted + [e]))
  {
    hide Keys;
  }

  lemma GoalInTurn(base: Checkpoint, ctx: Context, p: Progress, counted: Score, upto: Score, side: Side, number: nat)
    requires Closing(base, ctx, p, counted, upto) && ctx.version == base.version
    requires number == OfSide(upto, side) + 1 && number > OfSide(counted, side)
    requires side.Home? ==> upto.away <= counted.away
    ensures Closing(base, ctx, Emit(p, ctx, Goal, ScoreGoalKey(ctx.version, side, number, ctx.minute), ctx.minute, Some(side), None),
                    counted, if side.Home? then Score(number, upto.away) else Score(upto.home, number))
  {
    var more := if side.Home? then Score(number, upto.away) else Score(upto.home, number);
    var e := Emission(base, p, ctx, Goal, ScoreGoalKey(ctx.version, side, number, ctx.minute), ctx.minute, Some(side), None);
    hide Emit, Tallies, MayPrecede, InTurn, GoalsTell;
    GoalFollows(base, ctx, p.emitted, counted, upto, e);
    TurnAppend(p.emitted, e);
    FitAppend(base, ctx, p.emitted, e);
    hide AllFit, Fits, KeysTell;
    GoalIsTold(base, ctx, p.emitted, counted, upto, more, e, side, number);
    GoalChangesNoRecord(base, p, e);
    hide Keys;
  }

  lemma {:induction false} GoalsInTurn(
    base: Checkpoint, ctx: Context, p: Progress, counted: Score, upto: Score, side: Side, reported: nat)
    requires Closing(base, ctx, p, counted, upto) && ctx.version == base.version && OfSide(upto, side) == OfSide(counted, side)
    requires side.Home? ==> upto.away <= counted.away
    ensures var q := ScoreGoals(p, ctx, side, OfSide(counted, side), reported);
      var most := if reported > OfSide(counted, side) then reported else OfSide(counted, side);
      && Closing(base, ctx, q, counted, if side.Home? then Score(most, upto.away) else Score(upto.home, most))
      && q.stages == p.stages && q.eventIds == p.eventIds && q.goals == p.goals
    decreases reported
  {
    hide Closing;
    if reported > OfSide(counted, side) {
      var fewer: nat := reported - 1;
      GoalsInTurn(base, ctx, p, counted, upto, side, fewer);
      var q := ScoreGoals(p, ctx, side, OfSide(counted, side), fewer);
      GoalInTurn(base, ctx, q, counted,
                 if side.Home? then Score(fewer, upto.away) else Score(upto.home, fewer), side, reported);
      hide Event;
    }
  }

  /** The goals a snapshot counts: the known ones and those its provider events add. */
  function CountedBy(base: Checkpoint, events: seq<MatchEvent>): Score {
    Score(base.score.home + ProviderGoals(events, Home), base.score.away + ProviderGoals(events, Away))
  }

  lemma AlignInTurn(base: Checkpoint, ctx: Context, p: Progress)
    requires Walked(base, ctx, p) && ctx.known == base.score && ctx.version == base.version
    ensures var q := AlignScore(p, ctx); var counted := Counted(p, ctx);
      && Closing(base, ctx, q, counted, Aligned(p, ctx))
      && q.stages == p.stages && q.eventIds == p.eventIds && q.goals == p.goals
  {
    var counted := Counted(p, ctx);
    WalkedIsClosing(base, ctx, p, counted);
    hide Walked, Closing, ScoreGoals;
    GoalsInTurn(base, ctx, p, counted, counted, Home, ctx.reported.home);
    var q := ScoreGoals(p, ctx, Home, counted.home, ctx.reported.home);
    GoalsInTurn(base, ctx, q, counted, Score(Aligned(p, ctx).home, counted.away), Away, ctx.reported.away);
  }

  /** A correction is among the events exactly when the aligned score is not the reported one. */
  ghost predicate CorrectionsTell(base: Checkpoint, ctx: Context, events: seq<MatchEvent>, upto: Score) {
    forall version: nat, from: Score, to: Score ::
      CorrectionKey(version, from, to) in Keys(events)
      <==> version == base.version && from == upto && to == ctx.reported && upto != ctx.reported
  }

  /** Everything but full time: the correction is there exactly when it is due. */
  ghost predicate Corrected(base: Checkpoint, ctx: Context, p: Progress, counted: Score, upto: Score) {
    && Tallied(base, p) && InTurn(p.emitted) && AllFit(base, ctx, p.emitted) && KeysTell(base, p)
    && GoalsTell(base, ctx, p.emitted, counted, upto)
    && (forall e :: e in p.emitted ==> !e.identity.FulltimeKey?)
    && CorrectionsTell(base, ctx, p.emitted, upto)
  }

  lemma CorrectionInTurn(base: Checkpoint, ctx: Context, p: Progress, counted: Score, aligned: Score)
    requires Closing(base, ctx, p, counted, aligned) && ctx.version == base.version
    requires aligned == Aligned(p, ctx)
    ensures var q := CorrectScore(p, ctx);
      Corrected(base, ctx, q, counted, aligned) && q.stages == p.stages && q.eventIds == p.eventIds && q.goals == p.goals
  {
    if ctx.reported != aligned {
      CorrectionFollows(base, ctx, p, counted, aligned);
    } else {
      NoCorrection(base, ctx, p, counted, aligned);
    }
    hide Closing, Corrected, Event;
  }

  lemma NoCorrection(base: Checkpoint, ctx: Context, p: Progress, counted: Score, aligned: Score)
    requires Closing(base, ctx, p, counted, aligned) && ctx.reported == aligned
    ensures Corrected(base, ctx, p, counted, aligned)
  {
    hide Tallied, InTurn, AllFit, KeysTell, GoalsTell;
  }

  lemma CorrectionFollows(base: Checkpoint, ctx: Context, p: Progress, counted: Score, aligned: Score)
    requires Closing(base, ctx, p, counted, aligned) && ctx.version == base.version && ctx.reported != aligned
    ensures Corrected(base, ctx,
      Emit(p, ctx, ScoreCorrected, CorrectionKey(ctx.version, aligned, ctx.reported), ctx.minute, None, Some(ctx.reported)),
      counted, aligned)
  {
    var key := CorrectionKey(ctx.version, aligned, ctx.reported);
    var e := Emission(base, p, ctx, ScoreCorrected, key, ctx.minute, None, Some(ctx.reported));
    hide Emit, Tallies, GoalsTell, InTurn, MayPrecede, AllFit;
    CorrectionGoesLast(p.emitted, e);
    GoalsStayTold(base, ctx, p.emitted, counted, aligned, e);
    FitAppend(base, ctx, p.emitted, e);
    hide Fits;
    CorrectionIsTold(base, p, e);
    OneCorrection(base, ctx, p.emitted, aligned, e);
    hide KeysTell, CorrectionsTell, Keys;
  }

  lemma CorrectionGoesLast(events: seq<MatchEvent>, e: MatchEvent)
    requires InTurn(events) && e.identity.CorrectionKey?
    requires forall a :: a in events ==> !a.identity.CorrectionKey? && !a.identity.FulltimeKey?
    ensures InTurn(events + [e])
  {
    hide InTurn;
    TurnAppend(events, e);
  }

  lemma CorrectionIsTold(base: Checkpoint, p: Progress, e: MatchEvent)
    requires KeysTell(base, p) && e.identity.CorrectionKey?
    requires Keys(p.emitted + [e]) == Keys(p.emitted) + {e.identity}
    ensures KeysTell(base, p.(version := e.version, score := e.score, emitted := p.emitted + [e]))
  {
    hide Keys;
  }

  lemma OneCorrection(base: Checkpoint, ctx: Context, events: seq<MatchEvent>, aligned: Score, e: MatchEvent)
    requires forall a :: a in events ==> !a.identity.CorrectionKey?
    requires e.identity == CorrectionKey(base.version, aligned, ctx.reported) && aligned != ctx.reported
    ensures CorrectionsTell(base, ctx, events + [e], aligned)
  {
    KeysAppend(events, e);
  }

  lemma GoalsStayTold(base: Checkpoint, ctx: Context, events: seq<MatchEvent>, counted: Score, upto: Score, e: MatchEvent)
    requires GoalsTell(base, ctx, events, counted, upto) && !e.identity.ScoreGoalKey?
    requires Keys(events + [e]) == Keys(events) + {e.identity}
    ensures GoalsTell(base, ctx, events + [e], counted, upto)
  {
    hide Keys;
  }

  // ---------------------------------------------------------------- the outcome

  /** What holds of the whole diff before it is saved. */
  ghost predicate Finished(base: Checkpoint, ctx: Context, p: Progress, counted: Score, upto: Score) {
    && Tallied(base, p) && InTurn(p.emitted) && AllFit(base, ctx, p.emitted) && KeysTell(base, p)
    && GoalsTell(base, ctx, p.emitted, counted, upto)
    && CorrectionsTell(base, ctx, p.emitted, upto)
  }

  lemma FulltimeInTurn(base: Checkpoint, ctx: Context, p: Progress, counted: Score, upto: Score)
    requires Corrected(base, ctx, p, counted, upto)
    ensures var q := EnsureFulltime(p, ctx);
      && Finished(base, ctx, q, counted, upto) && q.eventIds == p.eventIds && q.goals == p.goals
      && q.stages == p.stages.(fulltime := p.stages.fulltime || PlayIsOver(ctx.status))
  {
    if PlayIsOver(ctx.status) && !p.stages.fulltime { FulltimeFollows(base, ctx, p, counted, upto); }
    hide Tallied, InTurn, AllFit, KeysTell, GoalsTell, Event;
  }

  lemma FulltimeFollows(base: Checkpoint, ctx: Context, p: Progress, counted: Score, upto: Score)
    requires Corrected(base, ctx, p, counted, upto) && !p.stages.fulltime
    ensures Finished(base, ctx,
      Emit(p, ctx, Fulltime, FulltimeKey, Max(90, ctx.minute), None, Some(ctx.reported)).(stages := p.stages.(fulltime := true)),
      counted, upto)
  {
    var e := Emission(base, p, ctx, Fulltime, FulltimeKey, Max(90, ctx.minute), None, Some(ctx.reported));
    hide Emit, Tallies, GoalsTell, InTurn, KeysTell, MayPrecede, AllFit, Fits;
    FulltimeGoesLast(p.emitted, e);
    GoalsStayTold(base, ctx, p.emitted, counted, upto, e);
    FulltimeIsTold(base, p, e);
    FulltimeFits(base, ctx, e);
    FitAppend(base, ctx, p.emitted, e);
    CorrectionsStayTold(base, ctx, p.emitted, upto, e);
    hide Keys, CorrectionsTell;
  }

  lemma FulltimeFits(base: Checkpoint, ctx: Context, e: MatchEvent)
    requires e.kind.Fulltime? && e.identity.FulltimeKey? && e.side.None? && e.score == ctx.reported
    requires e.minute == Min(130, Max(90, ctx.minute)) && e.currentMinute == Some(Min(130, ctx.observation.minute))
    ensures Fits(base, ctx.observation, ctx.minute, ctx.reported, e)
  {
  }

  lemma FulltimeGoesLast(events: seq<MatchEvent>, e: MatchEvent)
    requires InTurn(events) && e.identity.FulltimeKey? && forall a :: a in events ==> !a.identity.FulltimeKey?
    ensures InTurn(events + [e])
  {
    hide InTurn;
    TurnAppend(events, e);
  }

  lemma CorrectionsStayTold(base: Checkpoint, ctx: Context, events: seq<MatchEvent>, upto: Score, e: MatchEvent)
    requires CorrectionsTell(base, ctx, events, upto) && !e.identity.CorrectionKey?
    requires Keys(events + [e]) == Keys(events) + {e.identity}
    ensures CorrectionsTell(base, ctx, events + [e], upto)
  {
    hide Keys;
  }

  lemma FulltimeIsTold(base: Checkpoint, p: Progress, e: MatchEvent)
    requires KeysTell(base, p) && !p.stages.fulltime && e.identity.FulltimeKey?
    requires Keys(p.emitted + [e]) == Keys(p.emitted) + {e.identity}
    ensures KeysTell(base, p.(version := e.version, score := e.score, emitted := p.emitted + [e],
                              stages := p.stages.(fulltime := true)))
  {
    hide Keys;
  }

  lemma SettlesInTurn(prior: Option<Checkpoint>, observation: Observation, emitScheduled: bool)
    ensures var base, ctx := Base(prior), Start(prior, observation);
      var played, p := Played(prior, ctx, emitScheduled), Settled(prior, ctx, emitScheduled);
      && Walked(base, ctx, played)
      && Finished(base, ctx, p, Counted(played, ctx), Aligned(played, ctx))
      && p.stages == played.stages.(fulltime := played.stages.fulltime || PlayIsOver(ctx.status))
      && p.eventIds == played.eventIds && p.goals == played.goals
  {
    var base, ctx := Base(prior), Start(prior, observation);
    assert ctx.known == base.score && ctx.version == base.version;
    hide Start, Walked, Closing, Corrected, Finished, Played, EnsureFulltime, AlignScore, CorrectScore;
    PlayInTurn(prior, observation, emitScheduled);
    var played := Played(prior, ctx, emitScheduled);
    AlignInTurn(base, ctx, played);
    var aligned := AlignScore(played, ctx);
    assert Aligned(aligned, ctx) == Aligned(played, ctx);
    CorrectionInTurn(base, ctx, aligned, Counted(played, ctx), Aligned(played, ctx));
    FulltimeInTurn(base, ctx, CorrectScore(aligned, ctx), Counted(played, ctx), Aligned(played, ctx));
  }

  /** The events stand in the order of the match, with versions that count on and scores that add up. */
  lemma EventsComeInTurn(prior: Option<Checkpoint>, observation: Observation, emitScheduled: bool)
    ensures var events := Diff(prior, observation, emitScheduled).events;
      InTurn(events) && Counts(Base(prior), events)
  {
    SettlesInTurn(prior, observation, emitScheduled);
    hide Start, Settled, InTurn, Counts, AllFit, KeysTell, GoalsTell;
  }

  /** Kind, minute, clock, side and score of every event. */
  lemma EventsCarryTheirFacts(prior: Option<Checkpoint>, observation: Observation, emitScheduled: bool, e: MatchEvent)
    requires e in Diff(prior, observation, emitScheduled).events
    ensures var c := Diff(prior, observation, emitScheduled).checkpoint;
      Fits(Base(prior), observation, c.minute, c.score, e)
  {
    SettlesInTurn(prior, observation, emitScheduled);
    DiffReports(prior, observation, emitScheduled);
    assert Start(prior, observation).observation == observation;
    hide Start, Settled, InTurn, Tallied, Fits, KeysTell, GoalsTell;
  }

  /** The record of the checkpoint: each stage that the status has passed, each told id, and the count of events. */
  lemma TheRecordIsKept(prior: Option<Checkpoint>, observation: Observation, emitScheduled: bool)
    ensures var base, r := Base(prior), Diff(prior, observation, emitScheduled);
      var c := r.checkpoint;
      && (c.stages.kickoff <==> base.stages.kickoff || PlayHasBegun(c.status))
      && (c.stages.halftime <==> base.stages.halftime || FirstHalfIsOver(c.status))
      && (c.stages.secondHalf <==> base.stages.secondHalf || SecondHalfHasBegun(c.status))
      && (c.stages.extraTime <==> base.stages.extraTime || ExtraTimeHasBegun(c.status))
      && (c.stages.penalties <==> base.stages.penalties || PenaltiesHaveBegun(c.status))
      && (c.stages.fulltime <==> base.stages.fulltime || PlayIsOver(c.status))
      && c.eventIds == base.eventIds + IdsTold(observation.events)
      && c.version == base.version + |r.events|
  {
    SettlesInTurn(prior, observation, emitScheduled);
    DiffReports(prior, observation, emitScheduled);
    assert Start(prior, observation).observation == observation;
    hide Start, Settled, Played, Counts, InTurn, AllFit, KeysTell, GoalsTell, Walking, Counted, Aligned;
  }

  /** Which events come: the stages that are new, and each provider event that is told for the first time. */
  lemma EventsAreTheNews(prior: Option<Checkpoint>, observation: Observation, emitScheduled: bool)
    ensures var base, r := Base(prior), Diff(prior, observation, emitScheduled);
      var c, keys := r.checkpoint, Keys(r.events);
      && (KickoffKey in keys <==> !base.stages.kickoff && PlayHasBegun(c.status))
      && (HalftimeKey in keys <==> !base.stages.halftime && FirstHalfIsOver(c.status))
      && (SecondHalfKey in keys <==> !base.stages.secondHalf && SecondHalfHasBegun(c.status))
      && (ExtraTimeKey in keys <==> !base.stages.extraTime && ExtraTimeHasBegun(c.status))
      && (PenaltiesKey in keys <==> !base.stages.penalties && PenaltiesHaveBegun(c.status))
      && (FulltimeKey in keys <==> !base.stages.fulltime && PlayIsOver(c.status))
      && forall id :: ProviderKey(id) in keys <==> id in IdsTold(observation.events) && id !in base.eventIds
  {
    SettlesInTurn(prior, observation, emitScheduled);
    DiffReports(prior, observation, emitScheduled);
    TheRecordIsKept(prior, observation, emitScheduled);
    hide Start, Settled, Played, Counts, InTurn, AllFit, Walked, Keys, IdsTold, GoalsTell;
  }

  /**
   A generic goal for every number of either side from the counted to the reported score, and a correction
   exactly when more was counted than reported.
   */
  lemma GoalsFillTheScore(prior: Option<Checkpoint>, observation: Observation, emitScheduled: bool)
    ensures var base, r := Base(prior), Diff(prior, observation, emitScheduled);
      var c, keys, counted := r.checkpoint, Keys(r.events), CountedBy(base, r.events);
      && (forall version: nat, side: Side, number: nat, minute: nat ::
            ScoreGoalKey(version, side, number, minute) in keys
            <==> version == base.version && minute == c.minute && OfSide(counted, side) < number <= OfSide(c.score, side))
      && (forall version: nat, from: Score, to: Score ::
            CorrectionKey(version, from, to) in keys
            <==> version == base.version && to == c.score && !(counted.home <= to.home && counted.away <= to.away)
                 && from == Score(Max(counted.home, to.home), Max(counted.away, to.away)))
  {
    hide Start, Settled, Played, Walked, Diff, CountedBy, Counted, Keys, OfSide, Aligned, GoalsTell;
    ScoreIsFilled(prior, observation, emitScheduled);
    var base, r := Base(prior), Diff(prior, observation, emitScheduled);
    AlignedIs(Played(prior, Start(prior, observation), emitScheduled), Start(prior, observation));
    FilledUpToReported(base, Start(prior, observation), r.events, CountedBy(base, r.events));
  }

  lemma AlignedIs(p: Progress, ctx: Context)
    ensures var counted := Counted(p, ctx);
      Aligned(p, ctx) == Score(Max(counted.home, ctx.reported.home), Max(counted.away, ctx.reported.away))
  {
  }

  lemma FilledUpToReported(base: Checkpoint, ctx: Context, events: seq<MatchEvent>, counted: Score)
    requires GoalsTell(base, ctx, events, counted,
                       Score(Max(counted.home, ctx.reported.home), Max(counted.away, ctx.reported.away)))
    ensures forall version: nat, side: Side, number: nat, minute: nat ::
      ScoreGoalKey(version, side, number, minute) in Keys(events)
      <==> version == base.version && minute == ctx.minute
           && OfSide(counted, side) < number <= OfSide(ctx.reported, side)
  {
    hide Keys;
  }

  lemma ScoreIsFilled(prior: Option<Checkpoint>, observation: Observation, emitScheduled: bool)
    ensures var base, ctx, r := Base(prior), Start(prior, observation), Diff(prior, observation, emitScheduled);
      var played := Played(prior, ctx, emitScheduled);
      && Counted(played, ctx) == CountedBy(base, r.events)
      && ctx.minute == r.checkpoint.minute && ctx.reported == r.checkpoint.score
      && GoalsTell(base, ctx, r.events, Counted(played, ctx), Aligned(played, ctx))
      && CorrectionsTell(base, ctx, r.events, Aligned(played, ctx))
  {
    hide Settled, Played, Walked, Finished, Aligned;
    SettlesInTurn(prior, observation, emitScheduled);
    DiffReports(prior, observation, emitScheduled);
    var base, ctx := Base(prior), Start(prior, observation);
    var played, p := Played(prior, ctx, emitScheduled), Settled(prior, ctx, emitScheduled);
    assert ctx.known == base.score;
    hide Start;
    FinishedTells(base, ctx, p, Counted(played, ctx), Aligned(played, ctx));
  }

  lemma FinishedTells(base: Checkpoint, ctx: Context, p: Progress, counted: Score, upto: Score)
    requires Finished(base, ctx, p, counted, upto)
    ensures GoalsTell(base, ctx, p.emitted, counted, upto) && CorrectionsTell(base, ctx, p.emitted, upto)
    ensures p.goals == Score(ProviderGoals(p.emitted, Home), ProviderGoals(p.emitted, Away))
  {
    hide GoalsTell, CorrectionsTell, InTurn, AllFit, KeysTell, Counts, ProviderGoals;
  }

  /** A schedule comes first, for a new kickoff and outside the establishing synchronisation. */
  lemma SchedulesAreTheNews(prior: Option<Checkpoint>, observation: Observation, emitScheduled: bool)
    ensures forall version: nat, kickoff: int ::
      ScheduledKey(version, kickoff) in Keys(Diff(prior, observation, emitScheduled).events)
      <==> version == Base(prior).version && kickoff == observation.kickoff
           && emitScheduled && (prior.None? || prior.value.kickoff != observation.kickoff)
  {
    var events := Diff(prior, observation, emitScheduled).events;
    FixtureStatus.DiffAnnounces(prior, observation, emitScheduled);
    forall e | e in events
      ensures var c := Diff(prior, observation, emitScheduled).checkpoint;
        Fits(Base(prior), observation, c.minute, c.score, e)
    {
      EventsCarryTheirFacts(prior, observation, emitScheduled, e);
    }
    hide Diff;
    if |events| > 0 { assert events[0] in events; }
  }
}
