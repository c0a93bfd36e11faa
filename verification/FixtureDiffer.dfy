/** The diff as it runs: an object whose fields the nested functions update, event by event. */
module FixtureDiffer {
  import opened Common
  import opened MatchEvents
  import opened FixtureSnapshots
  import FixtureDiff

  type Context = FixtureDiff.Context
  type Progress = FixtureDiff.Progress

  class Differ {
    const ctx: Context
    var version: nat
    var currentHome: nat
    var currentAway: nat
    var emitted: seq<MatchEvent>
    var kickoffEmitted: bool
    var halftimeEmitted: bool
    var secondHalfEmitted: bool
    var extraTimeEmitted: bool
    var penaltiesEmitted: bool
    var fulltimeEmitted: bool
    var eventIds: set<nat>
    var knownHomeGoals: nat
    var knownAwayGoals: nat

    ghost function State(): Progress
      reads this
    {
      FixtureDiff.Progress(
        version, Score(currentHome, currentAway), emitted,
        Stages(kickoffEmitted, halftimeEmitted, secondHalfEmitted, extraTimeEmitted, penaltiesEmitted, fulltimeEmitted),
        eventIds, Score(knownHomeGoals, knownAwayGoals))
    }

    constructor (previous: Option<Checkpoint>, ctx: Context)
      ensures this.ctx == ctx && State() == FixtureDiff.Begin(previous)
    {
      this.ctx := ctx;
      var prior := previous;
      version := if prior.Some? then prior.value.version else 0;
      currentHome := if prior.Some? then prior.value.score.home else 0;
      currentAway := if prior.Some? then prior.value.score.away else 0;
      emitted := [];
      kickoffEmitted := prior.Some? && prior.value.stages.kickoff;
      halftimeEmitted := prior.Some? && prior.value.stages.halftime;
      secondHalfEmitted := prior.Some? && prior.value.stages.secondHalf;
      extraTimeEmitted := prior.Some? && prior.value.stages.extraTime;
      penaltiesEmitted := prior.Some? && prior.value.stages.penalties;
      fulltimeEmitted := prior.Some? && prior.value.stages.fulltime;
      eventIds := if prior.Some? then prior.value.eventIds else {};
      knownHomeGoals, knownAwayGoals := 0, 0;
    }

    method Emit(kind: EventType, identity: Identity, minute: nat, side: Option<Side>, fixed: Option<Score>)
      modifies this
      ensures State() == FixtureDiff.Emit(old(State()), ctx, kind, identity, minute, side, fixed)
    {
      ghost var before := State();
      var home, away := currentHome, currentAway;
      if fixed.Some? {
        home, away := fixed.value.home, fixed.value.away;
      } else if kind.Goal? && side.Some? {
        if side.value.Home? {
          home := home + 1;
        } else {
          away := away + 1;
        }
      }
      var event := MatchEvent(
        kind, version + 1, identity, Min(130, minute), Some(Min(130, ctx.observation.minute)), side, Score(home, away));
      assert event == FixtureDiff.Event(before, ctx, kind, identity, minute, side, fixed);
      hide FixtureDiff.Event;
      version := version + 1;
      emitted := emitted + [event];
      currentHome, currentAway := home, away;
    }

    method EnsureHalftime()
      modifies this
      ensures State() == FixtureDiff.EnsureHalftime(old(State()), ctx)
    {
      if FixtureDiff.HalftimeDue(ctx.status) && !halftimeEmitted {
        Emit(Halftime, HalftimeKey, 45, None, None);
        halftimeEmitted := true;
      }
    }

    method EnsureSecondHalf()
      modifies this
      ensures State() == FixtureDiff.EnsureSecondHalf(old(State()), ctx)
    {
      if FixtureDiff.SecondHalfDue(ctx.status) && !secondHalfEmitted {
        EnsureHalftime();
        Emit(SecondHalf, SecondHalfKey, 45, None, None);
        secondHalfEmitted := true;
      }
    }

    method EnsureExtraTime()
      modifies this
      ensures State() == FixtureDiff.EnsureExtraTime(old(State()), ctx)
    {
      if FixtureDiff.ExtraTimeDue(ctx.status) && !extraTimeEmitted {
        EnsureSecondHalf();
        Emit(ExtraTime, ExtraTimeKey, 90, None, None);
        extraTimeEmitted := true;
      }
    }

    method EnsurePenalties()
      modifies this
      ensures State() == FixtureDiff.EnsurePenalties(old(State()), ctx)
    {
      if FixtureDiff.PenaltiesDue(ctx.status) && !penaltiesEmitted {
        EnsureExtraTime();
        Emit(Penalties, PenaltiesKey, 120, None, None);
        penaltiesEmitted := true;
      }
    }

    method EnsureStagesBy(minute: nat)
      modifies this
      ensures State() == FixtureDiff.EnsureStagesBy(old(State()), ctx, minute)
    {
      hide FixtureDiff.EnsureHalftime, FixtureDiff.EnsureSecondHalf, FixtureDiff.EnsureExtraTime, FixtureDiff.EnsurePenalties;
      if minute >= 45 { EnsureHalftime(); }
      if minute > 45 { EnsureSecondHalf(); }
      if minute >= 90 { EnsureExtraTime(); }
      if minute >= 120 { EnsurePenalties(); }
    }

    method AbsorbEvent(event: ProviderEvent)
      modifies this
      ensures State() == FixtureDiff.Absorb(old(State()), ctx, event)
    {
      hide FixtureDiff.EnsureStagesBy, FixtureDiff.Event;
      EnsureStagesBy(event.minute);
      var classified := Classify(event);
      if classified == None || event.identity in eventIds {
        return;
      }
      var kind := classified.value;
      if (kind == Goal || kind == YellowCard || kind == RedCard) && event.side == None {
        return;
      }
      Emit(kind, ProviderKey(event.identity), event.minute, event.side, None);
      eventIds := eventIds + {event.identity};
      if kind == Goal {
        if event.side == Some(Home) {
          knownHomeGoals := knownHomeGoals + 1;
        } else {
          knownAwayGoals := knownAwayGoals + 1;
        }
      }
    }

    method AbsorbEvents(events: seq<ProviderEvent>)
      modifies this
      ensures State() == FixtureDiff.AbsorbAll(old(State()), ctx, events)
    {
      hide FixtureDiff.Absorb;
      for i := 0 to |events|
        invariant State() == FixtureDiff.AbsorbAll(old(State()), ctx, events[..i])
      {
        assert events[..i + 1][..i] == events[..i];
        AbsorbEvent(events[i]);
      }
      assert events[..|events|] == events;
    }

    method EnsureStages()
      modifies this
      ensures State() == FixtureDiff.EnsureStages(old(State()), ctx)
    {
      hide FixtureDiff.EnsureHalftime, FixtureDiff.EnsureSecondHalf, FixtureDiff.EnsureExtraTime, FixtureDiff.EnsurePenalties;
      EnsureHalftime();
      EnsureSecondHalf();
      EnsureExtraTime();
      EnsurePenalties();
    }

    method EnsureKickoff()
      modifies this
      ensures State() == FixtureDiff.EnsureKickoff(old(State()), ctx)
    {
      var liveOrLater := InPlay(ctx.status) || FullTime(ctx.status);
      if liveOrLater && !kickoffEmitted {
        Emit(Kickoff, KickoffKey, 0, None, None);
        kickoffEmitted := true;
      }
    }

    /** Generic goals for a score that advanced without an entry in the event array. */
    method AddScoreGoals(side: Side, counted: nat, reported: nat) returns (aligned: nat)
      modifies this
      ensures aligned == Max(counted, reported)
      ensures State() == FixtureDiff.ScoreGoals(old(State()), ctx, side, counted, reported)
    {
      aligned := counted;
      while aligned < reported
        invariant counted <= aligned <= Max(counted, reported)
        invariant State() == FixtureDiff.ScoreGoals(old(State()), ctx, side, counted, aligned)
      {
        var number := aligned + 1;
        Emit(Goal, ScoreGoalKey(ctx.version, side, number, ctx.minute), ctx.minute, Some(side), None);
        aligned := aligned + 1;
      }
    }

    /** Raises the counted score to the reported one; returns the score as then aligned. */
    method AlignScore() returns (aligned: Score)
      modifies this
      ensures State() == FixtureDiff.AlignScore(old(State()), ctx)
      ensures aligned == FixtureDiff.Aligned(State(), ctx)
    {
      hide FixtureDiff.ScoreGoals;
      ghost var start := State();
      var expectedHome := ctx.known.home + knownHomeGoals;
      var expectedAway := ctx.known.away + knownAwayGoals;
      var alignedHome := AddScoreGoals(Home, expectedHome, ctx.reported.home);
      var alignedAway := AddScoreGoals(Away, expectedAway, ctx.reported.away);
      aligned := Score(alignedHome, alignedAway);
      ScoreGoalsKeepGoals(start, ctx, Home, expectedHome, ctx.reported.home);
      ScoreGoalsKeepGoals(FixtureDiff.ScoreGoals(start, ctx, Home, expectedHome, ctx.reported.home),
                          ctx, Away, expectedAway, ctx.reported.away);
    }

    method CorrectScore(aligned: Score)
      requires aligned == FixtureDiff.Aligned(State(), ctx)
      modifies this
      ensures State() == FixtureDiff.CorrectScore(old(State()), ctx)
    {
      if ctx.reported != aligned {
        Emit(ScoreCorrected, CorrectionKey(ctx.version, aligned, ctx.reported), ctx.minute, None, Some(ctx.reported));
      }
    }

    method EnsureFulltime()
      modifies this
      ensures State() == FixtureDiff.EnsureFulltime(old(State()), ctx)
    {
      if FullTime(ctx.status) && !fulltimeEmitted {
        Emit(Fulltime, FulltimeKey, Max(90, ctx.minute), None, Some(ctx.reported));
        fulltimeEmitted := true;
      }
    }
  }

  lemma {:induction false} ScoreGoalsKeepGoals(p: Progress, ctx: Context, side: Side, counted: nat, reported: nat)
    ensures FixtureDiff.ScoreGoals(p, ctx, side, counted, reported).goals == p.goals
    decreases reported - counted
  {
    if reported > counted {
      ScoreGoalsKeepGoals(p, ctx, side, counted, reported - 1);
    }
  }

  method StartDiff(previous: Option<Checkpoint>, fixture: Observation) returns (ctx: Context)
    ensures ctx == FixtureDiff.Start(previous, fixture)
  {
    var priorMinute := if previous.Some? then previous.value.minute else 0;
    var previousStatus := if previous.Some? then previous.value.status else TBD;
    var oldHome := if previous.Some? then previous.value.score.home else 0;
    var oldAway := if previous.Some? then previous.value.score.away else 0;
    var stale := previous.Some?
      && (fixture.minute < priorMinute || Rank(fixture.status) < Rank(previousStatus));
    var status := if Rank(fixture.status) < Rank(previousStatus) then previousStatus else fixture.status;
    var reportedHome := if fixture.home.Some? then fixture.home.value else oldHome;
    var reportedAway := if fixture.away.Some? then fixture.away.value else oldAway;
    if stale {
      reportedHome, reportedAway := oldHome, oldAway;
    }
    ctx := FixtureDiff.Context(
      fixture, if previous.Some? then previous.value.version else 0, stale, status,
      Max(priorMinute, fixture.minute), Score(oldHome, oldAway), Score(reportedHome, reportedAway));
  }

  method DiffFixture(previous: Option<Checkpoint>, fixture: Observation, emitScheduled: bool)
    returns (events: seq<MatchEvent>, checkpoint: Checkpoint)
    ensures FixtureDiff.Outcome(events, checkpoint) == FixtureDiff.Diff(previous, fixture, emitScheduled)
  {
    hide FixtureDiff.Emit, FixtureDiff.EnsureKickoff, FixtureDiff.AbsorbAll, FixtureDiff.EnsureStages,
         FixtureDiff.AlignScore, FixtureDiff.CorrectScore, FixtureDiff.EnsureFulltime, Chronological;
    var ctx := StartDiff(previous, fixture);
    var differ := new Differ(previous, ctx);
    var scheduledChanged := previous == None || previous.value.kickoff != fixture.kickoff;
    if emitScheduled && scheduledChanged {
      differ.Emit(Scheduled, ScheduledKey(ctx.version, fixture.kickoff), 0, None, None);
    }
    differ.EnsureKickoff();
    differ.AbsorbEvents(Chronological(fixture.events));
    differ.EnsureStages();
    var aligned := differ.AlignScore();
    differ.CorrectScore(aligned);
    differ.EnsureFulltime();

    var pending := previous.Some? && previous.value.pending;
    if FullTime(ctx.status) && !(previous.Some? && previous.value.stages.fulltime) {
      pending := true;
    }
    if fixture.finalVerification {
      pending := false;
    }
    events := differ.emitted;
    checkpoint := Checkpoint(
      fixture.fixtureId, fixture.kickoff, ctx.status, ctx.minute, ctx.reported, differ.eventIds,
      (previous.Some? && previous.value.scheduledEmitted) || (emitScheduled && scheduledChanged),
      Stages(differ.kickoffEmitted, differ.halftimeEmitted, differ.secondHalfEmitted,
             differ.extraTimeEmitted, differ.penaltiesEmitted, differ.fulltimeEmitted),
      pending,
      FullTime(ctx.status) || Cancelled(ctx.status),
      differ.version,
      fixture.observedAt);
  }
}
