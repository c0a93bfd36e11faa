/** What a match row shows, told from the list of its events. */
module MatchStory {
  import opened Common
  import opened MatchEvents
  import opened MatchReducer
  import opened FixtureSnapshots
  import opened FixtureHistory
  import opened FixtureRuns

  // ---------------------------------------------------------------- the events that count

  /**
   An event counts unless it is a goal for neither side, comes behind a counted one of its version or a later
   one, or comes after the final whistle and corrects nothing.
   */
  predicate Takes(events: seq<MatchEvent>, i: nat)
    requires i < |events|
    decreases i
  {
    && (events[i].kind.Goal? ==> events[i].side.Some?)
    && forall j :: 0 <= j < i && Takes(events, j) ==>
         events[j].version < events[i].version && (events[j].kind.Fulltime? ==> events[i].kind.ScoreCorrected?)
  }

  predicate IsStage(kind: EventType) {
    kind.Scheduled? || kind.Kickoff? || kind.Halftime? || kind.SecondHalf? || kind.ExtraTime? || kind.Penalties? || kind.Fulltime?
  }

  predicate IsPlay(kind: EventType) {
    kind.Goal? || kind.YellowCard? || kind.RedCard? || kind.Substitution?
  }

  /** The last stage event that counts. */
  predicate LastStage(events: seq<MatchEvent>, i: nat) {
    && i < |events| && Takes(events, i) && IsStage(events[i].kind)
    && forall j :: i < j < |events| && IsStage(events[j].kind) ==> !Takes(events, j)
  }

  /** A goal, card or substitution after position `from` that counts. */
  predicate PlayAfter(events: seq<MatchEvent>, from: int, i: nat) {
    from < i < |events| && Takes(events, i) && IsPlay(events[i].kind)
  }

  /** What the clock of the row shows once event `i` has come. */
  function Clock(events: seq<MatchEvent>, i: nat): nat
    requires i < |events|
  {
    Before(Fold(events[..i + 1])).minute
  }

  /** Event `i` shows that the second half has begun: a goal of minute 45 or later, or so late an opening of play. */
  ghost predicate ShownBy(events: seq<MatchEvent>, from: int, opening: bool, i: nat) {
    && PlayAfter(events, from, i) && Clock(events, i) >= 45
    && (events[i].kind.Goal? || (opening && forall j: nat :: PlayAfter(events, from, j) ==> i <= j))
  }

  ghost predicate ShowsSecondHalf(events: seq<MatchEvent>, from: int, opening: bool) {
    exists i: nat :: ShownBy(events, from, opening, i)
  }

  // ---------------------------------------------------------------- one more event

  lemma {:induction false} TakesPrefix(events: seq<MatchEvent>, e: MatchEvent, i: nat)
    requires i < |events|
    ensures Takes(events + [e], i) <==> Takes(events, i)
    decreases i
  {
    forall j | 0 <= j < i ensures Takes(events + [e], j) <==> Takes(events, j) {
      TakesPrefix(events, e, j);
    }
    assert forall j :: 0 <= j <= i ==> (events + [e])[j] == events[j];
  }

  ghost predicate AnyTaken(events: seq<MatchEvent>) {
    exists j: nat :: j < |events| && Takes(events, j)
  }

  /** Every event that counts has a version below this one. */
  ghost predicate AllBelow(events: seq<MatchEvent>, version: nat) {
    forall j: nat :: j < |events| && Takes(events, j) ==> events[j].version < version
  }

  ghost predicate HasVersion(events: seq<MatchEvent>, version: nat) {
    exists j: nat :: j < |events| && Takes(events, j) && events[j].version == version
  }

  ghost predicate HasWhistle(events: seq<MatchEvent>) {
    exists j: nat :: j < |events| && Takes(events, j) && events[j].kind.Fulltime?
  }

  lemma CountGrows(before: seq<MatchEvent>, e: MatchEvent, version: nat)
    ensures var events := before + [e]; var counts := Takes(events, |before|);
      && (counts <==> (e.kind.Goal? ==> e.side.Some?) && AllBelow(before, e.version)
                      && (HasWhistle(before) ==> e.kind.ScoreCorrected?))
      && (AnyTaken(events) <==> AnyTaken(before) || counts)
      && (AllBelow(events, version) <==> AllBelow(before, version) && (counts ==> e.version < version))
      && (HasVersion(events, version) <==> HasVersion(before, version) || (counts && e.version == version))
      && (HasWhistle(events) <==> HasWhistle(before) || (counts && e.kind.Fulltime?))
  {
    hide Takes, AnyTaken, AllBelow, HasVersion, HasWhistle;
    LastCounts(before, e);
    BoundsGrow(before, e, version);
    AnyGrows(before, e);
    VersionGrows(before, e, version);
    WhistleGrows(before, e);
  }

  lemma SamePrefix(before: seq<MatchEvent>, e: MatchEvent)
    ensures forall j: nat :: j < |before| ==>
              (before + [e])[j] == before[j] && (Takes(before + [e], j) <==> Takes(before, j))
  {
    hide Takes;
    forall j: nat | j < |before| ensures Takes(before + [e], j) <==> Takes(before, j) { TakesPrefix(before, e, j); }
  }

  lemma LastCounts(before: seq<MatchEvent>, e: MatchEvent)
    ensures Takes(before + [e], |before|)
            <==> (e.kind.Goal? ==> e.side.Some?) && AllBelow(before, e.version) && (HasWhistle(before) ==> e.kind.ScoreCorrected?)
  {
    SamePrefix(before, e);
    assert (before + [e])[|before|] == e;
  }

  lemma BoundsGrow(before: seq<MatchEvent>, e: MatchEvent, version: nat)
    ensures AllBelow(before + [e], version)
            <==> AllBelow(before, version) && (Takes(before + [e], |before|) ==> e.version < version)
  {
    SamePrefix(before, e);
    hide Takes;
    var events, n := before + [e], |before|;
    assert events[n] == e;
    if AllBelow(events, version) {
      forall j: nat | j < n && Takes(before, j) ensures before[j].version < version { assert Takes(events, j); }
    }
  }

  lemma AnyGrows(before: seq<MatchEvent>, e: MatchEvent)
    ensures AnyTaken(before + [e]) <==> AnyTaken(before) || Takes(before + [e], |before|)
  {
    var events, n := before + [e], |before|;
    SamePrefix(before, e);
    hide Takes;
    assert events[n] == e;
    if j: nat :| j < n && Takes(before, j) { assert Takes(events, j); }
  }

  lemma VersionGrows(before: seq<MatchEvent>, e: MatchEvent, version: nat)
    ensures HasVersion(before + [e], version)
            <==> HasVersion(before, version) || (Takes(before + [e], |before|) && e.version == version)
  {
    var events, n := before + [e], |before|;
    SamePrefix(before, e);
    hide Takes;
    assert events[n] == e;
    if j: nat :| j < n && Takes(before, j) && before[j].version == version { assert Takes(events, j); }
  }

  lemma WhistleGrows(before: seq<MatchEvent>, e: MatchEvent)
    ensures HasWhistle(before + [e]) <==> HasWhistle(before) || (Takes(before + [e], |before|) && e.kind.Fulltime?)
  {
    var events, n := before + [e], |before|;
    SamePrefix(before, e);
    hide Takes;
    assert events[n] == e;
    if j: nat :| j < n && Takes(before, j) && before[j].kind.Fulltime? { assert Takes(events, j); }
  }

  /** The row has the latest version that counts, and is finished exactly when a final whistle counts. */
  ghost predicate Knows(events: seq<MatchEvent>, row: Option<MatchState>) {
    && (row.Some? <==> AnyTaken(events))
    && (row.Some? ==> HasVersion(events, row.value.version))
    && (forall version :: AllBelow(events, version) <==> row.None? || row.value.version < version)
    && (Over(row) <==> HasWhistle(events))
  }

  lemma {:induction false} RowKnowsWhatCounts(events: seq<MatchEvent>)
    ensures Knows(events, Fold(events))
  {
    if |events| > 0 {
      var n := |events| - 1;
      RowKnowsWhatCounts(events[..n]);
      assert events == events[..n] + [events[n]];
      FoldAppend(events[..n], events[n]);
      KnowsMore(events[..n], events[n], Fold(events[..n]));
      hide Knows, Fold;
    }
  }

  lemma KnowsMore(before: seq<MatchEvent>, e: MatchEvent, row: Option<MatchState>)
    requires Knows(before, row)
    ensures Knows(before + [e], Step(row, e))
    ensures Takes(before + [e], |before|) <==> !Ignores(row, e) && (e.kind.Goal? ==> e.side.Some?)
    ensures Step(row, e) == if Takes(before + [e], |before|) then Some(Advanced(Before(row), e)) else row
  {
    hide AnyTaken, AllBelow, HasVersion, HasWhistle, Takes;
    forall version
      ensures var events := before + [e]; var counts := Takes(events, |before|);
        && (counts <==> (e.kind.Goal? ==> e.side.Some?) && AllBelow(before, e.version)
                        && (HasWhistle(before) ==> e.kind.ScoreCorrected?))
        && (AnyTaken(events) <==> AnyTaken(before) || counts)
        && (AllBelow(events, version) <==> AllBelow(before, version) && (counts ==> e.version < version))
        && (HasVersion(events, version) <==> HasVersion(before, version) || (counts && e.version == version))
        && (HasWhistle(events) <==> HasWhistle(before) || (counts && e.kind.Fulltime?))
    {
      CountGrows(before, e, version);
    }
    CountGrows(before, e, e.version);
  }

  /** One more event: it advances the row if it counts, and is nothing to it otherwise. */
  lemma OneMore(before: seq<MatchEvent>, e: MatchEvent)
    ensures var events, n := before + [e], |before|;
      && (forall j :: 0 <= j < n ==> events[j] == before[j] && (Takes(events, j) <==> Takes(before, j)))
      && (forall j :: 0 <= j < n ==> Clock(events, j) == Clock(before, j))
      && Fold(events) == (if Takes(events, n) then Some(Advanced(Before(Fold(before)), e)) else Fold(before))
      && (Takes(events, n) ==> !Over(Fold(before)) || e.kind.ScoreCorrected?)
  {
    var events, n := before + [e], |before|;
    RowKnowsWhatCounts(before);
    KnowsMore(before, e, Fold(before));
    FoldAppend(before, e);
    hide Fold, Takes, Knows, Step;
    forall j | 0 <= j < n
      ensures events[j] == before[j] && (Takes(events, j) <==> Takes(before, j)) && Clock(events, j) == Clock(before, j)
    {
      TakesPrefix(before, e, j);
      assert events[..j + 1] == before[..j + 1];
    }
  }

  // ---------------------------------------------------------------- the score

  ghost predicate LastCorrection(events: seq<MatchEvent>, c: nat) {
    && c < |events| && Takes(events, c) && events[c].kind.ScoreCorrected?
    && forall j :: c < j < |events| && events[j].kind.ScoreCorrected? ==> !Takes(events, j)
  }

  ghost function GoalsAfter(events: seq<MatchEvent>, from: int, side: Side): set<nat> {
    set i: nat | i < |events| && from < i && Takes(events, i) && events[i].kind.Goal? && events[i].side == Some(side)
  }

  /** The goals of both sides after position `from` that count. */
  ghost function GoalCount(events: seq<MatchEvent>, from: int): Score {
    Score(|GoalsAfter(events, from, Home)|, |GoalsAfter(events, from, Away)|)
  }

  function Sum(a: Score, b: Score): Score {
    Score(a.home + b.home, a.away + b.away)
  }

  ghost predicate ScoreShows(events: seq<MatchEvent>, score: Score) {
    && (forall c: nat :: LastCorrection(events, c) ==> c < |events| && score == Sum(events[c].score, GoalCount(events, c)))
    && (Uncorrected(events) ==> score == GoalCount(events, -1))
  }

  lemma GoalsHaveSides(events: seq<MatchEvent>, i: nat)
    requires i < |events| && Takes(events, i)
    ensures events[i].kind.Goal? ==> events[i].side.Some?
  {
  }

  lemma GoalsGrow(before: seq<MatchEvent>, e: MatchEvent, from: int, side: Side)
    requires from < |before|
    ensures var events, n := before + [e], |before|;
      var more := Takes(events, n) && e.kind.Goal? && e.side == Some(side);
      |GoalsAfter(events, from, side)| == |GoalsAfter(before, from, side)| + if more then 1 else 0
  {
    var events, n := before + [e], |before|;
    OneMore(before, e);
    hide Takes, Fold, Clock;
    var more := Takes(events, n) && e.kind.Goal? && e.side == Some(side);
    assert GoalsAfter(events, from, side) == GoalsAfter(before, from, side) + if more then {n} else {};
  }

  /** The score is the last counted correction with the counted goals after it, or all counted goals. */
  lemma {:induction false} ScoreIsTold(events: seq<MatchEvent>)
    ensures ScoreShows(events, Before(Fold(events)).score)
  {
    if |events| > 0 {
      var n := |events| - 1;
      ScoreIsTold(events[..n]);
      assert events == events[..n] + [events[n]];
      OneMore(events[..n], events[n]);
      if Takes(events, n) { GoalsHaveSides(events, n); }
      hide Fold, Takes, Clock;
      ScoreGrows(events[..n], events[n], Before(Fold(events[..n])).score, Before(Fold(events)).score);
    } else {
      assert GoalsAfter(events, -1, Home) == {} && GoalsAfter(events, -1, Away) == {};
    }
  }

  ghost predicate Uncorrected(events: seq<MatchEvent>) {
    forall c :: 0 <= c < |events| && events[c].kind.ScoreCorrected? ==> !Takes(events, c)
  }

  lemma SameCorrections(before: seq<MatchEvent>, e: MatchEvent)
    requires !(Takes(before + [e], |before|) && e.kind.ScoreCorrected?)
    ensures forall c: nat :: LastCorrection(before + [e], c) ==> LastCorrection(before, c) && (before + [e])[c] == before[c]
    ensures Uncorrected(before + [e]) ==> Uncorrected(before)
  {
    var events, n := before + [e], |before|;
    SamePrefix(before, e);
    hide Takes;
    assert events[n] == e;
    forall c: nat | LastCorrection(events, c) ensures LastCorrection(before, c) && events[c] == before[c] {
      assert c != n && events[c] == before[c];
      forall j | c < j < n && before[j].kind.ScoreCorrected? ensures !Takes(before, j) { assert events[j] == before[j]; }
    }
    if Uncorrected(events) {
      forall c | 0 <= c < n && before[c].kind.ScoreCorrected? ensures !Takes(before, c) { assert events[c] == before[c]; }
    }
  }

  lemma CorrectionComes(before: seq<MatchEvent>, e: MatchEvent, score: Score)
    requires Takes(before + [e], |before|) && e.kind.ScoreCorrected?
    ensures ScoreShows(before + [e], e.score)
  {
    var events, n := before + [e], |before|;
    hide Takes;
    assert events[n] == e;
    assert GoalsAfter(events, n, Home) == {} && GoalsAfter(events, n, Away) == {};
    assert GoalCount(events, n) == Score(0, 0);
    hide GoalsAfter, GoalCount;
    assert forall c: nat :: LastCorrection(events, c) ==> c == n;
  }

  lemma CountGoalsGrow(before: seq<MatchEvent>, e: MatchEvent, from: int)
    requires from < |before| && (Takes(before + [e], |before|) && e.kind.Goal? ==> e.side.Some?)
    ensures GoalCount(before + [e], from)
            == if Takes(before + [e], |before|) && e.kind.Goal? then GoalCount(before, from).Plus(e.side.value, 1)
               else GoalCount(before, from)
  {
    hide Takes, GoalsAfter;
    GoalsGrow(before, e, from, Home);
    GoalsGrow(before, e, from, Away);
  }

  lemma ScoreGrows(before: seq<MatchEvent>, e: MatchEvent, score: Score, after: Score)
    requires ScoreShows(before, score)
    requires after == if Takes(before + [e], |before|) then ScoreAfter(score, e) else score
    requires Takes(before + [e], |before|) && e.kind.Goal? ==> e.side.Some?
    ensures ScoreShows(before + [e], after)
  {
    var events := before + [e];
    if Takes(events, |before|) && e.kind.ScoreCorrected? {
      hide Takes, GoalCount, LastCorrection, Uncorrected, Sum, ScoreShows;
      CorrectionComes(before, e, score);
    } else {
      hide *;
      ScoreRises(before, e, score, after);
    }
  }

  lemma ScoreRises(before: seq<MatchEvent>, e: MatchEvent, score: Score, after: Score)
    requires ScoreShows(before, score) && !(Takes(before + [e], |before|) && e.kind.ScoreCorrected?)
    requires Takes(before + [e], |before|) && e.kind.Goal? ==> e.side.Some?
    requires after == if Takes(before + [e], |before|) && e.kind.Goal? then score.Plus(e.side.value, 1) else score
    ensures ScoreShows(before + [e], after)
  {
    var events := before + [e];
    hide Takes, GoalCount, LastCorrection, Uncorrected;
    SameCorrections(before, e);
    CountGoalsGrow(before, e, -1);
    forall c: nat | LastCorrection(events, c) ensures c < |events| && after == Sum(events[c].score, GoalCount(events, c)) {
      CountGoalsGrow(before, e, c);
    }
  }

  // ---------------------------------------------------------------- the clock

  /** A minute that the event puts on the clock. */
  predicate Tells(e: MatchEvent, minute: nat) {
    || (if e.currentMinute.Some? then e.currentMinute == Some(minute) else e.minute == minute)
    || (e.kind.ExtraTime? && minute == 90)
    || (e.kind.Penalties? && minute == 120)
  }

  /** The clock shows the latest minute that any counted event tells. */
  lemma {:induction false} MinuteIsTold(events: seq<MatchEvent>)
    ensures var minute := Before(Fold(events)).minute;
      && (forall i: nat, m: nat :: 0 <= i < |events| && Takes(events, i) && Tells(events[i], m) ==> m <= minute)
      && (minute == 0 || exists i :: 0 <= i < |events| && Takes(events, i) && Tells(events[i], minute))
  {
    if |events| > 0 {
      var n := |events| - 1;
      var before := events[..n];
      MinuteIsTold(before);
      assert events == before + [events[n]];
      OneMore(before, events[n]);
      hide Fold, Takes, Clock;
      var earlier, minute := Before(Fold(before)).minute, Before(Fold(events)).minute;
      if minute == earlier && minute > 0 {
        var i :| 0 <= i < n && Takes(before, i) && Tells(before[i], minute);
        assert Takes(events, i) && Tells(events[i], minute);
      }
    }
  }

  // ---------------------------------------------------------------- status and phase

  ghost predicate Underway(events: seq<MatchEvent>, from: int, opening: bool, row: MatchState) {
    row.status.Live? && row.phase == if ShowsSecondHalf(events, from, opening) then SecondHalfPhase else FirstHalfPhase
  }

  /** No kickoff has counted after `from`: play shows itself in goals, cards and substitutions. */
  ghost predicate Announced(events: seq<MatchEvent>, from: int, row: MatchState) {
    if exists i: nat :: PlayAfter(events, from, i) then Underway(events, from, true, row)
    else row.status.Upcoming? && row.phase.PreMatch?
  }

  /** What the row shows since the stage event at `i`. */
  ghost predicate StageShows(events: seq<MatchEvent>, i: nat, row: MatchState)
    requires i < |events|
  {
    match events[i].kind
    case Scheduled => Announced(events, i, row)
    case Kickoff => Underway(events, i, false, row)
    case Halftime => row.status.Interval? && row.phase.IntervalPhase?
    case SecondHalf => row.status.Live? && row.phase.SecondHalfPhase?
    case ExtraTime => row.status.Live? && row.phase.ExtraTimePhase?
    case Penalties => row.status.Live? && row.phase.PenaltiesPhase?
    case Fulltime => row.status.Finished? && row.phase.FinishedPhase?
    case _ => true
  }

  ghost predicate Stageless(events: seq<MatchEvent>) {
    forall i :: 0 <= i < |events| && IsStage(events[i].kind) ==> !Takes(events, i)
  }

  ghost predicate StatusShows(events: seq<MatchEvent>, row: MatchState) {
    && (forall i: nat :: LastStage(events, i) ==> StageShows(events, i, row))
    && (Stageless(events) ==> Announced(events, -1, row))
  }

  lemma StageComes(before: seq<MatchEvent>, e: MatchEvent, row: MatchState)
    requires Takes(before + [e], |before|) && IsStage(e.kind) && !row.status.Finished?
    ensures StatusShows(before + [e], Advanced(row, e))
  {
    var events, n := before + [e], |before|;
    assert events[n] == e;
    hide Takes, Clock;
    assert forall i: nat :: LastStage(events, i) ==> i == n;
    assert forall i: nat :: !PlayAfter(events, n, i);
  }

  /** An event that is neither stage nor play, or does not count, leaves the story as it was. */
  lemma NothingComes(before: seq<MatchEvent>, e: MatchEvent, row: MatchState, after: MatchState)
    requires StatusShows(before, row) && after.status == row.status && after.phase == row.phase
    requires !Takes(before + [e], |before|) || (!IsStage(e.kind) && !IsPlay(e.kind))
    ensures StatusShows(before + [e], after)
  {
    var events := before + [e];
    hide Takes, ShownBy, Fold;
    SamePlay(before, e);
    forall from: int, opening: bool ensures ShowsSecondHalf(events, from, opening) == ShowsSecondHalf(before, from, opening) {
      SameShow(before, e, from, opening);
    }
    SameStages(before, e);
    hide ShowsSecondHalf, PlayAfter, LastStage, Stageless;
    forall from: int ensures Announced(events, from, after) == Announced(before, from, row) {}
  }

  lemma SamePlay(before: seq<MatchEvent>, e: MatchEvent)
    requires !Takes(before + [e], |before|) || (!IsStage(e.kind) && !IsPlay(e.kind))
    ensures forall from: int, i: nat :: PlayAfter(before + [e], from, i) <==> PlayAfter(before, from, i)
  {
    SamePrefix(before, e);
    hide Takes;
    assert (before + [e])[|before|] == e;
  }

  lemma SameStages(before: seq<MatchEvent>, e: MatchEvent)
    requires !Takes(before + [e], |before|) || (!IsStage(e.kind) && !IsPlay(e.kind))
    ensures forall i: nat :: LastStage(before + [e], i) ==> LastStage(before, i) && (before + [e])[i] == before[i]
    ensures Stageless(before + [e]) ==> Stageless(before)
  {
    SamePrefix(before, e);
    hide Takes;
    var events, n := before + [e], |before|;
    assert events[n] == e;
    forall i: nat | LastStage(events, i) ensures LastStage(before, i) && events[i] == before[i] {
      assert i != n && events[i] == before[i];
      forall j | i < j < n && IsStage(before[j].kind) ensures !Takes(before, j) { assert events[j] == before[j]; }
    }
    if Stageless(events) {
      forall i | 0 <= i < n && IsStage(before[i].kind) ensures !Takes(before, i) { assert events[i] == before[i]; }
    }
  }

  lemma SameShow(before: seq<MatchEvent>, e: MatchEvent, from: int, opening: bool)
    requires forall f: int, i: nat :: PlayAfter(before + [e], f, i) <==> PlayAfter(before, f, i)
    ensures ShowsSecondHalf(before + [e], from, opening) == ShowsSecondHalf(before, from, opening)
  {
    var events := before + [e];
    OneMore(before, e);
    hide Takes, Clock, Fold;
    forall i: nat ensures ShownBy(events, from, opening, i) <==> ShownBy(before, from, opening, i) {
      assert PlayAfter(events, from, i) <==> PlayAfter(before, from, i);
    }
  }

  /** A further event of play shows the second half exactly if it is a late goal. */
  lemma ShowGrows(before: seq<MatchEvent>, e: MatchEvent, from: int, opening: bool)
    requires Takes(before + [e], |before|) && IsPlay(e.kind) && from < |before|
    requires opening ==> exists i: nat :: PlayAfter(before, from, i)
    ensures ShowsSecondHalf(before + [e], from, opening)
            <==> ShowsSecondHalf(before, from, opening) || (e.kind.Goal? && Clock(before + [e], |before|) >= 45)
  {
    var events, n := before + [e], |before|;
    OneMore(before, e);
    hide Takes, Clock, Fold;
    assert events[n] == e && PlayAfter(events, from, n);
    forall i: nat | i < n ensures PlayAfter(events, from, i) <==> PlayAfter(before, from, i) {}
    forall i: nat | i < n ensures ShownBy(events, from, opening, i) <==> ShownBy(before, from, opening, i) {
      if ShownBy(before, from, opening, i) {
        forall j: nat | PlayAfter(events, from, j) && opening && !before[i].kind.Goal? ensures i <= j {}
      }
    }
    if opening {
      var first: nat :| PlayAfter(before, from, first);
      assert PlayAfter(events, from, first) && first < n;
    }
    assert ShownBy(events, from, opening, n) <==> e.kind.Goal? && Clock(events, n) >= 45;
    if ShowsSecondHalf(before, from, opening) {
      var i: nat :| ShownBy(before, from, opening, i);
      assert ShownBy(events, from, opening, i);
    }
  }

  /** Play that was under way stays so, and moves from the first to the second half only by a late goal. */
  lemma UnderwayGrows(before: seq<MatchEvent>, e: MatchEvent, from: int, opening: bool, row: MatchState)
    requires Takes(before + [e], |before|) && IsPlay(e.kind) && from < |before| && row == Before(Fold(before))
    requires Underway(before, from, opening, row) && (opening ==> exists i: nat :: PlayAfter(before, from, i))
    ensures Underway(before + [e], from, opening, Advanced(row, e))
  {
    hide Takes, Clock, Fold, ShowsSecondHalf, PlayAfter;
    ShowGrows(before, e, from, opening);
    ClockAdvances(before, e);
  }

  lemma ClockAdvances(before: seq<MatchEvent>, e: MatchEvent)
    requires Takes(before + [e], |before|)
    ensures Clock(before + [e], |before|) == Advanced(Before(Fold(before)), e).minute
  {
    OneMore(before, e);
    hide Takes, Fold;
    assert (before + [e])[..|before| + 1] == before + [e];
  }

  lemma OpeningShows(before: seq<MatchEvent>, e: MatchEvent, from: int)
    requires Takes(before + [e], |before|) && IsPlay(e.kind) && from < |before|
    requires forall i: nat :: !PlayAfter(before, from, i)
    ensures ShowsSecondHalf(before + [e], from, true) <==> Clock(before + [e], |before|) >= 45
  {
    var events, n := before + [e], |before|;
    SamePrefix(before, e);
    hide Takes, Clock, Fold;
    assert events[n] == e && PlayAfter(events, from, n);
    forall i: nat | i < n ensures !PlayAfter(events, from, i) {
      assert !PlayAfter(before, from, i);
    }
    hide PlayAfter;
    assert ShownBy(events, from, true, n) <==> Clock(events, n) >= 45;
  }

  /** The first play after an announcement opens the match, in the half that the clock says. */
  lemma PlayOpens(before: seq<MatchEvent>, e: MatchEvent, from: int, row: MatchState)
    requires Takes(before + [e], |before|) && IsPlay(e.kind) && from < |before| && row == Before(Fold(before))
    requires row.status.Upcoming? && row.phase.PreMatch? && forall i: nat :: !PlayAfter(before, from, i)
    ensures Underway(before + [e], from, true, Advanced(row, e))
  {
    hide Takes, Clock, Fold, ShowsSecondHalf, PlayAfter;
    OpeningShows(before, e, from);
    ClockAdvances(before, e);
  }

  lemma AnnouncedGrows(before: seq<MatchEvent>, e: MatchEvent, from: int, row: MatchState)
    requires Takes(before + [e], |before|) && IsPlay(e.kind) && from < |before| && row == Before(Fold(before))
    requires Announced(before, from, row)
    ensures Announced(before + [e], from, Advanced(row, e))
  {
    assert PlayAfter(before + [e], from, |before|);
    hide Takes, Fold, PlayAfter, ShowsSecondHalf;
    if exists i: nat :: PlayAfter(before, from, i) {
      UnderwayGrows(before, e, from, true, row);
    } else {
      PlayOpens(before, e, from, row);
    }
  }

  lemma PlayComes(before: seq<MatchEvent>, e: MatchEvent, row: MatchState)
    requires Takes(before + [e], |before|) && IsPlay(e.kind) && row == Before(Fold(before)) && !row.status.Finished?
    requires StatusShows(before, row)
    ensures StatusShows(before + [e], Advanced(row, e))
  {
    var events, n := before + [e], |before|;
    OneMore(before, e);
    hide Takes, Fold, Clock, Underway, Announced;
    assert events[n] == e;
    forall i: nat | LastStage(events, i) ensures StageShows(events, i, Advanced(row, e)) {
      assert LastStage(before, i) && events[i] == before[i];
      if before[i].kind.Scheduled? { AnnouncedGrows(before, e, i, row); }
      if before[i].kind.Kickoff? { UnderwayGrows(before, e, i, false, row); }
    }
    if Stageless(events) {
      assert Stageless(before);
      AnnouncedGrows(before, e, -1, row);
    }
  }

  /**
   The last stage that counts decides status and phase. After a kickoff the second half also shows in a goal
   of minute 45 or later; before any, play shows in the first goal, card or substitution, in the half that the
   clock then says. Nothing else moves them.
   */
  lemma {:induction false} StatusIsTold(events: seq<MatchEvent>)
    ensures StatusShows(events, Before(Fold(events)))
  {
    if |events| > 0 {
      var n := |events| - 1;
      var before, e := events[..n], events[n];
      var row := Before(Fold(before));
      StatusIsTold(before);
      assert events == before + [e];
      OneMore(before, e);
      hide Fold, Takes, StatusShows, Clock;
      if !Takes(events, n) {
        NothingComes(before, e, row, row);
      } else if IsStage(e.kind) {
        StageComes(before, e, row);
      } else if IsPlay(e.kind) {
        PlayComes(before, e, row);
      } else {
        NothingComes(before, e, row, Advanced(row, e));
      }
    }
  }

  ghost predicate LastTaken(events: seq<MatchEvent>, i: nat) {
    i < |events| && Takes(events, i) && forall j :: i < j < |events| ==> !Takes(events, j)
  }

  /** The row exists from the first event that counts, and has the version of the last one. */
  lemma VersionIsTold(events: seq<MatchEvent>)
    ensures Fold(events).Some? <==> AnyTaken(events)
    ensures forall i: nat :: LastTaken(events, i) ==> Fold(events).Some? && Fold(events).value.version == events[i].version
  {
    RowKnowsWhatCounts(events);
    hide Fold;
    forall i: nat | LastTaken(events, i) ensures Fold(events).Some? && Fold(events).value.version == events[i].version {
      assert AnyTaken(events);
      var version := Fold(events).value.version;
      assert AllBelow(events, version + 1);
      var j: nat :| j < |events| && Takes(events, j) && events[j].version == version;
      assert events[i].version <= version;
      assert forall k: nat :: k < i && Takes(events, k) ==> events[k].version < events[i].version;
    }
  }

  // ---------------------------------------------------------------- the events of a run of polls

  ghost predicate Whistled(log: seq<MatchEvent>, i: nat) {
    exists j :: 0 <= j < i && j < |log| && log[j].kind.Fulltime?
  }

  /** In the log of a run of polls every event counts until full time, and only corrections do after it. */
  lemma {:induction false} LegalEventsCount(log: seq<MatchEvent>, i: nat)
    requires Legal(log) && i < |log|
    ensures Takes(log, i) <==> log[i].kind.ScoreCorrected? || !Whistled(log, i)
    decreases i
  {
    hide Fold, Legal;
    LegalAt(log, i);
    forall j | 0 <= j < i
      ensures Takes(log, j) <==> log[j].kind.ScoreCorrected? || !Whistled(log, j)
      ensures log[j].version < log[i].version
    {
      LegalEventsCount(log, j);
      LegalAt(log, j);
    }
    if Whistled(log, i) {
      var j :| 0 <= j < i && log[j].kind.Fulltime?;
      FulltimeComesOnce(log, j);
    }
    hide Keys, Kinds, Prerequisites, KeyFits;
  }

  lemma FulltimeComesOnce(log: seq<MatchEvent>, j: nat)
    requires Legal(log) && j < |log| && log[j].kind.Fulltime?
    ensures !Whistled(log, j)
  {
    LegalAt(log, j);
    hide Fold, Legal;
    forall k | 0 <= k < j ensures !log[k].kind.Fulltime? {
      LegalAt(log, k);
      assert log[..j][k] == log[k];
    }
  }

  /** The furthest stage on record, short of full time. */
  function FurthestStage(stages: Stages): EventType {
    if stages.penalties then Penalties else if stages.extraTime then ExtraTime
    else if stages.secondHalf then SecondHalf else if stages.halftime then Halftime else Kickoff
  }

  /** No kickoff was moved once the match had begun. */
  predicate NeverMoved(log: seq<MatchEvent>) {
    forall i, j :: 0 <= i < j < |log| && log[i].kind.Kickoff? ==> !log[j].kind.Scheduled?
  }

  lemma FurthestIsLast(log: seq<MatchEvent>, stages: Stages, i: nat)
    requires Legal(log) && StagesMatch(log, stages) && stages.kickoff && !stages.fulltime && NeverMoved(log)
    requires i < |log| && log[i].kind == FurthestStage(stages)
    ensures LastStage(log, i)
  {
    hide Fold, Legal, Takes, StagesMatch, NeverMoved;
    var k := KickoffCame(log, i);
    NoWhistle(log, stages);
    LegalEventsCount(log, i);
    forall j | i < j < |log| ensures !IsStage(log[j].kind) {
      NoStageAfter(log, stages, k, i, j);
    }
  }

  lemma NoWhistle(log: seq<MatchEvent>, stages: Stages)
    requires StagesMatch(log, stages) && !stages.fulltime
    ensures forall i: nat :: !Whistled(log, i)
  {
    forall j | 0 <= j < |log| ensures log[j].kind in Kinds(log) {}
  }

  lemma KickoffCame(log: seq<MatchEvent>, i: nat) returns (k: nat)
    requires Legal(log) && i < |log|
    requires log[i].kind.Kickoff? || Kickoff in Prerequisites(log[i].kind)
    ensures k <= i && log[k].kind.Kickoff?
  {
    LegalAt(log, i);
    hide Fold, Legal;
    k := i;
    if !log[i].kind.Kickoff? {
      var e :| e in log[..i] && e.kind.Kickoff?;
      k :| 0 <= k < i && log[..i][k] == e;
    }
  }

  lemma NoStageAfter(log: seq<MatchEvent>, stages: Stages, k: nat, i: nat, j: nat)
    requires Legal(log) && StagesMatch(log, stages) && stages.kickoff && !stages.fulltime && NeverMoved(log)
    requires k <= i < j < |log| && log[k].kind.Kickoff? && log[i].kind == FurthestStage(stages)
    ensures !IsStage(log[j].kind)
  {
    NoEarlierStageAgain(log, i, j);
    hide Legal;
    assert log[j].kind in Kinds(log) && !log[j].kind.Scheduled?;
    hide Kinds;
  }

  /** A stage event stands behind the last of its kind and of all kinds before it. */
  lemma NoEarlierStageAgain(log: seq<MatchEvent>, i: nat, j: nat)
    requires Legal(log) && i < j < |log|
    ensures IsStage(log[j].kind) && !log[j].kind.Scheduled? ==> log[j].kind != log[i].kind && log[j].kind !in Prerequisites(log[i].kind)
  {
    hide Fold, Legal;
    LegalAt(log, i);
    LegalAt(log, j);
    assert log[..j][i] == log[i];
    if log[j].kind in Prerequisites(log[i].kind) {
      var k :| 0 <= k < i && log[..i][k].kind == log[j].kind;
      LegalAt(log, k);
      assert log[..j][k] == log[k];
    }
  }

  /**
   After any run of polls that moved no kickoff once the match had begun, the furthest stage of the checkpoint
   decides what a projection of the whole log shows, until full time.
   */
  lemma RecordDecidesPhase(polls: seq<Poll>)
    requires History(polls).checkpoint.Some? && NeverMoved(History(polls).log)
    requires History(polls).checkpoint.value.stages.kickoff && !History(polls).checkpoint.value.stages.fulltime
    ensures var row, stages := Before(Fold(History(polls).log)), History(polls).checkpoint.value.stages;
      if stages.penalties then row.status.Live? && row.phase.PenaltiesPhase?
      else if stages.extraTime then row.status.Live? && row.phase.ExtraTimePhase?
      else if stages.secondHalf then row.status.Live? && row.phase.SecondHalfPhase?
      else if stages.halftime then row.status.Interval? && row.phase.IntervalPhase?
      else row.status.Live? && (row.phase.FirstHalfPhase? || row.phase.SecondHalfPhase?)
  {
    HistoryIsFaithful(polls);
    hide History, Fold, Legal, Takes, ShowsSecondHalf, LastStage, Agrees;
    var log, stages := History(polls).log, History(polls).checkpoint.value.stages;
    assert FurthestStage(stages) in Kinds(log);
    var e :| e in log && e.kind == FurthestStage(stages);
    var i: nat :| i < |log| && log[i] == e;
    FurthestIsLast(log, stages, i);
    StatusIsTold(log);
  }
}
