/** The checkpoint told by the course of a match. */
module FixtureCourse {
  import opened Common
  import opened MatchEvents
  import opened FixtureSnapshots
  import opened FixtureDiff
  import opened FixtureHistory
  import opened FixtureRuns
  import opened FixtureCheckpoints

  // ---------------------------------------------------------------- the course of a match

  predicate ToCome(status: StatusCode) {
    status.TBD? || status.NS? || status.PST? || status.LIVE? || status.OtherCode?
  }

  predicate Ended(status: StatusCode) {
    || status.FT? || status.AET? || status.PEN?
    || status.CANC? || status.ABD? || status.AWD? || status.WO?
  }

  /** `after` does not lie before `before` in the course of a match; codes outside it count as still to come. */
  predicate FollowsOn(before: StatusCode, after: StatusCode) {
    match after
    case TBD | NS | PST | LIVE | OtherCode(_) => ToCome(before)
    case SUSP | INT | FirstHalfCode => ToCome(before) || before.SUSP? || before.INT? || before.FirstHalfCode?
    case HT => ToCome(before) || before.SUSP? || before.INT? || before.FirstHalfCode? || before.HT?
    case SecondHalfCode => !before.ET? && !before.BT? && !before.P? && !Ended(before)
    case ET | BT | P => !Ended(before)
    case FT | AET | PEN | CANC | ABD | AWD | WO => true
  }

  // The checkpoint that stands for none.
  const Nothing := Checkpoint(0, 0, TBD, 0, Score(0, 0), {}, false, NoStages, false, false, 0, 0)

  function Base(prior: Option<Checkpoint>): Checkpoint {
    if prior.Some? then prior.value else Nothing
  }

  /** The snapshot lies behind the checkpoint, by its clock or by its status. */
  predicate Behind(base: Checkpoint, observation: Observation) {
    observation.minute < base.minute || !FollowsOn(base.status, observation.status)
  }

  function OrKnown(value: Option<nat>, known: nat): nat {
    if value.Some? then value.value else known
  }

  lemma RanksFollowTheCourse(before: StatusCode, after: StatusCode)
    ensures FollowsOn(before, after) <==> Rank(before) <= Rank(after)
  {
  }

  /**
   The status moves with every snapshot that follows on, and only then; the score is the reported one unless
   the snapshot lies behind; the minute is the latest seen; ended matches are terminal.
   */
  lemma TheCourseIsFollowed(prior: Option<Checkpoint>, observation: Observation, emitScheduled: bool)
    ensures var base, c := Base(prior), Diff(prior, observation, emitScheduled).checkpoint;
      && c.status == (if FollowsOn(base.status, observation.status) then observation.status else base.status)
      && c.score.home == (if Behind(base, observation) then base.score.home else OrKnown(observation.home, base.score.home))
      && c.score.away == (if Behind(base, observation) then base.score.away else OrKnown(observation.away, base.score.away))
      && base.minute <= c.minute && observation.minute <= c.minute
      && (c.minute == base.minute || c.minute == observation.minute)
      && (c.terminal <==> Ended(c.status))
  {
    RanksFollowTheCourse(Base(prior).status, observation.status);
    DiffReports(prior, observation, emitScheduled);
    hide Settled, FollowsOn;
  }

  /** What the checkpoint keeps of the announcement, the final verification and the snapshot itself. */
  lemma TheRestIsSaved(prior: Option<Checkpoint>, observation: Observation, emitScheduled: bool)
    ensures var base, c := Base(prior), Diff(prior, observation, emitScheduled).checkpoint;
      && c.fixtureId == observation.fixtureId && c.kickoff == observation.kickoff
      && c.lastObservedAt == observation.observedAt
      && (c.scheduledEmitted
          <==> base.scheduledEmitted || (emitScheduled && (prior.None? || base.kickoff != observation.kickoff)))
      && (c.pending
          <==> !observation.finalVerification
               && (base.pending || ((c.status.FT? || c.status.AET? || c.status.PEN?) && !base.stages.fulltime)))
  {
    DiffReports(prior, observation, emitScheduled);
    hide Settled, Rank;
  }

  // ---------------------------------------------------------------- whole runs

  /** The poll lies behind an earlier one, by its clock or by its status. */
  ghost predicate FromThePast(polls: seq<Poll>, k: nat)
    requires k < |polls|
  {
    exists j :: 0 <= j < k && (polls[k].observation.minute < polls[j].observation.minute
                               || !FollowsOn(polls[j].observation.status, polls[k].observation.status))
  }

  /** Poll `k` has the furthest status, and the last such. */
  ghost predicate Furthest(polls: seq<Poll>, k: nat)
    requires k < |polls|
  {
    && (forall j :: 0 <= j < k ==> FollowsOn(polls[j].observation.status, polls[k].observation.status))
    && (forall j :: k < j < |polls| ==> !FollowsOn(polls[k].observation.status, polls[j].observation.status))
  }

  lemma CourseIsTransitive(a: StatusCode, b: StatusCode, c: StatusCode)
    ensures FollowsOn(a, b) && FollowsOn(b, c) ==> FollowsOn(a, c)
    ensures FollowsOn(a, b) || FollowsOn(b, a)
    ensures FollowsOn(TBD, a)
  {
    RanksFollowTheCourse(a, b);
    RanksFollowTheCourse(b, a);
    RanksFollowTheCourse(b, c);
    RanksFollowTheCourse(a, c);
    RanksFollowTheCourse(TBD, a);
    hide FollowsOn;
  }

  /** After any run the checkpoint has the furthest status of all polls, and the latest minute. */
  lemma {:induction false} StatusIsTheFurthest(polls: seq<Poll>) returns (k: nat)
    requires |polls| > 0
    ensures k < |polls| && Furthest(polls, k)
    ensures var c := History(polls).checkpoint;
      && c.Some? && c.value.status == polls[k].observation.status
      && (forall j :: 0 <= j < |polls| ==>
            polls[j].observation.minute <= c.value.minute && FollowsOn(polls[j].observation.status, c.value.status))
      && (c.value.minute == 0 || exists j :: 0 <= j < |polls| && polls[j].observation.minute == c.value.minute)
  {
    hide Diff, FollowsOn;
    var n := |polls| - 1;
    var before := polls[..n];
    var latest := polls[n].observation;
    TheCourseIsFollowed(History(before).checkpoint, latest, polls[n].emitScheduled);
    CourseIsTransitive(latest.status, latest.status, latest.status);
    if n == 0 {
      k := 0;
    } else {
      var m := StatusIsTheFurthest(before);
      var status := History(before).checkpoint.value.status;
      forall j | 0 <= j < n ensures before[j] == polls[j] {}
      if FollowsOn(status, latest.status) {
        k := n;
        forall j | 0 <= j < n ensures FollowsOn(polls[j].observation.status, latest.status) {
          CourseIsTransitive(before[j].observation.status, status, latest.status);
        }
      } else {
        k := m;
        CourseIsTransitive(latest.status, status, status);
      }
      if j :| 0 <= j < n && before[j].observation.minute == History(before).checkpoint.value.minute {
        assert polls[j].observation.minute == before[j].observation.minute;
      }
    }
  }

  /** The last value of one side that a poll reported without lying behind an earlier one. */
  ghost predicate LastReported(polls: seq<Poll>, side: Side, value: nat) {
    || (exists k :: 0 <= k < |polls| && Reports(polls, k, side) == Some(value)
                    && forall j :: k < j < |polls| ==> Reports(polls, j, side) == None)
    || (value == 0 && forall k :: 0 <= k < |polls| ==> Reports(polls, k, side) == None)
  }

  ghost function Reports(polls: seq<Poll>, k: nat, side: Side): Option<nat>
    requires k < |polls|
  {
    if FromThePast(polls, k) then None
    else if side.Home? then polls[k].observation.home else polls[k].observation.away
  }

  lemma LastIsBehind(polls: seq<Poll>)
    requires |polls| > 0
    ensures var n := |polls| - 1;
      FromThePast(polls, n) <==> Behind(Base(History(polls[..n]).checkpoint), polls[n].observation)
  {
    hide Diff, FollowsOn;
    var n := |polls| - 1;
    var before, latest := polls[..n], polls[n].observation;
    if n == 0 {
      CourseIsTransitive(latest.status, TBD, TBD);
    } else {
      var m := StatusIsTheFurthest(before);
      var c := History(before).checkpoint.value;
      forall j | 0 <= j < n ensures before[j] == polls[j] {}
      if FromThePast(polls, n) {
        var j :| 0 <= j < n && (latest.minute < polls[j].observation.minute
                                || !FollowsOn(polls[j].observation.status, latest.status));
        assert before[j].observation.minute <= c.minute && FollowsOn(before[j].observation.status, c.status);
        CourseIsTransitive(before[j].observation.status, c.status, latest.status);
      }
      if Behind(c, latest) {
        if !FollowsOn(c.status, latest.status) {
          assert !FollowsOn(polls[m].observation.status, latest.status);
        } else {
          var j :| 0 <= j < n && before[j].observation.minute == c.minute;
          assert latest.minute < polls[j].observation.minute;
        }
      }
    }
  }

  lemma ReportsOfFront(polls: seq<Poll>, k: nat, side: Side)
    requires |polls| > 0 && k < |polls| - 1
    ensures Reports(polls[..|polls| - 1], k, side) == Reports(polls, k, side)
  {
    var before := polls[..|polls| - 1];
    assert FromThePast(before, k) <==> FromThePast(polls, k) by {
      forall j | 0 <= j <= k ensures before[j] == polls[j] {}
      hide FollowsOn;
    }
  }

  /** After any run the score of each side is the last value reported by a poll that did not lie behind. */
  lemma {:induction false} ScoreIsTheLastReport(polls: seq<Poll>, side: Side)
    ensures var score := Base(History(polls).checkpoint).score;
      LastReported(polls, side, if side.Home? then score.home else score.away)
  {
    hide Diff, FromThePast, FollowsOn;
    if |polls| > 0 {
      var n := |polls| - 1;
      ScoreIsTheLastReport(polls[..n], side);
      LastIsBehind(polls);
      TheCourseIsFollowed(History(polls[..n]).checkpoint, polls[n].observation, polls[n].emitScheduled);
      forall k | 0 <= k < n ensures Reports(polls[..n], k, side) == Reports(polls, k, side) {
        ReportsOfFront(polls, k, side);
      }
      var known := Base(History(polls[..n]).checkpoint).score;
      LastReportedGrows(polls, side, if side.Home? then known.home else known.away);
      hide LastReported;
    }
  }

  lemma LastReportedGrows(polls: seq<Poll>, side: Side, known: nat)
    requires |polls| > 0 && LastReported(polls[..|polls| - 1], side, known)
    requires forall k :: 0 <= k < |polls| - 1 ==> Reports(polls[..|polls| - 1], k, side) == Reports(polls, k, side)
    ensures var latest := Reports(polls, |polls| - 1, side);
      LastReported(polls, side, if latest.Some? then latest.value else known)
  {
    hide Reports;
    var n := |polls| - 1;
    if Reports(polls, n, side).None? {
      if k :| 0 <= k < n && Reports(polls[..n], k, side) == Some(known)
              && forall j :: k < j < n ==> Reports(polls[..n], j, side) == None {
        assert Reports(polls, k, side) == Some(known);
      }
    }
  }
}
