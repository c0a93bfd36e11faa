/** Bounded retention batches against one unbounded batch, for one fixed cutoff. */
module RetentionBatches {
  import opened Common
  import opened Ordering
  import opened EventStore
  import opened EventInvariants
  import opened MatchEvents
  import opened MatchReducer

  // ---------------------------------------------------------------- eligibility does not move

  lemma ProtectionUnmoved(db: Database, policy: Policy, ids: set<nat>)
    ensures Protected(Retire(db, policy, ids), policy) == Protected(db, policy)
    ensures LastStateEvents(Retire(db, policy, ids), policy) == LastStateEvents(db, policy)
  {
    hide Keep, Tombstones, MatchEventsOf;
    var after := Retire(db, policy, ids);
    assert forall m :: m in after.matches ==> m in db.matches && after.matches[m] == db.matches[m];
    assert Protected(after, policy) == Protected(db, policy);
    forall id | id in LastStateEvents(db, policy) ensures id in LastStateEvents(after, policy) {
      var m :| m in db.matches && (db.matches[m].updatedAt >= policy.cutoff || m in Protected(db, policy))
               && db.matches[m].lastEvent == id;
      assert m in after.matches;
    }
  }

  /** Retiring events, match rows included, leaves every other event as eligible as it was. */
  lemma EligibilityUnmoved(db: Database, policy: Policy, ids: set<nat>)
    ensures Eligible(Retire(db, policy, ids), policy) == Eligible(db, policy) - ids
  {
    ProtectionUnmoved(db, policy, ids);
    hide Keep, Tombstones, StaleMatches, Protected, LastStateEvents;
    var after := Retire(db, policy, ids);
    forall id | id in db.canonical && id !in ids
      ensures Published(after, id) <==> Published(db, id)
    {
      if Published(db, id) {
        var r :| r in db.outbox && db.outbox[r].envelope.id == id && db.outbox[r].publishedAt.Some?;
        assert r in after.outbox;
      }
    }
    hide Published;
    assert forall id :: id in after.canonical <==> id in db.canonical && id !in ids;
  }

  // ---------------------------------------------------------------- batch after batch

  function RunRetention(db: Database, policy: Policy, limit: nat): Database
    requires limit > 0
    decreases |Eligible(db, policy)|
  {
    if Eligible(db, policy) == {} then db
    else
      BatchShrinks(db, policy, limit);
      RunRetention(Retain(db, policy, limit), policy, limit)
  }

  lemma BatchIsEligible(db: Database, policy: Policy, limit: nat)
    ensures Elements(RetirementBatch(db, policy, limit)) <= Eligible(db, policy)
    ensures limit > 0 && Eligible(db, policy) != {} ==> Elements(RetirementBatch(db, policy, limit)) != {}
    ensures limit >= |Eligible(db, policy)| ==> Elements(RetirementBatch(db, policy, limit)) == Eligible(db, policy)
  {
    assert Eligible(db, policy) <= IngestRank(db).Keys;
    hide Eligible;
    var order := Ordered(Eligible(db, policy), IngestRank(db));
    OrderedIsComplete(Eligible(db, policy), IngestRank(db));
    forall id | id in Elements(Take(order, limit)) ensures id in Elements(order) {}
    if limit > 0 && order != [] {
      assert Take(order, limit)[0] in Elements(Take(order, limit));
    }
  }

  lemma BatchShrinks(db: Database, policy: Policy, limit: nat)
    requires limit > 0 && Eligible(db, policy) != {}
    ensures |Eligible(Retain(db, policy, limit), policy)| < |Eligible(db, policy)|
  {
    hide Eligible, RetirementBatch, Retire;
    var ids := Elements(RetirementBatch(db, policy, limit));
    BatchIsEligible(db, policy, limit);
    EligibilityUnmoved(db, policy, ids);
    assert Eligible(db, policy) == (Eligible(db, policy) - ids) + ids;
  }

  // ---------------------------------------------------------------- the events that leave

  /** Everything but the match rows. */
  predicate SameEvents(a: Database, b: Database) {
    a == b.(matches := a.matches)
  }

  lemma RetireKeepsDistinct(db: Database, policy: Policy, ids: set<nat>)
    requires KeysDistinct(db)
    ensures KeysDistinct(Retire(db, policy, ids))
  {
    hide Keep, StaleMatches;
  }

  /** While live and retired keys are distinct, every retired event leaves its own tombstone. */
  lemma EachLeavesATombstone(db: Database, ids: set<nat>)
    requires KeysDistinct(db)
    ensures Tombstones(db, ids).Keys == ids * db.canonical.Keys
    ensures forall id :: id in Tombstones(db, ids) ==> Tombstones(db, ids)[id] == db.canonical[id].key
  {
  }

  lemma TombstonesTwice(db: Database, policy: Policy, first: set<nat>, second: set<nat>)
    requires KeysDistinct(db)
    ensures Retire(Retire(db, policy, first), policy, second).retired == Retire(db, policy, first + second).retired
  {
    var one := Retire(db, policy, first);
    RetireKeepsDistinct(db, policy, first);
    EachLeavesATombstone(db, first);
    EachLeavesATombstone(db, first + second);
    EachLeavesATombstone(one, second);
    hide Keep, StaleMatches, Tombstones, KeysDistinct;
    UnionInTwoSteps(db.retired, Tombstones(db, first), Tombstones(one, second), Tombstones(db, first + second));
  }

  lemma UnionInTwoSteps(base: map<nat, DedupeKey>, a: map<nat, DedupeKey>, b: map<nat, DedupeKey>, both: map<nat, DedupeKey>)
    requires both.Keys == a.Keys + b.Keys
    requires (forall id :: id in a ==> a[id] == both[id]) && (forall id :: id in b ==> b[id] == both[id])
    ensures (base + a) + b == base + both
  {
  }

  lemma RetireTwice(db: Database, policy: Policy, first: set<nat>, second: set<nat>)
    requires KeysDistinct(db)
    ensures SameEvents(Retire(Retire(db, policy, first), policy, second), Retire(db, policy, first + second))
  {
    var one := Retire(db, policy, first);
    var two := Retire(one, policy, second);
    var both := Retire(db, policy, first + second);
    TombstonesTwice(db, policy, first, second);
    KeepTwice(db.timeline, db.canonical.Keys - first, one.canonical.Keys - second);
    assert (db.canonical.Keys - first) * (one.canonical.Keys - second) == db.canonical.Keys - (first + second);
    hide Keep, StaleMatches, Tombstones;
    assert two.canonical == both.canonical;
    assert two.outbox == both.outbox;
    assert two.processed == both.processed;
  }

  lemma RetireNothing(db: Database, policy: Policy)
    requires db.timeline == Keep(db.timeline, db.canonical.Keys)
    ensures SameEvents(Retire(db, policy, {}), db)
  {
    assert Tombstones(db, {}) == map[];
    hide Keep, StaleMatches, Tombstones;
    assert db.canonical.Keys - {} == db.canonical.Keys;
  }

  lemma TimelineKept(db: Database, policy: Policy, ids: set<nat>)
    ensures var after := Retire(db, policy, ids); after.timeline == Keep(after.timeline, after.canonical.Keys)
  {
    KeepTwice(db.timeline, db.canonical.Keys - ids, db.canonical.Keys - ids);
    hide Keep, StaleMatches, Tombstones;
    assert (db.canonical - ids).Keys == db.canonical.Keys - ids;
    assert (db.canonical.Keys - ids) * (db.canonical.Keys - ids) == db.canonical.Keys - ids;
  }

  /**
   Batches of any size, repeated until nothing is eligible, remove exactly the events that one
   unbounded batch removes, and leave exactly its tombstones, outbox, timeline and processed rows.
   */
  lemma {:induction false} BatchesRetireTheSameEvents(db: Database, policy: Policy, limit: nat)
    requires limit > 0 && KeysDistinct(db) && db.timeline == Keep(db.timeline, db.canonical.Keys)
    ensures SameEvents(RunRetention(db, policy, limit), Retain(db, policy, |Eligible(db, policy)|))
    ensures Eligible(RunRetention(db, policy, limit), policy) == {}
    decreases |Eligible(db, policy)|
  {
    hide Eligible, RetirementBatch, Retire, KeysDistinct, Keep;
    var all := Eligible(db, policy);
    BatchIsEligible(db, policy, |all|);
    if all == {} {
      RetireNothing(db, policy);
    } else {
      var ids := Elements(RetirementBatch(db, policy, limit));
      var next := Retire(db, policy, ids);
      BatchIsEligible(db, policy, limit);
      BatchShrinks(db, policy, limit);
      RetireKeepsDistinct(db, policy, ids);
      TimelineKept(db, policy, ids);
      EligibilityUnmoved(db, policy, ids);
      BatchesRetireTheSameEvents(next, policy, limit);
      BatchIsEligible(next, policy, |Eligible(next, policy)|);
      RetireTwice(db, policy, ids, all - ids);
      assert ids + (all - ids) == all;
    }
  }

  predicate PlaysNow(db: Database, subject: nat) {
    subject in db.matches && (db.matches[subject].state.status.Live? || db.matches[subject].state.status.Interval?)
  }

  /** Old, published and projected, of no match that plays now or is active, and no row's event to keep. */
  predicate MayLeave(db: Database, policy: Policy, id: nat) {
    && id in db.canonical && db.canonical[id].ingestedAt < policy.cutoff && id in db.processed
    && (exists r :: r in db.outbox && db.outbox[r].envelope.id == id && db.outbox[r].publishedAt.Some?)
    && (db.canonical[id].football.Some? ==>
          !PlaysNow(db, db.canonical[id].subject) && policy.active != Some(db.canonical[id].subject))
    && (forall m :: m in db.matches && db.matches[m].lastEvent == id
                    ==> db.matches[m].updatedAt < policy.cutoff && !PlaysNow(db, m) && policy.active != Some(m))
  }

  lemma EligibleMayLeave(db: Database, policy: Policy, id: nat)
    ensures IsEligible(db, policy, id) <==> MayLeave(db, policy, id)
  {
    forall m ensures m in Protected(db, policy) <==> PlaysNow(db, m) || policy.active == Some(m) {}
    hide Protected, PlaysNow;
    assert id in LastStateEvents(db, policy)
      <==> exists m :: m in db.matches && db.matches[m].lastEvent == id
                       && (db.matches[m].updatedAt >= policy.cutoff || m in Protected(db, policy));
    hide LastStateEvents;
  }

  /** What a full batch leaves out stands behind it. */
  lemma LeftBehind(all: seq<nat>, limit: nat, k: nat)
    requires k < |all| && all[k] !in Elements(Take(all, limit))
    ensures |Take(all, limit)| == limit <= k && forall j :: 0 <= j < limit ==> Take(all, limit)[j] == all[j]
  {
    var taken := Take(all, limit);
    assert forall j :: 0 <= j < |taken| ==> taken[j] == all[j] && taken[j] in Elements(taken);
  }

  /** An event that may leave stays only behind a full batch of events that are no younger. */
  lemma OnlyFullBatchesSpare(db: Database, policy: Policy, limit: nat, id: nat)
    requires MayLeave(db, policy, id) && id in Retain(db, policy, limit).canonical
    ensures |RetirementBatch(db, policy, limit)| == limit
    ensures forall other :: other in db.canonical && other !in Retain(db, policy, limit).canonical
              ==> db.canonical[other].ingestedAt <= db.canonical[id].ingestedAt
  {
    EligibleMayLeave(db, policy, id);
    hide IsEligible, MayLeave;
    var all, rank := Ordered(Eligible(db, policy), IngestRank(db)), IngestRank(db);
    OrderedIsComplete(Eligible(db, policy), rank);
    assert id in Elements(all);
    var k :| 0 <= k < |all| && all[k] == id;
    LeftBehind(all, limit, k);
    forall other | other in Elements(RetirementBatch(db, policy, limit))
      ensures other in db.canonical && db.canonical[other].ingestedAt <= db.canonical[id].ingestedAt
    {
      var j :| 0 <= j < |Take(all, limit)| && Take(all, limit)[j] == other;
      OrderedIsSorted(Eligible(db, policy), rank, j, k);
    }
    hide Ordered, Keep, StaleMatches, Tombstones, Eligible;
  }

  /**
   One batch removes at most `limit` events, each of them old, published and projected, neither a football
   event of a protected match nor the last event of a match row that is recent or protected; each leaves
   its key in a tombstone.
   */
  lemma RetentionSparesTheRest(db: Database, policy: Policy, limit: nat, id: nat)
    requires KeysDistinct(db) && id in db.canonical && id !in Retain(db, policy, limit).canonical
    ensures MayLeave(db, policy, id)
    ensures Tombstoned(Retain(db, policy, limit), db.canonical[id].key)
    ensures |db.canonical.Keys - Retain(db, policy, limit).canonical.Keys| <= limit
  {
    var batch := RetirementBatch(db, policy, limit);
    var ids := Elements(batch);
    BatchIsEligible(db, policy, limit);
    EachLeavesATombstone(db, ids);
    assert |batch| <= limit;
    FewElements(batch);
    EligibleMayLeave(db, policy, id);
    hide RetirementBatch, MayLeave, IsEligible, Keep, StaleMatches, Elements, KeysDistinct;
    assert id in ids && IsEligible(db, policy, id);
    var after := Retain(db, policy, limit);
    assert id in after.retired && after.retired[id] == db.canonical[id].key;
    Smaller(db.canonical.Keys - after.canonical.Keys, ids);
  }

  lemma {:induction false} FewElements(s: seq<nat>)
    ensures |Elements(s)| <= |s|
  {
    if |s| > 0 {
      FewElements(s[1..]);
      assert Elements(s) == {s[0]} + Elements(s[1..]);
    }
  }

  /**
   A batch prunes a match row exactly when it takes the event the row rests on and leaves no football event
   of the match, of which there was one; such a row is old, does not play and is not the active match.
   */
  lemma RowsGoWithTheirMatch(db: Database, policy: Policy, limit: nat, m: nat)
    requires m in db.matches
    ensures var after := Retain(db, policy, limit);
      m !in after.matches
      <==> && db.matches[m].lastEvent in db.canonical && db.matches[m].lastEvent !in after.canonical
           && (exists id :: id in db.canonical && IsOf(db.canonical[id], m))
           && (forall id :: id in after.canonical ==> !IsOf(after.canonical[id], m))
    ensures m !in Retain(db, policy, limit).matches
      ==> db.matches[m].updatedAt < policy.cutoff && !PlaysNow(db, m) && policy.active != Some(m)
  {
    var ids, last := Elements(RetirementBatch(db, policy, limit)), db.matches[m].lastEvent;
    var after := Retain(db, policy, limit);
    BatchIsEligible(db, policy, limit);
    EligibleMayLeave(db, policy, last);
    assert last in ids ==> last in Eligible(db, policy) && ids <= db.canonical.Keys;
    assert m in Protected(db, policy) <==> PlaysNow(db, m) || policy.active == Some(m);
    hide RetirementBatch, Elements, Eligible, IsEligible, Keep, Tombstones, Protected, PlaysNow;
    assert last in ids ==> m !in Protected(db, policy) && db.matches[m].updatedAt < policy.cutoff;
    hide MayLeave;
    assert forall id :: id in MatchEventsOf(db, m) <==> id in db.canonical && IsOf(db.canonical[id], m);
    hide MatchEventsOf, IsOf;
    assert m !in Retain(db, policy, limit).matches <==> m in StaleMatches(db, policy, ids);
    assert m in StaleMatches(db, policy, ids) <==> last in ids && MatchEventsOf(db, m) != {} && MatchEventsOf(db, m) <= ids;
    hide StaleMatches;
    assert MatchEventsOf(db, m) != {} <==> exists id :: id in MatchEventsOf(db, m);
    assert forall id :: id in after.canonical <==> id in db.canonical && id !in ids;
    assert forall id :: id in after.canonical ==> after.canonical[id] == db.canonical[id];
    assert MatchEventsOf(db, m) <= ids <==> forall id :: id in after.canonical ==> !IsOf(after.canonical[id], m);
    assert last in ids <==> last in db.canonical && last !in after.canonical;
  }

  predicate IsOf(event: Envelope, subject: nat) {
    event.football.Some? && event.subject == subject
  }

  /** In a reachable store the side conditions hold. */
  lemma ReachableBatchesAgree(db: Database, past: Past, policy: Policy, limit: nat)
    requires limit > 0 && StoreOk(db, past)
    ensures SameEvents(RunRetention(db, policy, limit), Retain(db, policy, |Eligible(db, policy)|))
    ensures Eligible(RunRetention(db, policy, limit), policy) == {}
  {
    KeepTwice(past.applied, db.canonical.Keys, db.canonical.Keys);
    assert db.canonical.Keys * db.canonical.Keys == db.canonical.Keys;
    hide Keep, Registered, OutboxMatches, MatchesFold, KeysDistinct, Eligible;
    BatchesRetireTheSameEvents(db, policy, limit);
  }

  // ---------------------------------------------------------------- the match rows that leave

  function RetirementOrder(db: Database, policy: Policy): seq<nat> {
    Ordered(Eligible(db, policy), IngestRank(db))
  }

  /** What the first `batches` batches retire. */
  function Upto(order: seq<nat>, limit: nat, batches: nat): seq<nat> {
    Take(order, batches * limit)
  }

  lemma UptoGrows(order: seq<nat>, limit: nat, batches: nat)
    ensures Upto(order, limit, batches) <= Upto(order, limit, batches + 1)
    ensures |Upto(order, limit, batches)| <= |Upto(order, limit, batches + 1)|
  {
    assert (batches + 1) * limit == batches * limit + limit;
  }

  function Batch(order: seq<nat>, limit: nat, i: nat): seq<nat> {
    UptoGrows(order, limit, i);
    Upto(order, limit, i + 1)[|Upto(order, limit, i)|..]
  }

  /** Batch `i` takes `last` and also the last of `events`. */
  predicate LeaveIn(order: seq<nat>, limit: nat, events: set<nat>, last: nat, i: nat) {
    && last in Batch(order, limit, i)
    && events <= Elements(Upto(order, limit, i + 1))
    && !(events <= Elements(Upto(order, limit, i)))
  }

  ghost predicate LeaveTogether(order: seq<nat>, limit: nat, events: set<nat>, last: nat) {
    exists i: nat :: LeaveIn(order, limit, events, last, i)
  }

  predicate Stale(db: Database, policy: Policy, subject: nat) {
    subject in db.matches && db.matches[subject].updatedAt < policy.cutoff && subject !in Protected(db, policy)
  }

  lemma UptoShifts(order: seq<nat>, limit: nat, i: nat)
    ensures var first := Take(order, limit); var rest := order[|first|..];
      Upto(order, limit, i + 1) == first + Upto(rest, limit, i)
  {
    assert (i + 1) * limit == i * limit + limit;
  }

  lemma LeaveInShifts(order: seq<nat>, limit: nat, events: set<nat>, last: nat, i: nat)
    ensures var first := Take(order, limit);
      LeaveIn(order, limit, events, last, i + 1)
      <==> LeaveIn(order[|first|..], limit, events - Elements(first), last, i)
  {
    var first := Take(order, limit);
    var rest := order[|first|..];
    UptoShifts(order, limit, i);
    UptoShifts(order, limit, i + 1);
    ElementsConcat(first, Upto(rest, limit, i));
    ElementsConcat(first, Upto(rest, limit, i + 1));
    UptoGrows(order, limit, i + 1);
    UptoGrows(rest, limit, i);
    hide Upto, Take, Elements;
    assert Batch(order, limit, i + 1) == Batch(rest, limit, i);
  }

  lemma LeaveInFirst(order: seq<nat>, limit: nat, events: set<nat>, last: nat)
    ensures var first := Take(order, limit);
      LeaveIn(order, limit, events, last, 0) <==> last in first && events != {} && events <= Elements(first)
  {
    assert Upto(order, limit, 0) == [] && Elements([]) == {};
    assert Upto(order, limit, 1) == Take(order, limit);
  }

  lemma LeavesLater(order: seq<nat>, limit: nat, events: set<nat>, last: nat, i: nat)
    requires var first := Take(order, limit); LeaveIn(order[|first|..], limit, events - Elements(first), last, i)
    ensures LeaveTogether(order, limit, events, last)
  {
    LeaveInShifts(order, limit, events, last, i);
    hide LeaveIn, Take, Elements;
    assert LeaveIn(order, limit, events, last, i + 1);
  }

  lemma LeavesNowOrLater(order: seq<nat>, limit: nat, events: set<nat>, last: nat, i: nat)
    requires LeaveIn(order, limit, events, last, i)
    ensures var first := Take(order, limit);
      LeaveIn(order, limit, events, last, 0) || LeaveTogether(order[|first|..], limit, events - Elements(first), last)
  {
    var first := Take(order, limit);
    if i > 0 {
      LeaveInShifts(order, limit, events, last, i - 1);
      hide LeaveIn, Take, Elements;
      assert LeaveIn(order[|first|..], limit, events - Elements(first), last, i - 1);
    }
  }

  lemma LeaveTogetherShifts(order: seq<nat>, limit: nat, events: set<nat>, last: nat)
    ensures var first := Take(order, limit);
      LeaveTogether(order, limit, events, last)
      <==> (last in first && events != {} && events <= Elements(first))
           || LeaveTogether(order[|first|..], limit, events - Elements(first), last)
  {
    var first := Take(order, limit);
    var rest := order[|first|..];
    var others := events - Elements(first);
    LeaveInFirst(order, limit, events, last);
    hide LeaveIn, Take, Elements;
    if LeaveTogether(order, limit, events, last) {
      var i: nat :| LeaveIn(order, limit, events, last, i);
      LeavesNowOrLater(order, limit, events, last, i);
    }
    if LeaveTogether(rest, limit, others, last) {
      var i: nat :| LeaveIn(rest, limit, others, last, i);
      LeavesLater(order, limit, events, last, i);
    }
  }

  lemma ElementsConcat(a: seq<nat>, b: seq<nat>)
    ensures Elements(a + b) == Elements(a) + Elements(b)
  {
    assert forall x :: x in a + b <==> x in a || x in b;
  }

  lemma {:induction false} MatchesOnlyShrink(db: Database, policy: Policy, limit: nat, subject: nat)
    requires limit > 0 && subject !in db.matches
    ensures subject !in RunRetention(db, policy, limit).matches
    decreases |Eligible(db, policy)|
  {
    hide Eligible, StaleMatches, Keep, Tombstones, RetirementBatch;
    if Eligible(db, policy) != {} {
      BatchShrinks(db, policy, limit);
      MatchesOnlyShrink(Retain(db, policy, limit), policy, limit, subject);
    }
  }

  lemma OrderAfterBatch(db: Database, policy: Policy, limit: nat)
    ensures var first := RetirementBatch(db, policy, limit);
      RetirementOrder(Retain(db, policy, limit), policy) == RetirementOrder(db, policy)[|first|..]
  {
    assert Eligible(db, policy) <= IngestRank(db).Keys;
    var all := Eligible(db, policy);
    var first := RetirementBatch(db, policy, limit);
    var after := Retain(db, policy, limit);
    EligibilityUnmoved(db, policy, Elements(first));
    hide Eligible, Keep, Tombstones, StaleMatches;
    OrderedIsComplete(all, IngestRank(db));
    OrderedRest(all, IngestRank(db), |first|);
    assert first == Ordered(all, IngestRank(db))[..|first|];
    OrderedByRankOnly(Eligible(after, policy), IngestRank(db), IngestRank(after));
  }

  lemma RemainingMatchEvents(db: Database, policy: Policy, ids: set<nat>, subject: nat)
    ensures MatchEventsOf(Retire(db, policy, ids), subject) == MatchEventsOf(db, subject) - ids
  {
    hide Keep, Tombstones, StaleMatches;
  }

  /**
   Whether batches prune a match row does depend on their size: a stale row goes exactly when its last
   event and the last of its remaining football events leave in one batch. Otherwise it stays behind.
   */
  lemma {:induction false} RowsLeaveWithTheirLastEvent(db: Database, policy: Policy, limit: nat, subject: nat)
    requires limit > 0 && subject in db.matches
    ensures
      subject !in RunRetention(db, policy, limit).matches
      <==> Stale(db, policy, subject)
           && LeaveTogether(RetirementOrder(db, policy), limit, MatchEventsOf(db, subject), db.matches[subject].lastEvent)
    decreases |Eligible(db, policy)|
  {
    var order := RetirementOrder(db, policy);
    var last := db.matches[subject].lastEvent;
    var first := RetirementBatch(db, policy, limit);
    var ids := Elements(first);
    LeaveTogetherShifts(order, limit, MatchEventsOf(db, subject), last);
    if Eligible(db, policy) == {} {
      NothingLeaves(limit, MatchEventsOf(db, subject), last);
      assert order == [];
    } else {
      BatchShrinks(db, policy, limit);
      var next := Retain(db, policy, limit);
      assert subject !in next.matches <==> subject in StaleMatches(db, policy, ids);
      ProtectionUnmoved(db, policy, ids);
      OrderAfterBatch(db, policy, limit);
      RemainingMatchEvents(db, policy, ids, subject);
      hide Eligible, Keep, Tombstones, RetirementOrder, LeaveTogether, Protected, MatchEventsOf;
      if subject in next.matches {
        RowsLeaveWithTheirLastEvent(next, policy, limit, subject);
      } else {
        MatchesOnlyShrink(next, policy, limit, subject);
      }
    }
  }

  lemma NothingLeaves(limit: nat, events: set<nat>, last: nat)
    ensures !LeaveTogether([], limit, events, last)
  {
  }

  // ---------------------------------------------------------------- a row left behind

  function OldEvent(id: nat, kind: EventType): Envelope {
    Envelope(id, FixtureKey(7, ProviderKey(id)), 7, id,
             Some(MatchEvent(kind, id, FulltimeKey, 90, None, Some(Home), Score(0, 0))))
  }

  /** A finished match: full time is event 1, and event 2 is a late goal that the projection ignored. */
  function LateGoalStore(): Database {
    var one, two := OldEvent(1, Fulltime), OldEvent(2, Goal);
    Database(
      map[1 := one, 2 := two],
      map[1 := OutboxRow(one, Some(2), None, 0), 2 := OutboxRow(two, Some(2), None, 0)], 3,
      {1, 2}, [Entry(1, one), Entry(2, two)], 3,
      map[7 := MatchRow(MatchState(Score(0, 0), Finished, 90, FinishedPhase, 1), 1, 2)], map[])
  }

  lemma LateGoalEligible()
    ensures var db, policy := LateGoalStore(), Policy(10, None);
      Protected(db, policy) == {} && Eligible(db, policy) == {1, 2}
  {
    var db, policy := LateGoalStore(), Policy(10, None);
    assert Protected(db, policy) == {};
    assert LastStateEvents(db, policy) == {};
    assert db.outbox[1].envelope.id == 1 && db.outbox[2].envelope.id == 2;
    assert Published(db, 1) && Published(db, 2);
    hide Published, Protected, LastStateEvents;
  }

  lemma LateGoalOrder()
    ensures RetirementOrder(LateGoalStore(), Policy(10, None)) == [1, 2]
    ensures MatchEventsOf(LateGoalStore(), 7) == {1, 2}
    ensures Stale(LateGoalStore(), Policy(10, None), 7)
  {
    var db, policy := LateGoalStore(), Policy(10, None);
    LateGoalEligible();
    hide Eligible;
    OrderedIsComplete({1, 2}, IngestRank(db));
    OrderedIsSorted({1, 2}, IngestRank(db), 0, 1);
  }

  /** Batches of one event leave the row of this match behind; one batch of two removes it. */
  lemma SmallBatchesMayKeepARow()
    ensures 7 in RunRetention(LateGoalStore(), Policy(10, None), 1).matches
    ensures 7 !in RunRetention(LateGoalStore(), Policy(10, None), 2).matches
  {
    var db, policy := LateGoalStore(), Policy(10, None);
    LateGoalOrder();
    hide RetirementOrder, RunRetention, LeaveTogether, MatchEventsOf;
    RowsLeaveWithTheirLastEvent(db, policy, 1, 7);
    RowsLeaveWithTheirLastEvent(db, policy, 2, 7);
    assert Take([1, 2], 1) == [1] && [1, 2][1..] == [2] && Elements([1]) == {1} && {1, 2} - {1} == {2};
    LeaveTogetherShifts([1, 2], 1, {1, 2}, 1);
    assert Take([2], 1) == [2] && [2][1..] == [] && Elements([2]) == {2} && {2} - {2} == {};
    LeaveTogetherShifts([2], 1, {2}, 1);
    NothingLeaves(1, {}, 1);
    assert Take([1, 2], 2) == [1, 2] && Elements([1, 2]) == {1, 2};
    LeaveTogetherShifts([1, 2], 2, {1, 2}, 1);
  }
}
