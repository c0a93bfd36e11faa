/**
 The pipeline's services as they run, on mutable tables: the ingestion insert, the publisher's claim
 and delivery loop, the projector's batch loop and the retention batch. Each is proved to be a
 sequence of steps of the state machine in `Pipeline`.
 */
module PipelineRuntime {
  import opened Common
  import opened MatchEvents
  import opened MatchReducer
  import opened Ordering
  import opened EventStore
  import opened EventInvariants
  import opened Pipeline
  import OutboxClaims
  import RetentionBatches

  /** How the broker and the marking transaction answer for one claimed row. */
  datatype Delivery =
    | Delivered(partition: nat, at: int)
    | SendFailed
    | AcknowledgedThenFailed(partition: nat)

  predicate Deliverable(s: System, delivery: Delivery) {
    delivery.SendFailed? || delivery.partition < |s.log|
  }

  predicate AllDeliverable(s: System, deliveries: seq<Delivery>) {
    forall i :: 0 <= i < |deliveries| ==> Deliverable(s, deliveries[i])
  }

  /** The state after one claimed row has been dealt with. */
  function AfterDelivery(s: System, delivery: Delivery): System
    requires Shaped(s) && s.claims != [] && !s.sent && Deliverable(s, delivery)
    ensures Shaped(AfterDelivery(s, delivery)) && !AfterDelivery(s, delivery).sent
    ensures |AfterDelivery(s, delivery).claims| == |s.claims| - 1 && |AfterDelivery(s, delivery).log| == |s.log|
  {
    match delivery
    case Delivered(p, at) => Next(Next(s, SendStep(p)), MarkStep(at))
    case SendFailed => Next(s, FailStep)
    case AcknowledgedThenFailed(p) => Next(Next(s, SendStep(p)), FailStep)
  }

  function AfterDeliveries(s: System, deliveries: seq<Delivery>): System
    requires Shaped(s) && !s.sent && |deliveries| <= |s.claims|
    requires AllDeliverable(s, deliveries)
    ensures var t := AfterDeliveries(s, deliveries);
      Shaped(t) && !t.sent && |t.claims| == |s.claims| - |deliveries| && |t.log| == |s.log|
  {
    if |deliveries| == 0 then s
    else
      var last := deliveries[|deliveries| - 1];
      AfterDelivery(AfterDeliveries(s, deliveries[..|deliveries| - 1]), last)
  }

  lemma DeliveryKeepsSystem(s: System, delivery: Delivery)
    requires SystemOk(s) && s.claims != [] && !s.sent && Deliverable(s, delivery)
    ensures SystemOk(AfterDelivery(s, delivery))
  {
    hide StoreOk, RecordsIssued, ClaimsFit, ConsumerOk, PublisherOk;
    match delivery
    case Delivered(p, at) =>
      StepsKeepSystem(s, SendStep(p));
      StepsKeepSystem(Next(s, SendStep(p)), MarkStep(at));
    case SendFailed => StepsKeepSystem(s, FailStep);
    case AcknowledgedThenFailed(p) =>
      StepsKeepSystem(s, SendStep(p));
      StepsKeepSystem(Next(s, SendStep(p)), FailStep);
  }

  lemma {:induction false} DeliveriesKeepSystem(s: System, deliveries: seq<Delivery>)
    requires SystemOk(s) && !s.sent && |deliveries| <= |s.claims|
    requires AllDeliverable(s, deliveries)
    ensures SystemOk(AfterDeliveries(s, deliveries))
  {
    if |deliveries| > 0 {
      var n := |deliveries| - 1;
      DeliveriesKeepSystem(s, deliveries[..n]);
      hide SystemOk;
      DeliveryKeepsSystem(AfterDeliveries(s, deliveries[..n]), deliveries[n]);
    }
  }

  lemma {:induction false} ClaimsAreFew(db: Database, rows: seq<nat>)
    ensures |Claims(db, rows)| <= |rows|
  {
    if |rows| > 0 {
      ClaimsAreFew(db, rows[1..]);
    }
  }

  function CountDelivered(deliveries: seq<Delivery>): nat {
    if |deliveries| == 0 then 0
    else CountDelivered(deliveries[..|deliveries| - 1]) + (if deliveries[|deliveries| - 1].Delivered? then 1 else 0)
  }

  /** The records that go to partition `p`, in the order of the claims. */
  function RecordsFor(claims: seq<Claim>, deliveries: seq<Delivery>, p: nat): seq<Envelope>
    requires |deliveries| <= |claims|
  {
    if |deliveries| == 0 then []
    else
      var n := |deliveries| - 1;
      RecordsFor(claims, deliveries[..n], p)
      + if !deliveries[n].SendFailed? && deliveries[n].partition == p then [claims[n].envelope] else []
  }

  /** What one answer leaves of a claimed row. */
  predicate RowAfter(before: OutboxRow, after: OutboxRow, delivery: Delivery) {
    && after.envelope == before.envelope
    && match delivery
       case Delivered(_, at) =>
         if before.publishedAt.None? then after.publishedAt == Some(at) && after.claimedAt.None? && after.attempts == before.attempts
         else after == before
       case SendFailed | AcknowledgedThenFailed(_) =>
         after.publishedAt == before.publishedAt && after.claimedAt.None? && after.attempts == before.attempts + 1
  }

  predicate RowsApart(claims: seq<Claim>) {
    forall i, j :: 0 <= i < j < |claims| ==> claims[i].row != claims[j].row
  }

  /** Rows that were not dealt with are as they were; the others are left as their answers say. */
  ghost predicate RowsTold(s: System, deliveries: seq<Delivery>, outbox: map<nat, OutboxRow>)
    requires |deliveries| <= |s.claims|
  {
    && outbox.Keys == s.db.outbox.Keys
    && (forall row :: row in s.db.outbox && (forall i :: 0 <= i < |deliveries| ==> s.claims[i].row != row)
                      ==> outbox[row] == s.db.outbox[row])
    && (forall i :: 0 <= i < |deliveries| && s.claims[i].row in s.db.outbox
                    ==> RowAfter(s.db.outbox[s.claims[i].row], outbox[s.claims[i].row], deliveries[i]))
  }

  lemma RowTold(s: System, deliveries: seq<Delivery>, outbox: map<nat, OutboxRow>, after: map<nat, OutboxRow>)
    requires 0 < |deliveries| <= |s.claims| && RowsApart(s.claims)
    requires RowsTold(s, deliveries[..|deliveries| - 1], outbox)
    requires var n := |deliveries| - 1; var row := s.claims[n].row;
      && after.Keys == outbox.Keys && (forall r :: r in outbox && r != row ==> after[r] == outbox[r])
      && (row in outbox ==> RowAfter(outbox[row], after[row], deliveries[n]))
    ensures RowsTold(s, deliveries, after)
  {
    hide RowAfter;
    var n := |deliveries| - 1;
    forall i | 0 <= i < n ensures deliveries[..n][i] == deliveries[i] && s.claims[i].row != s.claims[n].row {}
  }

  lemma OneRowTold(s: System, delivery: Delivery)
    requires Shaped(s) && s.claims != [] && !s.sent && Deliverable(s, delivery)
    ensures var outbox, after, row := s.db.outbox, AfterDelivery(s, delivery).db.outbox, s.claims[0].row;
      && AfterDelivery(s, delivery).db == s.db.(outbox := after)
      && after.Keys == outbox.Keys && (forall r :: r in outbox && r != row ==> after[r] == outbox[r])
      && (row in outbox ==> RowAfter(outbox[row], after[row], delivery))
  {
    DeliveryIs(s, delivery);
    hide AfterDelivery, Next, Enabled, Shaped, Deliverable;
  }

  /**
   What a pass leaves behind: each claimed row is published at the time of its mark, or open again with one
   more attempt; all other rows are as they were; each partition has got its records in the order of the claims.
   */
  lemma {:induction false} PassIsTold(s: System, deliveries: seq<Delivery>)
    requires Shaped(s) && !s.sent && |deliveries| <= |s.claims| && AllDeliverable(s, deliveries) && RowsApart(s.claims)
    ensures var t := AfterDeliveries(s, deliveries);
      && t.claims == s.claims[|deliveries|..] && t.db == s.db.(outbox := t.db.outbox)
      && RowsTold(s, deliveries, t.db.outbox)
      && forall p :: 0 <= p < |s.log| ==> t.log[p] == s.log[p] + RecordsFor(s.claims, deliveries, p)
  {
    if |deliveries| > 0 {
      hide AfterDelivery, Next, Enabled, Shaped, RowsTold, RowsApart;
      var n := |deliveries| - 1;
      var before := AfterDeliveries(s, deliveries[..n]);
      PassIsTold(s, deliveries[..n]);
      assert before.claims[0] == s.claims[n] && before.claims[1..] == s.claims[n + 1..];
      assert Deliverable(before, deliveries[n]);
      OneRowTold(before, deliveries[n]);
      RowTold(s, deliveries, before.db.outbox, AfterDelivery(before, deliveries[n]).db.outbox);
      DeliveryIs(before, deliveries[n]);
      hide MarkPublished, MarkFailed;
    } else {
      NothingTold(s);
    }
  }

  lemma NothingTold(s: System)
    ensures RowsTold(s, [], s.db.outbox)
  {
  }

  /** The claims of one pass are for rows of their own. */
  lemma {:induction false} ClaimsAreApart(db: Database, rows: seq<nat>)
    requires NoRepeats(rows)
    ensures RowsApart(Claims(db, rows)) && forall c :: c in Claims(db, rows) ==> c.row in rows
  {
    if |rows| > 0 {
      ClaimsAreApart(db, rows[1..]);
      var rest := Claims(db, rows[1..]);
      forall i | 0 <= i < |rest| ensures rest[i].row != rows[0] {
        assert rest[i] in rest && rows[0] !in rows[1..];
      }
    }
  }

  ghost function DeliveredAt(deliveries: seq<Delivery>): set<nat> {
    set i: nat | i < |deliveries| && deliveries[i].Delivered?
  }

  lemma {:induction false} DeliveredAreCounted(deliveries: seq<Delivery>)
    ensures CountDelivered(deliveries) == |DeliveredAt(deliveries)|
  {
    if |deliveries| > 0 {
      var n := |deliveries| - 1;
      DeliveredAreCounted(deliveries[..n]);
      assert DeliveredAt(deliveries) == DeliveredAt(deliveries[..n]) + if deliveries[n].Delivered? then {n} else {};
    } else {
      assert DeliveredAt(deliveries) == {};
    }
  }

  const DAY_SECONDS := 86400

  datatype RetentionError = RetentionTooShort | BatchNotPositive

  datatype Report = Report(
    eligibleEvents: nat, timelineRows: nat, inactiveMatches: nat,
    removedTimelineRows: nat, removedInactiveMatches: nat, counts: Counts)

  datatype Counts = Counts(
    protectedActive: nat, deferredUnpublished: nat, deferredUnprojected: nat, retainedLast: nat)

  function CountsOf(db: Database, policy: Policy): Counts {
    Counts(|ProtectedActive(db, policy)|, |DeferredUnpublished(db, policy)|, |DeferredUnprojected(db, policy)|,
           |RetainedLast(db, policy)|)
  }

  function ReportOf(db: Database, policy: Policy, limit: nat, dryRun: bool): Report {
    var ids := RetirementBatch(db, policy, limit);
    var entries, stale := |Keep(db.timeline, Elements(ids))|, |StaleMatches(db, policy, Elements(ids))|;
    Report(|ids|, entries, stale, if dryRun then 0 else entries, if dryRun then 0 else stale, CountsOf(db, policy))
  }

  /** The numbers of the report are what the batch takes from the tables, or would take. */
  lemma ReportTellsTheBatch(db: Database, policy: Policy, limit: nat, dryRun: bool)
    requires forall e :: e in db.timeline ==> e.envelope.id in db.canonical
    ensures var r, after := ReportOf(db, policy, limit, dryRun), Retain(db, policy, limit);
      && r.eligibleEvents == |db.canonical.Keys - after.canonical.Keys|
      && r.timelineRows == |db.timeline| - |after.timeline|
      && r.inactiveMatches == |db.matches.Keys - after.matches.Keys|
      && r.removedTimelineRows == (if dryRun then 0 else r.timelineRows)
      && r.removedInactiveMatches == (if dryRun then 0 else r.inactiveMatches)
  {
    hide RetirementBatch, Elements, Keep, Tombstones, StaleMatches, CountsOf, Retain;
    EventsTaken(db, policy, limit);
    EntriesTaken(db, policy, limit);
    RowsTaken(db, policy, limit);
  }

  lemma EventsTaken(db: Database, policy: Policy, limit: nat)
    ensures |RetirementBatch(db, policy, limit)| == |db.canonical.Keys - Retain(db, policy, limit).canonical.Keys|
  {
    BatchHasNoRepeats(db, policy, limit);
    ElementsCount(RetirementBatch(db, policy, limit));
    hide RetirementBatch, Elements, Keep, Tombstones, StaleMatches;
    assert db.canonical.Keys - Retain(db, policy, limit).canonical.Keys == Elements(RetirementBatch(db, policy, limit));
  }

  lemma EntriesTaken(db: Database, policy: Policy, limit: nat)
    requires forall e :: e in db.timeline ==> e.envelope.id in db.canonical
    ensures |Keep(db.timeline, Elements(RetirementBatch(db, policy, limit)))|
            == |db.timeline| - |Retain(db, policy, limit).timeline|
  {
    var ids := Elements(RetirementBatch(db, policy, limit));
    TimelineSplits(db.timeline, ids, db.canonical.Keys - ids);
    hide RetirementBatch, Elements, Keep, Tombstones, StaleMatches;
  }

  lemma RowsTaken(db: Database, policy: Policy, limit: nat)
    ensures |StaleMatches(db, policy, Elements(RetirementBatch(db, policy, limit)))|
            == |db.matches.Keys - Retain(db, policy, limit).matches.Keys|
  {
    var ids := Elements(RetirementBatch(db, policy, limit));
    StaleAreRows(db, policy, ids);
    hide RetirementBatch, Elements, Keep, Tombstones, StaleMatches;
    assert db.matches.Keys - Retain(db, policy, limit).matches.Keys == StaleMatches(db, policy, ids);
  }

  lemma StaleAreRows(db: Database, policy: Policy, ids: set<nat>)
    ensures StaleMatches(db, policy, ids) <= db.matches.Keys
  {
  }

  lemma BatchHasNoRepeats(db: Database, policy: Policy, limit: nat)
    ensures NoRepeats(RetirementBatch(db, policy, limit)) && Elements(RetirementBatch(db, policy, limit)) <= db.canonical.Keys
  {
    var all := Ordered(Eligible(db, policy), IngestRank(db));
    OrderedIsComplete(Eligible(db, policy), IngestRank(db));
    forall i, j | 0 <= i < j < |all| ensures all[i] != all[j] {
      OrderedIsSorted(Eligible(db, policy), IngestRank(db), i, j);
    }
    forall id | id in RetirementBatch(db, policy, limit) ensures id in db.canonical {
      assert id in Elements(all);
    }
  }

  lemma {:induction false} TimelineSplits(entries: seq<Entry>, ids: set<nat>, kept: set<nat>)
    requires forall e :: e in entries ==> (e.envelope.id in kept <==> e.envelope.id !in ids)
    ensures |Keep(entries, ids)| + |Keep(entries, kept)| == |entries|
  {
    if |entries| > 0 { TimelineSplits(entries[..|entries| - 1], ids, kept); }
  }

  /** Each of the four counts, by the tables alone. */
  lemma CountsSayWhy(db: Database, policy: Policy)
    ensures CountsOf(db, policy).protectedActive
      == |set id | id in db.canonical && db.canonical[id].ingestedAt < policy.cutoff && db.canonical[id].football.Some?
            && (RetentionBatches.PlaysNow(db, db.canonical[id].subject) || policy.active == Some(db.canonical[id].subject))|
    ensures CountsOf(db, policy).deferredUnpublished
      == |set id | id in db.canonical && db.canonical[id].ingestedAt < policy.cutoff && !WentOut(db, id)|
    ensures CountsOf(db, policy).deferredUnprojected
      == |set id | id in db.canonical && db.canonical[id].ingestedAt < policy.cutoff && WentOut(db, id) && id !in db.processed|
    ensures CountsOf(db, policy).retainedLast
      == |set id | id in db.canonical && db.canonical[id].ingestedAt < policy.cutoff && HoldsUp(db, policy, id)|
  {
    assert forall m :: m in Protected(db, policy) <==> RetentionBatches.PlaysNow(db, m) || policy.active == Some(m);
    hide Protected, RetentionBatches.PlaysNow;
    forall id ensures HoldsUp(db, policy, id) <==> id in LastStateEvents(db, policy) {}
    hide LastStateEvents, HoldsUp;
    forall id ensures WentOut(db, id) <==> Published(db, id) {}
    hide Published, WentOut;
    assert ProtectedActive(db, policy)
      == set id | id in db.canonical && db.canonical[id].ingestedAt < policy.cutoff && db.canonical[id].football.Some?
            && (RetentionBatches.PlaysNow(db, db.canonical[id].subject) || policy.active == Some(db.canonical[id].subject));
    assert DeferredUnpublished(db, policy)
      == set id | id in db.canonical && db.canonical[id].ingestedAt < policy.cutoff && !WentOut(db, id);
    assert DeferredUnprojected(db, policy)
      == set id | id in db.canonical && db.canonical[id].ingestedAt < policy.cutoff && WentOut(db, id) && id !in db.processed;
    assert RetainedLast(db, policy)
      == set id | id in db.canonical && db.canonical[id].ingestedAt < policy.cutoff && HoldsUp(db, policy, id);
  }

  predicate WentOut(db: Database, id: nat) {
    exists r :: r in db.outbox && db.outbox[r].envelope.id == id && db.outbox[r].publishedAt.Some?
  }

  /** The event is the last of a match row that is recent, active or in play. */
  predicate HoldsUp(db: Database, policy: Policy, id: nat) {
    exists m :: m in db.matches && db.matches[m].lastEvent == id
                && (db.matches[m].updatedAt >= policy.cutoff || RetentionBatches.PlaysNow(db, m) || policy.active == Some(m))
  }

  /** Each old event is eligible, or kept back for at least one of the counted reasons, never both. */
  lemma OldEventsAreAccountedFor(db: Database, policy: Policy)
    ensures var kept := ProtectedActive(db, policy) + DeferredUnpublished(db, policy)
                        + DeferredUnprojected(db, policy) + RetainedLast(db, policy);
      && Eligible(db, policy) + kept == OldEvents(db, policy)
      && Eligible(db, policy) !! kept
      && |Eligible(db, policy)| + |kept| == |OldEvents(db, policy)|
    ensures DeferredUnpublished(db, policy) !! DeferredUnprojected(db, policy)
    ensures var counts := CountsOf(db, policy);
      |OldEvents(db, policy)| <= |Eligible(db, policy)| + counts.protectedActive + counts.deferredUnpublished
                                 + counts.deferredUnprojected + counts.retainedLast
  {
    EligibleIsTheRest(db, policy);
    hide Eligible, OldEvents, ProtectedActive, DeferredUnpublished, DeferredUnprojected, RetainedLast;
    var a, u := ProtectedActive(db, policy), DeferredUnpublished(db, policy);
    var p, l := DeferredUnprojected(db, policy), RetainedLast(db, policy);
    UnionIsSmall(a, u);
    UnionIsSmall(a + u, p);
    UnionIsSmall(a + u + p, l);
  }

  lemma EligibleIsTheRest(db: Database, policy: Policy)
    ensures var kept := ProtectedActive(db, policy) + DeferredUnpublished(db, policy)
                        + DeferredUnprojected(db, policy) + RetainedLast(db, policy);
      Eligible(db, policy) + kept == OldEvents(db, policy) && Eligible(db, policy) !! kept
    ensures DeferredUnpublished(db, policy) !! DeferredUnprojected(db, policy)
  {
    hide Published, Protected, LastStateEvents;
    var aged := OldEvents(db, policy);
    forall id
      ensures id in Eligible(db, policy) <==>
              (&& id in aged && id !in ProtectedActive(db, policy) && id !in DeferredUnpublished(db, policy)
               && id !in DeferredUnprojected(db, policy) && id !in RetainedLast(db, policy))
    {
    }
    assert ProtectedActive(db, policy) <= aged && DeferredUnpublished(db, policy) <= aged;
    assert DeferredUnprojected(db, policy) <= aged && RetainedLast(db, policy) <= aged;
    hide Eligible, OldEvents, ProtectedActive, DeferredUnpublished, DeferredUnprojected, RetainedLast;
  }

  lemma UnionIsSmall(a: set<nat>, b: set<nat>)
    ensures |a + b| <= |a| + |b|
  {
    assert a + b == a + (b - a);
    Smaller(b - a, b);
  }

  /** Unpublished, and not claimed within the last thirty seconds. */
  predicate Open(row: OutboxRow, now: int) {
    row.publishedAt.None? && (row.claimedAt.None? || now - row.claimedAt.value > 30)
  }

  class EventPipeline {
    var canonical: map<nat, Envelope>
    var outbox: map<nat, OutboxRow>
    var nextRow: nat
    var processed: set<nat>
    var timeline: seq<Entry>
    var nextCursor: nat
    var matches: map<nat, MatchRow>
    var retired: map<nat, DedupeKey>
    var log: seq<seq<Envelope>>
    var committed: seq<nat>
    var position: seq<nat>
    var batch: seq<Envelope>
    var claims: seq<Claim>
    var sent: bool
    ghost var others: seq<Publisher>
    ghost var past: Past

    ghost function Db(): Database
      reads this
    {
      Database(canonical, outbox, nextRow, processed, timeline, nextCursor, matches, retired)
    }

    ghost function State(): System
      reads this
    {
      System(Db(), past, log, committed, position, batch, claims, sent, others)
    }

    constructor (partitions: nat)
      ensures State() == Initial(partitions)
    {
      canonical, outbox, nextRow, processed := map[], map[], 0, {};
      timeline, nextCursor, matches, retired := [], 0, map[], map[];
      log := seq(partitions, _ => []);
      committed, position := seq(partitions, _ => 0), seq(partitions, _ => 0);
      batch, claims, sent := [], [], false;
      others := [];
      past := NoPast;
    }

    // -------------------------------------------------------------- ingestion

    /** The tombstone lookup, and the constraint that an insert would violate. */
    method Admit(event: Envelope) returns (outcome: PersistResult)
      ensures outcome == PersistOutcome(Db(), event)
    {
      if exists id :: id in retired && retired[id] == event.key {
        return RetiredDuplicate;
      }
      if exists id :: id in canonical && canonical[id].key == event.key {
        return Duplicate;
      }
      outcome := if event.id in canonical then IntegrityFailure else Inserted;
    }

    /** For an event with an id of its own this is the machine's step; otherwise the constraint may be the id's. */
    method PersistEventAndOutbox(event: Envelope) returns (outcome: PersistResult)
      modifies this
      ensures outcome == PersistOutcome(old(Db()), event)
      ensures Db() == Persist(old(Db()), event) && past == PersistPast(old(Db()), old(past), event)
      ensures State() == old(State()).(db := Db(), past := past)
      ensures Shaped(old(State())) && Enabled(old(State()), PersistStep(event))
              ==> State() == Next(old(State()), PersistStep(event))
      ensures outcome.IntegrityFailure? <==> !Taken(old(Db()), event.key) && event.id in old(canonical)
      ensures !outcome.IntegrityFailure? ==> Taken(Db(), event.key)
    {
      hide PersistOutcome, Taken, Next, Enabled, Shaped;
      AdmissionTakesKey(Db(), event);
      outcome := Admit(event);
      if Shaped(State()) && Enabled(State(), PersistStep(event)) { PersistStepIs(State(), event); }
      if outcome.Inserted? { InsertRows(event); }
    }

    method InsertRows(event: Envelope)
      modifies this`canonical, this`outbox, this`nextRow, this`past
      ensures canonical == old(canonical)[event.id := event] && nextRow == old(nextRow) + 1
      ensures outbox == old(outbox)[old(nextRow) := OutboxRow(event, None, None, 0)]
      ensures past == old(past).(issued := old(past).issued[event.id := event], order := old(past).order + [event])
    {
      canonical := canonical[event.id := event];
      outbox := outbox[nextRow := OutboxRow(event, None, None, 0)];
      nextRow := nextRow + 1;
      past := past.(issued := past.issued[event.id := event], order := past.order + [event]);
    }

    // -------------------------------------------------------------- publisher

    /** The rows a pass may claim: pending or with an expired claim, lowest ids first. */
    method SelectRows(now: int, limit: nat) returns (rows: seq<nat>)
      ensures rows == RowsToClaim(Db(), now, limit)
      ensures |rows| <= limit && forall r :: r in rows ==> r in outbox && Open(outbox[r], now)
      ensures forall i, j :: 0 <= i < j < |rows| ==> rows[i] < rows[j]
      ensures forall left :: left in outbox && Open(outbox[left], now) && left !in rows
                             ==> |rows| == limit && forall r :: r in rows ==> r < left
    {
      var pending := set r | r in outbox && outbox[r].publishedAt.None?
                             && (outbox[r].claimedAt.None? || outbox[r].claimedAt.value < now - CLAIM_SECONDS);
      var rank := map r | r in outbox :: 0;
      assert pending == ClaimableRows(Db(), now);
      assert rank == RowRank(Db());
      rows := Take(Ordered(pending, rank), limit);
      OutboxClaims.LowestRowsFirst(Db(), now, limit);
    }

    method ReadClaims(rows: seq<nat>) returns (taken: seq<Claim>)
      ensures taken == EventStore.Claims(Db(), rows)
    {
      taken := [];
      for i := |rows| downto 0
        invariant taken == EventStore.Claims(Db(), rows[i..])
      {
        assert rows[i..][1..] == rows[i + 1..];
        if rows[i] in outbox {
          taken := [Claim(rows[i], outbox[rows[i]].envelope)] + taken;
        }
      }
      assert rows[0..] == rows;
    }

    method ClaimPending(now: int, limit: nat)
      requires Shaped(State()) && Enabled(State(), ClaimStep(now, limit))
      modifies this
      ensures State() == Next(old(State()), ClaimStep(now, limit))
    {
      ClaimStepIs(State(), now, limit);
      hide EventStore.Claims, RowsToClaim, Next, Enabled, Shaped;
      ghost var before := Db();
      var rows := SelectRows(now, limit);
      claims := ReadClaims(rows);
      sent := false;
      outbox := map r | r in outbox :: if r in rows then outbox[r].(claimedAt := Some(now)) else outbox[r];
      assert outbox == ClaimRows(before, now, limit).outbox;
    }

    method Deliver(delivery: Delivery) returns (published: bool)
      requires Shaped(State()) && claims != [] && !sent && Deliverable(State(), delivery)
      modifies this
      ensures State() == AfterDelivery(old(State()), delivery)
      ensures published == delivery.Delivered?
    {
      DeliveryIs(State(), delivery);
      hide Deliverable, AfterDelivery, Next, Enabled, Shaped;
      var claim := claims[0];
      if !delivery.SendFailed? {
        log := log[delivery.partition := log[delivery.partition] + [claim.envelope]];
      }
      published := delivery.Delivered?;
      if published {
        if claim.row in outbox && outbox[claim.row].publishedAt == None {
          outbox := outbox[claim.row := outbox[claim.row].(publishedAt := Some(delivery.at), claimedAt := None)];
        }
      } else if claim.row in outbox {
        var row := outbox[claim.row];
        outbox := outbox[claim.row := row.(attempts := row.attempts + 1, claimedAt := None)];
      }
      claims := claims[1..];
    }

    /** One publisher pass; `deliveries` are the answers it meets, one for each row it may claim. */
    method PublishPendingOnce(now: int, limit: nat, deliveries: seq<Delivery>) returns (published: nat)
      requires Shaped(State()) && claims == [] && |deliveries| >= limit
      requires AllDeliverable(State(), deliveries)
      modifies this
      ensures
        var claimed := Next(old(State()), ClaimStep(now, limit));
        var n := |claimed.claims|;
        && n <= limit
        && State() == AfterDeliveries(claimed, deliveries[..n])
        && claims == []
        && published == |set i: nat | i < n && deliveries[i].Delivered?|
    {
      hide ClaimRows, Claims;
      ClaimPending(now, limit);
      ClaimsAreFew(old(Db()), RowsToClaim(old(Db()), now, limit));
      hide Next, AfterDelivery, AfterDeliveries, RowsToClaim, CountDelivered;
      ghost var met := deliveries[..|claims|];
      DeliveredAreCounted(met);
      assert DeliveredAt(met) == set i: nat | i < |met| && deliveries[i].Delivered?;
      published := DeliverAll(deliveries[..|claims|]);
    }

    method DeliverAll(deliveries: seq<Delivery>) returns (published: nat)
      requires Shaped(State()) && !sent && |deliveries| == |claims| && AllDeliverable(State(), deliveries)
      modifies this
      ensures State() == AfterDeliveries(old(State()), deliveries) && claims == []
      ensures published == CountDelivered(deliveries)
    {
      hide AfterDelivery;
      published := 0;
      ghost var claimed := State();
      for i := 0 to |deliveries|
        invariant State() == AfterDeliveries(claimed, deliveries[..i])
        invariant published == CountDelivered(deliveries[..i])
      {
        assert deliveries[..i + 1][..i] == deliveries[..i];
        var ok := Deliver(deliveries[i]);
        if ok { published := published + 1; }
      }
      assert deliveries[..|deliveries|] == deliveries;
    }

    // -------------------------------------------------------------- projector

    /** The match rows after a football event, or the reducer's error. */
    method ReduceInto(subject: nat, event: MatchEvent, id: nat, now: int)
      returns (rows: Result<map<nat, MatchRow>, ReduceError>)
      ensures rows.Err? <==> Reduce(MatchStateOf(Db(), subject), event).Err?
      ensures rows.Ok? ==>
        forall e: Envelope :: e.id == id && e.subject == subject && e.football == Some(event)
          ==> rows.value == MatchesAfter(Db(), e, now)
    {
      var current := if subject in matches then Some(matches[subject].state) else None;
      assert current == MatchStateOf(Db(), subject);
      var next := ReduceMatchState(current, event);
      hide Reduce;
      if next.Err? {
        return Err(next.error);
      }
      rows := Ok(if Some(next.value) == current then matches
                 else matches[subject := MatchRow(next.value, id, now)]);
    }

    /** True when a new timeline row was committed; an error rolls the transaction back. */
    method ProcessCanonicalEvent(event: Envelope, cursor: nat, now: int) returns (result: Result<bool, ReduceError>)
      modifies this
      ensures State() == old(State()).(db := Project(old(Db()), event, cursor, now),
                                       past := ProjectPast(old(Db()), old(past), event, cursor))
      ensures result.Err? <==> Poisonous(old(Db()), event)
      ensures result.Ok? ==> (result.value <==> Projects(old(Db()), event))
    {
      if event.id !in canonical {
        return Ok(false);
      }
      if event.id in processed {
        return Ok(false);
      }
      hide Reduce, Step;
      var rows := Ok(matches);
      if event.football.Some? {
        rows := ReduceInto(event.subject, event.football.value, event.id, now);
        if rows.Err? {
          return Err(rows.error);
        }
      }
      assert rows.value == MatchesAfter(Db(), event, now);
      hide MatchesAfter;
      Enter(event, cursor, rows.value);
      result := Ok(true);
    }

    method Enter(event: Envelope, cursor: nat, rows: map<nat, MatchRow>)
      modifies this`matches, this`processed, this`timeline, this`nextCursor, this`past
      ensures matches == rows && processed == old(processed) + {event.id}
      ensures timeline == old(timeline) + [Entry(cursor, event)] && nextCursor == cursor + 1
      ensures past == old(past).(applied := old(past).applied + [Entry(cursor, event)])
    {
      matches := rows;
      processed := processed + {event.id};
      timeline := timeline + [Entry(cursor, event)];
      nextCursor := cursor + 1;
      past := past.(applied := past.applied + [Entry(cursor, event)]);
    }

    method FetchPartition(p: nat, count: nat)
      requires Shaped(State()) && Enabled(State(), FetchStep(p, count))
      modifies this`batch, this`position
      ensures State() == Next(old(State()), FetchStep(p, count))
      ensures position == old(position)[p := old(position)[p] + count]
    {
      batch := batch + log[p][position[p]..position[p] + count];
      position := position[p := position[p] + count];
    }

    method ProjectHead(now: int) returns (ok: bool)
      requires Shaped(State()) && batch != []
      modifies this
      ensures State() == Next(old(State()), ProjectStep(old(nextCursor), now))
      ensures log == old(log) && claims == old(claims) && sent == old(sent) && committed == old(committed)
      ensures if ok then position == old(position) && batch == old(batch)[1..] else position == committed && batch == []
    {
      var result := ProcessCanonicalEvent(batch[0], nextCursor, now);
      hide Project, ProjectPast, Poisonous;
      ok := result.Ok?;
      if ok {
        batch := batch[1..];
      } else {
        position, batch := committed, [];
      }
    }

    method Fetch(counts: seq<nat>)
      requires Shaped(State()) && SystemOk(State()) && |counts| == |log|
      requires forall p :: 0 <= p < |log| ==> position[p] + counts[p] <= |log[p]|
      modifies this`batch, this`position
      ensures Shaped(State()) && SystemOk(State())
      ensures |position| == |counts| && forall p :: 0 <= p < |counts| ==> position[p] == old(position)[p] + counts[p]
    {
      hide SystemOk, Next;
      for p := 0 to |counts|
        invariant SystemOk(State()) && Shaped(State())
        invariant |position| == |counts|
        invariant forall q :: 0 <= q < |counts| ==> position[q] == old(position)[q] + if q < p then counts[q] else 0
      {
        StepsKeepSystem(State(), FetchStep(p, counts[p]));
        FetchPartition(p, counts[p]);
        OkIsShaped(State());
      }
    }

    /** One turn of the consume loop: fetch from every partition, project record by record, then commit. */
    method ProjectorRound(counts: seq<nat>, now: int) returns (ok: bool)
      requires Shaped(State()) && SystemOk(State()) && batch == [] && committed == position && |counts| == |log|
      requires forall p :: 0 <= p < |log| ==> position[p] + counts[p] <= |log[p]|
      modifies this
      ensures SystemOk(State()) && batch == [] && committed == position
      ensures log == old(log) && claims == old(claims) && sent == old(sent)
      ensures ok ==> |committed| == |counts| && forall p :: 0 <= p < |counts| ==> committed[p] == old(position)[p] + counts[p]
      ensures !ok ==> committed == old(committed)
    {
      hide SystemOk, Next;
      Fetch(counts);
      ok := true;
      while batch != []
        invariant ok && SystemOk(State()) && Shaped(State())
        invariant log == old(log) && claims == old(claims) && sent == old(sent) && committed == old(committed)
        invariant |position| == |counts| && forall p :: 0 <= p < |counts| ==> position[p] == old(position)[p] + counts[p]
        decreases |batch|
      {
        StepsKeepSystem(State(), ProjectStep(nextCursor, now));
        ok := ProjectHead(now);
        if !ok {
          return;
        }
        OkIsShaped(State());
      }
      CommitKeepsSystem(State());
      committed := position;
    }

    // -------------------------------------------------------------- retention

    /** The ids of one batch: old, published, projected and unprotected events, oldest first. */
    method SelectRetired(policy: Policy, limit: nat) returns (ids: seq<nat>)
      ensures ids == RetirementBatch(Db(), policy, limit)
    {
      var live := set m | m in matches && (matches[m].state.status.Live? || matches[m].state.status.Interval?);
      var guarded := live + (if policy.active.Some? then {policy.active.value} else {});
      var lastEvents := set m | m in matches && (matches[m].updatedAt >= policy.cutoff || m in guarded)
        :: matches[m].lastEvent;
      var published := set r | r in outbox && outbox[r].publishedAt.Some? :: outbox[r].envelope.id;
      var eligible := set id | id in canonical && canonical[id].ingestedAt < policy.cutoff && id in published
                               && id in processed && id !in lastEvents
                               && (canonical[id].football.None? || canonical[id].subject !in guarded);
      var rank := map id | id in canonical :: canonical[id].ingestedAt;
      assert guarded == Protected(Db(), policy);
      assert lastEvents == LastStateEvents(Db(), policy);
      forall id ensures id in published <==> Published(Db(), id) {
        if Published(Db(), id) {
          var r :| r in outbox && outbox[r].envelope.id == id && outbox[r].publishedAt.Some?;
        }
      }
      hide Protected, LastStateEvents, Published;
      assert eligible == Eligible(Db(), policy);
      assert rank == IngestRank(Db());
      ids := Take(Ordered(eligible, rank), limit);
    }

    method GroupBySubject(candidates: set<nat>) returns (bySubject: map<nat, set<nat>>)
      ensures bySubject.Keys == candidates
      ensures forall m :: m in candidates ==> bySubject[m] == MatchEventsOf(Db(), m)
    {
      hide MatchEventsOf, Ordered;
      bySubject := map m | m in candidates :: {};
      var rank := map id | id in canonical :: 0;
      var events := Ordered(canonical.Keys, rank);
      OrderedIsComplete(canonical.Keys, rank);
      for i := 0 to |events|
        invariant bySubject.Keys == candidates
        invariant forall m :: m in candidates ==> bySubject[m] == MatchEventsOf(Db(), m) * Elements(events[..i])
      {
        var id := events[i];
        assert id in Elements(events);
        assert Elements(events[..i + 1]) == Elements(events[..i]) + {id};
        OneMoreEvent(Db(), Elements(events[..i]), id);
        var event := canonical[id];
        if event.football.Some? && event.subject in candidates {
          bySubject := bySubject[event.subject := bySubject[event.subject] + {id}];
        }
      }
      assert events[..|events|] == events;
      AllMatchEvents(Db());
    }

    /** Match projections that go with the batch, from the remaining football events of each subject. */
    method SelectStaleMatches(policy: Policy, ids: set<nat>) returns (inactive: set<nat>)
      ensures inactive == StaleMatches(Db(), policy, ids)
    {
      var guarded := (set m | m in matches && (matches[m].state.status.Live? || matches[m].state.status.Interval?))
        + (if policy.active.Some? then {policy.active.value} else {});
      assert guarded == Protected(Db(), policy);
      hide Protected, MatchEventsOf;
      var candidates := set m | m in matches && matches[m].updatedAt < policy.cutoff && m !in guarded
                                && matches[m].lastEvent in ids;
      var bySubject := GroupBySubject(candidates);
      inactive := set m | m in candidates && bySubject[m] != {} && bySubject[m] <= ids;
    }

    /** Plans one bounded batch and applies it unless this is a dry run. */
    method ApplyRetention(now: int, days: int, dryRun: bool, maxEvents: int, active: Option<nat>)
      returns (report: Result<Report, RetentionError>)
      requires Shaped(State())
      modifies this
      ensures
        var policy := Policy(now - days * 86400, active);
        if days < 30 then report == Err(RetentionTooShort) && State() == old(State())
        else if maxEvents < 1 then report == Err(BatchNotPositive) && State() == old(State())
        else
          && report == Ok(ReportOf(old(Db()), policy, maxEvents, dryRun))
          && State() == if dryRun then old(State()) else Next(old(State()), RetainStep(policy, maxEvents))
    {
      if days < 30 {
        return Err(RetentionTooShort);
      }
      if maxEvents < 1 {
        return Err(BatchNotPositive);
      }
      var policy := Policy(now - days * DAY_SECONDS, active);
      var planned, ids, inactive := PlanRetention(policy, maxEvents, dryRun);
      report := Ok(planned);
      RetainStepIs(State(), policy, maxEvents);
      hide Next, ReportOf, RetirementBatch, StaleMatches, Retire, RetirePast, Shaped;
      if !dryRun {
        Remove(policy, ids, inactive);
      }
    }

    /** What the batch would take, and the report about it. */
    method PlanRetention(policy: Policy, limit: nat, dryRun: bool)
      returns (report: Report, ids: set<nat>, inactive: set<nat>)
      ensures report == ReportOf(Db(), policy, limit, dryRun)
      ensures ids == Elements(RetirementBatch(Db(), policy, limit)) && inactive == StaleMatches(Db(), policy, ids)
    {
      var batchIds := SelectRetired(policy, limit);
      hide RetirementBatch, CountsOf, StaleMatches, Keep;
      ids := Elements(batchIds);
      inactive := SelectStaleMatches(policy, ids);
      var counts := CountKeptBack(policy);
      var entries, stale := |Keep(timeline, ids)|, |inactive|;
      report := Report(|batchIds|, entries, stale, if dryRun then 0 else entries, if dryRun then 0 else stale, counts);
    }

    /** The four counts of the report, each a query of its own over the old events. */
    method CountKeptBack(policy: Policy) returns (counts: Counts)
      ensures counts == CountsOf(Db(), policy)
    {
      var guarded := (set m | m in matches && (matches[m].state.status.Live? || matches[m].state.status.Interval?))
        + (if policy.active.Some? then {policy.active.value} else {});
      var lastEvents := set m | m in matches && (matches[m].updatedAt >= policy.cutoff || m in guarded)
        :: matches[m].lastEvent;
      assert guarded == Protected(Db(), policy);
      assert lastEvents == LastStateEvents(Db(), policy);
      hide Protected, LastStateEvents;
      var published := set r | r in outbox && outbox[r].publishedAt.Some? :: outbox[r].envelope.id;
      assert forall id :: id in published <==> Published(Db(), id);
      hide Published;
      var aged := set id | id in canonical && canonical[id].ingestedAt < policy.cutoff;
      assert aged == OldEvents(Db(), policy);
      var protectedActive := set id | id in aged && canonical[id].football.Some? && canonical[id].subject in guarded;
      assert protectedActive == ProtectedActive(Db(), policy);
      assert aged - published == DeferredUnpublished(Db(), policy);
      assert aged * published - processed == DeferredUnprojected(Db(), policy);
      assert aged * lastEvents == RetainedLast(Db(), policy);
      counts := Counts(|protectedActive|, |aged - published|, |aged * published - processed|, |aged * lastEvents|);
    }

    method InsertTombstones(ids: set<nat>)
      modifies this`retired
      ensures retired == old(retired) + Tombstones(old(Db()), ids)
    {
      var tombstones := map id | id in ids && id in canonical
                                 && !(exists t :: t in retired && retired[t] == canonical[id].key) :: canonical[id].key;
      assert tombstones == Tombstones(Db(), ids);
      retired := retired + tombstones;
    }

    /** The delete of the canonical rows and its cascade. */
    method DeleteEvents(ids: set<nat>)
      modifies this`canonical, this`outbox, this`processed, this`timeline
      ensures canonical == old(canonical) - ids
      ensures outbox == RowsWithout(old(outbox), ids)
      ensures processed == old(processed) - ids
      ensures timeline == Keep(old(timeline), old(canonical).Keys - ids)
    {
      hide Keep;
      timeline := Keep(timeline, canonical.Keys - ids);
      canonical := canonical - ids;
      outbox := map r | r in outbox && outbox[r].envelope.id !in ids :: outbox[r];
      processed := processed - ids;
    }

    method RetireEvents(ids: set<nat>)
      modifies this`retired, this`canonical, this`outbox, this`processed, this`timeline
      ensures retired == old(retired) + Tombstones(old(Db()), ids)
      ensures canonical == old(canonical) - ids && outbox == RowsWithout(old(outbox), ids)
      ensures processed == old(processed) - ids && timeline == Keep(old(timeline), old(canonical).Keys - ids)
    {
      hide *;
      InsertTombstones(ids);
      DeleteEvents(ids);
    }

    method Remove(policy: Policy, ids: set<nat>, inactive: set<nat>)
      requires inactive == StaleMatches(Db(), policy, ids)
      modifies this
      ensures State() == old(State()).(db := Retire(old(Db()), policy, ids),
                                       past := RetirePast(old(Db()), old(past), policy, ids))
    {
      hide StaleMatches, Keep, Tombstones, RetirePast, Retire, RowsWithout;
      ghost var before, later := Db(), RetirePast(Db(), past, policy, ids);
      RetireEvents(ids);
      matches := matches - inactive;
      past := later;
      RetiredTables(before, Db(), policy, ids);
    }
  }

  lemma OneMoreEvent(db: Database, seen: set<nat>, id: nat)
    requires id in db.canonical
    ensures forall m ::
      (MatchEventsOf(db, m) * (seen + {id})
       == MatchEventsOf(db, m) * seen
          + (if db.canonical[id].football.Some? && db.canonical[id].subject == m then {id} else {}))
  {
  }

  lemma AllMatchEvents(db: Database)
    ensures forall m :: MatchEventsOf(db, m) * db.canonical.Keys == MatchEventsOf(db, m)
  {
  }

  lemma AdmissionTakesKey(db: Database, event: Envelope)
    ensures PersistOutcome(db, event).IntegrityFailure? <==> !Taken(db, event.key) && event.id in db.canonical
    ensures !PersistOutcome(db, event).IntegrityFailure? ==> Taken(Persist(db, event), event.key)
  {
    if PersistOutcome(db, event).Inserted? {
      assert Persist(db, event).canonical[event.id].key == event.key;
    }
  }

  lemma PersistStepIs(s: System, event: Envelope)
    requires Shaped(s) && Enabled(s, PersistStep(event))
    ensures Next(s, PersistStep(event)) == s.(db := Persist(s.db, event), past := PersistPast(s.db, s.past, event))
  {
    hide Persist, PersistPast;
  }

  lemma RetiredTables(before: Database, after: Database, policy: Policy, ids: set<nat>)
    requires after == before.(retired := before.retired + Tombstones(before, ids),
                              canonical := before.canonical - ids,
                              outbox := RowsWithout(before.outbox, ids),
                              processed := before.processed - ids,
                              timeline := Keep(before.timeline, before.canonical.Keys - ids),
                              matches := before.matches - StaleMatches(before, policy, ids))
    ensures after == Retire(before, policy, ids)
  {
    hide StaleMatches, Keep, Tombstones, RowsWithout;
  }

  lemma ClaimStepIs(s: System, now: int, limit: nat)
    requires Shaped(s) && Enabled(s, ClaimStep(now, limit))
    ensures Next(s, ClaimStep(now, limit))
            == s.(db := ClaimRows(s.db, now, limit), claims := Claims(s.db, RowsToClaim(s.db, now, limit)), sent := false)
  {
    hide ClaimRows, Claims, RowsToClaim;
  }

  lemma DeliveryIs(s: System, delivery: Delivery)
    requires Shaped(s) && s.claims != [] && !s.sent && Deliverable(s, delivery)
    ensures !delivery.SendFailed? ==> delivery.partition < |s.log|
    ensures AfterDelivery(s, delivery)
            == s.(db := if delivery.Delivered? then MarkPublished(s.db, s.claims[0].row, delivery.at)
                        else MarkFailed(s.db, s.claims[0].row),
                  log := if delivery.SendFailed? then s.log
                         else s.log[delivery.partition := s.log[delivery.partition] + [s.claims[0].envelope]],
                  claims := s.claims[1..])
  {
    hide MarkPublished, MarkFailed;
  }

  lemma RetainStepIs(s: System, policy: Policy, limit: nat)
    requires Shaped(s)
    ensures var ids := Elements(RetirementBatch(s.db, policy, limit));
      Next(s, RetainStep(policy, limit))
      == s.(db := Retire(s.db, policy, ids), past := RetirePast(s.db, s.past, policy, ids))
  {
    hide RetirementBatch, Retire, RetirePast;
  }

  lemma OkIsShaped(s: System)
    requires SystemOk(s)
    ensures Shaped(s)
  {
  }

  lemma CommitKeepsSystem(s: System)
    requires SystemOk(s) && s.batch == []
    ensures SystemOk(s.(committed := s.position))
  {
    hide SystemOk;
    OkIsShaped(s);
    StepsKeepSystem(s, CommitStep);
  }
}
