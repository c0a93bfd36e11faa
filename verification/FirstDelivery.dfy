/** Which deliveries take effect, and in which order. */
module FirstDelivery {
  import opened Common
  import opened MatchEvents
  import opened MatchReducer
  import opened Ordering
  import opened EventStore
  import opened EventInvariants
  import opened EnvelopeLists
  import opened Pipeline

  // Runs have failed sends, crashes, several publishers, duplicate records and projector restarts. Each
  // partition's effects are the first copies of its records, and a subject's effects keep the stored order
  // exactly as long as no send overtakes an unsent event.

  /** The broker sends each subject to the partition that its key hash selects. */
  predicate Routes(s: System, route: nat -> nat, action: Action) {
    action.SendStep? ==> s.claims != [] && action.partition == route(s.claims[0].envelope.subject)
  }

  ghost predicate RoutedRun(states: seq<System>, actions: seq<Action>, route: nat -> nat) {
    IsRun(states, actions) && forall i :: 0 <= i < |actions| ==> Routes(states[i], route, actions[i])
  }

  // ---------------------------------------------------------------- events are stored once

  /** No event is stored twice, and none leaves the store before it took effect. */
  ghost predicate StoredOnce(db: Database, past: Past) {
    && DistinctIds(past.order)
    && (forall id :: id in past.issued ==> past.issued[id] in past.order && past.issued[id].id == id)
    && (forall e :: e in past.order ==> IsIssued(past, e))
    && (forall id :: id in past.issued ==> id in db.canonical || id in IdsOf(past.applied))
  }

  lemma PersistStoresOnce(db: Database, past: Past, event: Envelope)
    requires StoredOnce(db, past) && event.id !in past.issued
    ensures StoredOnce(Persist(db, event), PersistPast(db, past, event))
  {
    hide PersistOutcome, IdsOf;
    if PersistOutcome(db, event).Inserted? {
      var later := PersistPast(db, past, event);
      forall i | 0 <= i < |past.order| ensures past.order[i].id != event.id {
        assert past.order[i] in past.order && IsIssued(past, past.order[i]);
      }
      assert DistinctIds(later.order);
    }
  }

  lemma BatchIsPublished(db: Database, policy: Policy, limit: nat)
    ensures forall id :: id in Elements(RetirementBatch(db, policy, limit)) ==> Published(db, id) && id in db.processed
  {
    var all := Ordered(Eligible(db, policy), IngestRank(db));
    OrderedIsComplete(Eligible(db, policy), IngestRank(db));
    forall id | id in Elements(RetirementBatch(db, policy, limit)) ensures id in Eligible(db, policy) {
      assert id in Elements(all);
    }
  }

  lemma RetireStoresOnce(db: Database, past: Past, policy: Policy, ids: set<nat>)
    requires StoredOnce(db, past) && TimelineMatches(db, past) && ids <= db.processed
    ensures StoredOnce(Retire(db, policy, ids), RetirePast(db, past, policy, ids))
  {
    hide StaleMatches, Keep, Tombstones, Ascending, DistinctIds, IdsOf;
  }

  lemma TimelineIn(db: Database, past: Past)
    requires StoreOk(db, past)
    ensures TimelineMatches(db, past)
  {
  }

  lemma OtherStepsStoreOnce(s: System, action: Action)
    requires Shaped(s) && Enabled(s, action) && StoredOnce(s.db, s.past) && !action.PersistStep? && !action.RetainStep?
    ensures StoredOnce(Next(s, action).db, Next(s, action).past)
  {
    if action.ProjectStep? {
      IdsAppend(s.past.applied, Entry(action.cursor, s.batch[0]));
    }
    hide IdsOf, RowsToClaim, Claims, Poisonous, MatchesAfter, DistinctIds, ClaimRows;
  }

  lemma StoredStayOnce(s: System, action: Action)
    requires SystemOk(s) && Enabled(s, action) && StoredOnce(s.db, s.past)
    ensures StoredOnce(Next(s, action).db, Next(s, action).past)
  {
    hide StoreOk, ConsumerOk, PublisherOk, ClaimsFit, RecordsIssued, StoredOnce;
    match action
    case PersistStep(event) => PersistStoresOnce(s.db, s.past, event);
    case RetainStep(policy, limit) =>
      BatchIsPublished(s.db, policy, limit);
      var ids := Elements(RetirementBatch(s.db, policy, limit));
      TimelineIn(s.db, s.past);
      assert ids <= s.db.processed;
      RetireStoresOnce(s.db, s.past, policy, ids);
    case _ => OtherStepsStoreOnce(s, action);
  }

  // ---------------------------------------------------------------- what a partition delivered

  /** The first `h` records have been handled; the batch holds a stretch of records that may reach behind `h`. */
  ghost predicate HandledTo(
    records: seq<Envelope>, committed: nat, position: nat, waiting: seq<Envelope>, applied: seq<Envelope>, h: nat)
  {
    && |waiting| <= position <= |records| && committed <= position - |waiting| <= h <= |records|
    && waiting == records[position - |waiting|..position]
    && applied == FirstCopies(records[..h])
  }

  ghost predicate PartitionOk(
    records: seq<Envelope>, committed: nat, position: nat, waiting: seq<Envelope>, applied: seq<Envelope>)
  {
    exists h: nat :: HandledTo(records, committed, position, waiting, applied, h)
  }

  function AppliedOf(s: System, route: nat -> nat, p: nat): seq<Envelope> {
    Routed(Envelopes(s.past.applied), route, p)
  }

  ghost predicate PartitionIn(s: System, route: nat -> nat, p: nat)
    requires p < |s.log| && |s.committed| == |s.log| && |s.position| == |s.log|
  {
    PartitionOk(s.log[p], s.committed[p], s.position[p], Routed(s.batch, route, p), AppliedOf(s, route, p))
  }

  /** Records and fetched copies lie where the key hash sends them. */
  ghost predicate WellRouted(s: System, route: nat -> nat) {
    && (forall p, e :: 0 <= p < |s.log| && e in s.log[p] ==> route(e.subject) == p)
    && (forall e :: e in s.batch ==> route(e.subject) < |s.log|)
  }

  ghost predicate ConsumedInOrder(s: System, route: nat -> nat) {
    && |s.committed| == |s.log| && |s.position| == |s.log|
    && forall p :: 0 <= p < |s.log| ==> PartitionIn(s, route, p)
  }

  lemma RoutesStay(s: System, route: nat -> nat, action: Action)
    requires Shaped(s) && Enabled(s, action) && WellRouted(s, route) && Routes(s, route, action)
    ensures WellRouted(Next(s, action), route)
  {
    hide Persist, Project, Retain, Poisonous, ClaimRows, MarkPublished, MarkFailed, Claims;
    if action.FetchStep? {
      var p := action.partition;
      var more := s.log[p][s.position[p]..s.position[p] + action.count];
      assert forall e :: e in more ==> e in s.log[p];
    }
  }

  lemma AppliedById(past: Past, e: Envelope)
    requires IsIssued(past, e) && e.id in IdsOf(past.applied)
    requires forall x :: x in past.applied ==> IsIssued(past, x.envelope)
    ensures e in Envelopes(past.applied)
  {
    EnvelopeIds(past.applied, e);
  }

  lemma AppliedIds(past: Past, e: Envelope, route: nat -> nat)
    requires IsIssued(past, e) && forall x :: x in past.applied ==> IsIssued(past, x.envelope)
    ensures e.id in IdsOf(past.applied) <==> e.id in IdsIn(Routed(Envelopes(past.applied), route, route(e.subject)))
  {
    RoutedMembers(Envelopes(past.applied), route, route(e.subject));
    hide Routed, Envelopes;
    if e.id in IdsOf(past.applied) {
      AppliedById(past, e);
    }
    if e.id in IdsIn(Routed(Envelopes(past.applied), route, route(e.subject))) {
      var x :| x in Envelopes(past.applied) && x.id == e.id;
      EnvelopeIds(past.applied, x);
    }
  }

  lemma EffectsOnlyOnce(db: Database, past: Past, e: Envelope)
    requires StoredOnce(db, past) && TimelineMatches(db, past) && IsIssued(past, e)
    ensures Projectable(db, e) <==> e.id !in IdsOf(past.applied)
  {
    hide Keep, Ascending, IdsOf, DistinctIds;
  }

  /** A delivered record takes effect exactly when no copy of it took effect before. */
  lemma FirstCopiesTakeEffect(s: System, route: nat -> nat, e: Envelope)
    requires SystemOk(s) && StoredOnce(s.db, s.past) && IsIssued(s.past, e)
    ensures Projectable(s.db, e) <==> e.id !in IdsIn(AppliedOf(s, route, route(e.subject)))
  {
    TimelineIn(s.db, s.past);
    EffectsOnlyOnce(s.db, s.past, e);
    AppliedIds(s.past, e, route);
    hide StoredOnce, Projectable, Routed, Envelopes, ConsumerOk, PublisherOk, ClaimsFit, StoreOk, RecordsIssued;
  }

  lemma RepeatedHead(records: seq<Envelope>, h: nat, k: nat)
    requires k < h <= |records|
    ensures records[k].id in IdsIn(FirstCopies(records[..h]))
  {
    FirstCopiesAreExact(records[..h]);
    hide FirstCopies, DistinctIds;
    assert records[..h][k] == records[k] && records[k] in records[..h];
  }

  /** The head of the batch leaves it, and counts if it is a first copy. */
  lemma HeadAdvances(records: seq<Envelope>, committed: nat, position: nat, waiting: seq<Envelope>, applied: seq<Envelope>)
    requires PartitionOk(records, committed, position, waiting, applied) && waiting != []
    ensures PartitionOk(records, committed, position, waiting[1..],
                        if waiting[0].id in IdsIn(applied) then applied else applied + [waiting[0]])
  {
    hide FirstCopies, IdsIn;
    var h: nat :| HandledTo(records, committed, position, waiting, applied, h);
    var k := position - |waiting|;
    var after := if waiting[0].id in IdsIn(applied) then applied else applied + [waiting[0]];
    if k < h {
      RepeatedHead(records, h, k);
      assert HandledTo(records, committed, position, waiting[1..], after, h);
    } else {
      assert records[..h + 1] == records[..h] + [records[h]];
      FirstCopiesAppend(records[..h], records[h]);
      assert HandledTo(records, committed, position, waiting[1..], after, h + 1);
    }
  }

  /** The head has left the batch, and has taken effect if it was a first copy. */
  ghost predicate HeadTaken(s: System, route: nat -> nat, cursor: nat, t: System) {
    && s.batch != [] && t.log == s.log && t.committed == s.committed && t.position == s.position
    && t.batch == s.batch[1..]
    && t.past.applied
       == if s.batch[0].id in IdsIn(AppliedOf(s, route, route(s.batch[0].subject))) then s.past.applied
          else s.past.applied + [Entry(cursor, s.batch[0])]
  }

  lemma HeadStaysInOrder(s: System, route: nat -> nat, q: nat, cursor: nat, t: System)
    requires HeadTaken(s, route, cursor, t)
    requires q < |s.log| && |s.committed| == |s.log| && |s.position| == |s.log| && PartitionIn(s, route, q)
    ensures PartitionIn(t, route, q)
  {
    var e := s.batch[0];
    HeadRouted(s.batch, route, q);
    EnvelopesAppend(s.past.applied, Entry(cursor, e));
    RoutedAppend(Envelopes(s.past.applied), e, route, q);
    hide Routed, Envelopes, PartitionOk, IdsIn;
    if q == route(e.subject) {
      HeadAdvances(s.log[q], s.committed[q], s.position[q], Routed(s.batch, route, q), AppliedOf(s, route, q));
    }
  }

  lemma HeadsStayInOrder(s: System, route: nat -> nat, cursor: nat, t: System)
    requires ConsumedInOrder(s, route) && HeadTaken(s, route, cursor, t)
    ensures ConsumedInOrder(t, route)
  {
    hide PartitionOk, AppliedOf, Routed, IdsIn;
    forall q | 0 <= q < |t.log| ensures PartitionIn(t, route, q) {
      assert PartitionIn(s, route, q);
      HeadStaysInOrder(s, route, q, cursor, t);
    }
  }

  lemma ProjectTakesHead(s: System, route: nat -> nat, cursor: nat, now: int)
    requires SystemOk(s) && Enabled(s, ProjectStep(cursor, now)) && StoredOnce(s.db, s.past)
    requires !Poisonous(s.db, s.batch[0])
    ensures HeadTaken(s, route, cursor, Next(s, ProjectStep(cursor, now)))
  {
    hide StoreOk, ClaimsFit, ConsumerOk, PublisherOk, StoredOnce, Poisonous, Projectable, AppliedOf, IdsIn, Project;
    assert IsIssued(s.past, s.batch[0]);
    hide SystemOk, RecordsIssued;
    FirstCopiesTakeEffect(s, route, s.batch[0]);
  }

  lemma ProjectStaysInOrder(s: System, route: nat -> nat, cursor: nat, now: int)
    requires SystemOk(s) && Enabled(s, ProjectStep(cursor, now)) && StoredOnce(s.db, s.past)
    requires ConsumedInOrder(s, route)
    ensures ConsumedInOrder(Next(s, ProjectStep(cursor, now)), route)
  {
    hide StoredOnce, StoreOk, RecordsIssued, ClaimsFit, ConsumerOk, PublisherOk, Poisonous, Project, ConsumedInOrder, HeadTaken;
    if Poisonous(s.db, s.batch[0]) {
      RestartStaysInOrder(s, route);
    } else {
      ProjectTakesHead(s, route, cursor, now);
      HeadsStayInOrder(s, route, cursor, Next(s, ProjectStep(cursor, now)));
    }
  }

  lemma BatchForgotten(records: seq<Envelope>, committed: nat, position: nat, waiting: seq<Envelope>, applied: seq<Envelope>)
    requires PartitionOk(records, committed, position, waiting, applied)
    ensures PartitionOk(records, committed, committed, [], applied)
  {
    var h: nat :| HandledTo(records, committed, position, waiting, applied, h);
    assert HandledTo(records, committed, committed, [], applied, h);
  }

  lemma RestartStaysInOrder(s: System, route: nat -> nat)
    requires ConsumedInOrder(s, route)
    ensures ConsumedInOrder(Restarted(s), route)
  {
    hide PartitionOk, Envelopes;
    var t := Restarted(s);
    forall p | 0 <= p < |t.log| ensures PartitionIn(t, route, p) {
      assert PartitionIn(s, route, p);
      BatchForgotten(s.log[p], s.committed[p], s.position[p], Routed(s.batch, route, p), AppliedOf(s, route, p));
    }
  }

  lemma FetchExtends(
    records: seq<Envelope>, committed: nat, position: nat, waiting: seq<Envelope>, applied: seq<Envelope>, count: nat)
    requires PartitionOk(records, committed, position, waiting, applied) && position + count <= |records|
    ensures PartitionOk(records, committed, position + count, waiting + records[position..position + count], applied)
  {
    var h: nat :| HandledTo(records, committed, position, waiting, applied, h);
    assert HandledTo(records, committed, position + count, waiting + records[position..position + count], applied, h);
  }

  lemma FetchStaysInOrder(s: System, route: nat -> nat, p: nat, count: nat)
    requires Shaped(s) && Enabled(s, FetchStep(p, count)) && WellRouted(s, route) && ConsumedInOrder(s, route)
    ensures ConsumedInOrder(Next(s, FetchStep(p, count)), route)
  {
    hide Routed, Envelopes, PartitionOk;
    var more := s.log[p][s.position[p]..s.position[p] + count];
    assert forall e :: e in more ==> e in s.log[p];
    var t := Next(s, FetchStep(p, count));
    forall q | 0 <= q < |t.log| ensures PartitionIn(t, route, q) {
      RoutedAgain(more, route, p, q);
      RoutedConcat(s.batch, more, route, q);
      assert PartitionIn(s, route, q);
      if q == p {
        FetchExtends(s.log[p], s.committed[p], s.position[p], Routed(s.batch, route, p), AppliedOf(s, route, p), count);
      } else {
        assert Routed(s.batch, route, q) + [] == Routed(s.batch, route, q);
      }
    }
  }

  lemma PartitionGrows(
    records: seq<Envelope>, committed: nat, position: nat, waiting: seq<Envelope>, applied: seq<Envelope>,
    longer: seq<Envelope>, later: nat)
    requires PartitionOk(records, committed, position, waiting, applied) && records <= longer
    requires later == committed || (waiting == [] && later == position)
    ensures PartitionOk(longer, later, position, waiting, applied)
  {
    var h: nat :| HandledTo(records, committed, position, waiting, applied, h);
    assert longer[..h] == records[..h];
    assert HandledTo(longer, later, position, waiting, applied, h);
  }

  /** Steps that leave the batch and the applied events alone; the log may grow. */
  lemma LogGrowthStaysInOrder(s: System, t: System, route: nat -> nat)
    requires Shaped(s) && Shaped(t) && ConsumedInOrder(s, route)
    requires t.batch == s.batch && t.position == s.position && t.past.applied == s.past.applied
    requires |t.log| == |s.log| && forall p :: 0 <= p < |s.log| ==> s.log[p] <= t.log[p]
    requires forall p :: 0 <= p < |s.log|
               ==> t.committed[p] == s.committed[p] || (s.batch == [] && t.committed[p] == s.position[p])
    ensures ConsumedInOrder(t, route)
  {
    hide Envelopes, PartitionOk;
    forall p | 0 <= p < |t.log| ensures PartitionIn(t, route, p) {
      assert PartitionIn(s, route, p);
      PartitionGrows(s.log[p], s.committed[p], s.position[p], Routed(s.batch, route, p), AppliedOf(s, route, p),
                     t.log[p], t.committed[p]);
    }
  }

  lemma OtherStepsStayInOrder(s: System, route: nat -> nat, action: Action)
    requires Shaped(s) && Enabled(s, action) && ConsumedInOrder(s, route)
    requires !action.ProjectStep? && !action.FetchStep? && !action.ConsumerRestartStep?
    ensures ConsumedInOrder(Next(s, action), route)
  {
    hide ConsumedInOrder, Persist, Retain, ClaimRows, MarkPublished, MarkFailed, Claims;
    LogGrowthStaysInOrder(s, Next(s, action), route);
  }

  lemma ConsumerStaysInOrder(s: System, route: nat -> nat, action: Action)
    requires SystemOk(s) && Enabled(s, action) && StoredOnce(s.db, s.past)
    requires WellRouted(s, route) && ConsumedInOrder(s, route)
    ensures ConsumedInOrder(Next(s, action), route)
  {
    hide StoreOk, RecordsIssued, ClaimsFit, ConsumerOk, PublisherOk, ConsumedInOrder, WellRouted, StoredOnce;
    match action
    case ProjectStep(cursor, now) => ProjectStaysInOrder(s, route, cursor, now);
    case FetchStep(p, count) => FetchStaysInOrder(s, route, p, count);
    case ConsumerRestartStep => RestartStaysInOrder(s, route);
    case _ => OtherStepsStayInOrder(s, route, action);
  }

  lemma InitialInOrder(partitions: nat, route: nat -> nat)
    ensures StoredOnce(EmptyDatabase, NoPast)
    ensures WellRouted(Initial(partitions), route) && ConsumedInOrder(Initial(partitions), route)
  {
    NothingHandled();
    hide PartitionOk;
  }

  lemma NothingHandled()
    ensures PartitionOk([], 0, 0, [], [])
  {
    var none: seq<Envelope> := [];
    assert none[..0] == none && FirstCopies(none) == none;
    hide FirstCopies;
    assert HandledTo(none, 0, 0, none, none, 0);
  }

  lemma {:induction false} RoutedRunsStayInOrder(states: seq<System>, actions: seq<Action>, route: nat -> nat, i: nat)
    requires RoutedRun(states, actions, route) && i < |states|
    ensures SystemOk(states[i]) && StoredOnce(states[i].db, states[i].past)
    ensures WellRouted(states[i], route) && ConsumedInOrder(states[i], route)
  {
    hide SystemOk, StoredOnce, WellRouted, ConsumedInOrder, Next, Routes;
    ReachableIsOk(states, actions, i);
    if i == 0 {
      InitialInOrder(|states[0].log|, route);
    } else {
      RoutedRunsStayInOrder(states, actions, route, i - 1);
      var s, action := states[i - 1], actions[i - 1];
      StoredStayOnce(s, action);
      RoutesStay(s, route, action);
      ConsumerStaysInOrder(s, route, action);
    }
  }

  /**
   In every run whose sends respect the key hash, whatever fails, crashes, repeats or overlaps: the effects
   of a partition are the first copies of the records handled so far, each once, in the order of the log.
   */
  lemma EffectsAreFirstCopies(states: seq<System>, actions: seq<Action>, route: nat -> nat, i: nat, p: nat) returns (h: nat)
    requires RoutedRun(states, actions, route) && i < |states| && p < |states[i].log|
    ensures Shaped(states[i]) && states[i].committed[p] <= h <= |states[i].log[p]|
    ensures states[i].batch == [] ==> states[i].position[p] <= h
    ensures AppliedOf(states[i], route, p) == FirstCopies(states[i].log[p][..h]) <= FirstCopies(states[i].log[p])
  {
    RoutedRunsStayInOrder(states, actions, route, i);
    var s := states[i];
    assert PartitionIn(s, route, p);
    h :| HandledTo(s.log[p], s.committed[p], s.position[p], Routed(s.batch, route, p), AppliedOf(s, route, p), h);
    FirstCopiesOfPrefix(s.log[p][..h], s.log[p]);
    hide RoutedRun, StoreOk, RecordsIssued, ClaimsFit, ConsumerOk, PublisherOk, WellRouted, ConsumedInOrder, FirstCopies, Envelopes;
  }

  // ---------------------------------------------------------------- overtaking

  /** The football events of a subject in the order in which their first records entered the log. */
  function Sent(s: System, route: nat -> nat, subject: nat): seq<Envelope>
    requires route(subject) < |s.log|
  {
    SubjectEvents(FirstCopies(s.log[route(subject)]), subject)
  }

  function Stored(s: System, subject: nat): seq<Envelope> {
    SubjectEvents(s.past.order, subject)
  }

  /** An event before position `b` of the stored order has no record yet. */
  predicate Left(order: seq<Envelope>, b: nat, records: seq<Envelope>, subject: nat)
    requires b <= |order|
  {
    exists a :: 0 <= a < b && Concerns(order[a], subject) && order[a] !in records
  }

  /** The first record of an event is sent while an event of its subject that was stored before has none. */
  predicate Overtakes(s: System, route: nat -> nat, action: Action, subject: nat) {
    && route(subject) < |s.log| && action.SendStep? && s.claims != []
    && var e := s.claims[0].envelope;
    && Concerns(e, subject) && e.id !in IdsIn(s.log[route(subject)])
    && exists b :: 0 <= b < |s.past.order| && s.past.order[b] == e
                   && Left(s.past.order, b, s.log[route(subject)], subject)
  }

  ghost predicate InStoredOrder(s: System, route: nat -> nat, subject: nat) {
    route(subject) < |s.log| && Sent(s, route, subject) <= Stored(s, subject)
  }

  lemma SentMembers(records: seq<Envelope>, past: Past, subject: nat, e: Envelope)
    requires (forall r :: r in records ==> IsIssued(past, r)) && IsIssued(past, e) && Concerns(e, subject)
    ensures e in SubjectEvents(FirstCopies(records), subject) <==> e in records
    ensures e.id in IdsIn(records) <==> e in records
  {
    FirstCopiesAreExact(records);
    SubjectMembers(FirstCopies(records), subject);
    if e in records {
      assert e.id in IdsIn(FirstCopies(records));
      var x :| x in FirstCopies(records) && x.id == e.id;
      assert x in records;
    }
  }

  /** Positions in the stored order and in the subject's part of it. */
  lemma StoredPosition(order: seq<Envelope>, b: nat, subject: nat)
    requires DistinctIds(order) && b < |order| && Concerns(order[b], subject)
    ensures var before, all := SubjectEvents(order[..b], subject), SubjectEvents(order, subject);
      && before + [order[b]] <= all && DistinctIds(all)
      && forall e :: e in before <==> e in order[..b] && Concerns(e, subject)
  {
    SubjectMembers(order[..b], subject);
    SubjectDistinct(order, subject);
    SubjectAppend(order[..b], order[b], subject);
    assert order[..b + 1] == order[..b] + [order[b]];
    SubjectPrefix(order[..b + 1], order, subject);
  }

  /** A list of distinct events extends a prefix of another by its next element, or leaves the order for good. */
  lemma NextOrNever(sent: seq<Envelope>, all: seq<Envelope>, before: seq<Envelope>, e: Envelope)
    requires DistinctIds(all) && sent <= all && before + [e] <= all && e !in sent
    ensures sent + [e] <= all <==> forall x :: x in before ==> x in sent
  {
    var m := |before|;
    assert all[m] == e;
    assert forall i :: 0 <= i < |sent| ==> sent[i] == all[i] && sent[i] != e;
    if sent + [e] <= all {
      assert all[|sent|] == (sent + [e])[|sent|] == e;
      forall x | x in before ensures x in sent {
        var i :| 0 <= i < m && before[i] == x;
        assert sent[i] == all[i] == (before + [e])[i] == x;
      }
    } else if |sent| < m {
      assert before[|sent|] in before;
      assert before[|sent|] == all[|sent|];
      NotAmong(sent, all);
    }
  }

  lemma NotAmong(sent: seq<Envelope>, all: seq<Envelope>)
    requires DistinctIds(all) && sent < all
    ensures all[|sent|] !in sent
  {
    forall i | 0 <= i < |sent| ensures sent[i] != all[|sent|] {
      assert all[i].id != all[|sent|].id;
    }
  }

  lemma SentGrows(records: seq<Envelope>, e: Envelope, subject: nat)
    ensures SubjectEvents(FirstCopies(records + [e]), subject)
            == if Concerns(e, subject) && e.id !in IdsIn(records) then SubjectEvents(FirstCopies(records), subject) + [e]
               else SubjectEvents(FirstCopies(records), subject)
  {
    FirstCopiesAppend(records, e);
    FirstCopiesAreExact(records);
    SubjectAppend(FirstCopies(records), e, subject);
  }

  lemma OthersUnmoved(s: System, route: nat -> nat, subject: nat, p: nat)
    requires Shaped(s) && Enabled(s, SendStep(p)) && Routes(s, route, SendStep(p)) && route(subject) < |s.log|
    ensures var t := Next(s, SendStep(p)); var e := s.claims[0].envelope;
      && Stored(t, subject) == Stored(s, subject)
      && Sent(t, route, subject)
         == if Concerns(e, subject) && e.id !in IdsIn(s.log[route(subject)]) then Sent(s, route, subject) + [e]
            else Sent(s, route, subject)
  {
    SentGrows(s.log[route(subject)], s.claims[0].envelope, subject);
    hide SubjectEvents, FirstCopies, IdsIn;
  }

  /** The position of an event in the stored order is unique. */
  lemma OvertakesAt(s: System, route: nat -> nat, subject: nat, p: nat, b: nat)
    requires Shaped(s) && Enabled(s, SendStep(p)) && route(subject) < |s.log| && DistinctIds(s.past.order)
    requires b < |s.past.order| && s.past.order[b] == s.claims[0].envelope
    requires Concerns(s.claims[0].envelope, subject) && s.claims[0].envelope.id !in IdsIn(s.log[route(subject)])
    ensures Overtakes(s, route, SendStep(p), subject) <==> Left(s.past.order, b, s.log[route(subject)], subject)
  {
    hide Left, IdsIn;
    forall c | 0 <= c < |s.past.order| && s.past.order[c] == s.past.order[b] ensures c == b {
      assert forall i, j :: 0 <= i < j < |s.past.order| ==> s.past.order[i].id != s.past.order[j].id;
    }
  }

  lemma BeforeIsSent(order: seq<Envelope>, b: nat, records: seq<Envelope>, past: Past, subject: nat)
    requires b <= |order| && (forall r :: r in records ==> IsIssued(past, r)) && (forall e :: e in order ==> IsIssued(past, e))
    ensures Left(order, b, records, subject)
            <==> !(forall x :: x in SubjectEvents(order[..b], subject) ==> x in SubjectEvents(FirstCopies(records), subject))
  {
    SubjectMembers(order[..b], subject);
    var before := SubjectEvents(order[..b], subject);
    forall x | x in before ensures x in order && (x in SubjectEvents(FirstCopies(records), subject) <==> x in records) {
      assert x in order[..b];
      SentMembers(records, past, subject, x);
    }
    if Left(order, b, records, subject) {
      var a :| 0 <= a < b && Concerns(order[a], subject) && order[a] !in records;
      assert order[..b][a] == order[a] && order[a] in order[..b] && order[a] in before;
      assert order[a] !in SubjectEvents(FirstCopies(records), subject);
    } else {
      forall x | x in before ensures x in records {
        var a :| 0 <= a < b && order[..b][a] == x;
        assert order[a] == x && Concerns(order[a], subject);
      }
    }
  }

  lemma FirstRecordKeepsOrder(s: System, route: nat -> nat, subject: nat, p: nat)
    requires Shaped(s) && RecordsIssued(s) && StoredOnce(s.db, s.past)
    requires Enabled(s, SendStep(p)) && Routes(s, route, SendStep(p)) && route(subject) < |s.log|
    requires Concerns(s.claims[0].envelope, subject) && s.claims[0].envelope.id !in IdsIn(s.log[route(subject)])
    requires InStoredOrder(s, route, subject)
    ensures InStoredOrder(Next(s, SendStep(p)), route, subject) <==> !Overtakes(s, route, SendStep(p), subject)
  {
    var e, order, records := s.claims[0].envelope, s.past.order, s.log[route(subject)];
    assert Holds(s, s.claims[0]) && IsIssued(s.past, e) && e in order;
    var b :| 0 <= b < |order| && order[b] == e;
    assert forall r :: r in records ==> IsIssued(s.past, r);
    OthersUnmoved(s, route, subject, p);
    OvertakesAt(s, route, subject, p, b);
    BeforeIsSent(order, b, records, s.past, subject);
    StoredPosition(order, b, subject);
    SentMembers(records, s.past, subject, e);
    assert e !in Sent(s, route, subject);
    hide SubjectEvents, FirstCopies, Left, IdsIn, DistinctIds, StoredOnce, RecordsIssued, Overtakes, Concerns, Holds;
    NextOrNever(Sent(s, route, subject), Stored(s, subject), SubjectEvents(order[..b], subject), e);
  }

  lemma SendKeepsOrder(s: System, route: nat -> nat, subject: nat, p: nat)
    requires Shaped(s) && RecordsIssued(s) && StoredOnce(s.db, s.past)
    requires Enabled(s, SendStep(p)) && Routes(s, route, SendStep(p)) && route(subject) < |s.log|
    ensures InStoredOrder(Next(s, SendStep(p)), route, subject)
            <==> InStoredOrder(s, route, subject) && !Overtakes(s, route, SendStep(p), subject)
  {
    hide RecordsIssued, StoredOnce, Left;
    var e := s.claims[0].envelope;
    OthersUnmoved(s, route, subject, p);
    if InStoredOrder(s, route, subject) && Concerns(e, subject) && e.id !in IdsIn(s.log[route(subject)]) {
      FirstRecordKeepsOrder(s, route, subject, p);
    }
    hide Sent, Stored, IdsIn, Concerns;
  }

  lemma NewEventIsUnsent(s: System, route: nat -> nat, subject: nat, event: Envelope)
    requires RecordsIssued(s) && event.id !in s.past.issued && route(subject) < |s.log|
    ensures event !in Sent(s, route, subject)
  {
    var records := s.log[route(subject)];
    FirstCopiesAreExact(records);
    SubjectMembers(FirstCopies(records), subject);
    assert forall r :: r in records ==> IsIssued(s.past, r);
  }

  lemma PrefixIgnoresStrangers(sent: seq<Envelope>, all: seq<Envelope>, event: Envelope)
    requires event !in sent
    ensures sent <= all + [event] <==> sent <= all
  {
    if sent <= all + [event] {
      assert |sent| > |all| ==> sent == all + [event];
      assert (all + [event])[|all|] == event && event in all + [event];
      assert forall i :: 0 <= i < |sent| ==> sent[i] == (all + [event])[i];
    }
  }

  lemma PersistKeepsOrder(s: System, route: nat -> nat, subject: nat, event: Envelope)
    requires Shaped(s) && RecordsIssued(s) && Enabled(s, PersistStep(event)) && route(subject) < |s.log|
    ensures InStoredOrder(Next(s, PersistStep(event)), route, subject) <==> InStoredOrder(s, route, subject)
  {
    hide PersistOutcome, RecordsIssued;
    NewEventIsUnsent(s, route, subject, event);
    SubjectAppend(s.past.order, event, subject);
    PrefixIgnoresStrangers(Sent(s, route, subject), Stored(s, subject), event);
    hide SubjectEvents, FirstCopies, Concerns;
  }

  lemma OtherStepsKeepOrder(s: System, route: nat -> nat, subject: nat, action: Action)
    requires Shaped(s) && Enabled(s, action) && route(subject) < |s.log| && !action.SendStep? && !action.PersistStep?
    ensures InStoredOrder(Next(s, action), route, subject) <==> InStoredOrder(s, route, subject)
  {
    hide SubjectEvents, FirstCopies, Project, Retain, Poisonous, ClaimRows, MarkPublished, MarkFailed, Claims;
  }

  lemma StepsKeepOrder(s: System, route: nat -> nat, subject: nat, action: Action)
    requires SystemOk(s) && StoredOnce(s.db, s.past)
    requires Enabled(s, action) && Routes(s, route, action) && route(subject) < |s.log|
    ensures |Next(s, action).log| == |s.log|
    ensures InStoredOrder(Next(s, action), route, subject)
            <==> InStoredOrder(s, route, subject) && !Overtakes(s, route, action, subject)
  {
    hide StoreOk, RecordsIssued, ClaimsFit, ConsumerOk, PublisherOk, StoredOnce, InStoredOrder, Left;
    match action
    case SendStep(p) => SendKeepsOrder(s, route, subject, p);
    case PersistStep(event) => PersistKeepsOrder(s, route, subject, event);
    case _ => OtherStepsKeepOrder(s, route, subject, action);
  }

  ghost predicate NeverOvertaken(states: seq<System>, actions: seq<Action>, route: nat -> nat, subject: nat, i: nat)
    requires i <= |actions| <= |states|
  {
    forall k :: 0 <= k < i ==> !Overtakes(states[k], route, actions[k], subject)
  }

  lemma {:induction false} LogsKeepTheirNumber(states: seq<System>, actions: seq<Action>, i: nat)
    requires IsRun(states, actions) && i < |states|
    ensures |states[i].log| == |states[0].log|
  {
    if i > 0 {
      LogsKeepTheirNumber(states, actions, i - 1);
      hide Project, Retain, Poisonous, ClaimRows, MarkPublished, MarkFailed, Claims, Persist;
    }
  }

  ghost predicate Consumed(s: System, p: nat) {
    p < |s.log| == |s.committed| && s.committed[p] == |s.log[p]|
  }

  /**
   In every run whose sends respect the key hash, the first records of a subject's events stand in stored
   order, without a hole, exactly when no send has overtaken an event of the subject.
   */
  lemma {:induction false} OrderHoldsUnlessOvertaken(
    states: seq<System>, actions: seq<Action>, route: nat -> nat, subject: nat, i: nat)
    requires RoutedRun(states, actions, route) && i < |states| && route(subject) < |states[0].log|
    ensures InStoredOrder(states[i], route, subject) <==> NeverOvertaken(states, actions, route, subject, i)
  {
    hide Overtakes, InStoredOrder, Next, Routes, SystemOk, StoredOnce;
    if i == 0 {
      NothingSent(|states[0].log|, route, subject);
    } else {
      OrderHoldsUnlessOvertaken(states, actions, route, subject, i - 1);
      LogsKeepTheirNumber(states, actions, i - 1);
      RoutedRunsStayInOrder(states, actions, route, i - 1);
      StepsKeepOrder(states[i - 1], route, subject, actions[i - 1]);
    }
  }

  lemma NothingSent(partitions: nat, route: nat -> nat, subject: nat)
    requires route(subject) < partitions
    ensures InStoredOrder(Initial(partitions), route, subject)
  {
  }

  // ---------------------------------------------------------------- effects in stored order

  lemma EffectsOfSubject(s: System, route: nat -> nat, subject: nat)
    ensures SubjectEvents(AppliedOf(s, route, route(subject)), subject) == SubjectEvents(Envelopes(s.past.applied), subject)
    ensures FootballOf(SubjectEvents(Envelopes(s.past.applied), subject), subject) == MatchEventsIn(s.past.applied, subject)
  {
    SubjectRouted(Envelopes(s.past.applied), route, subject);
    FootballOfSubject(Envelopes(s.past.applied), subject);
    FootballEntries(s.past.applied, subject);
  }

  /** As long as nothing was overtaken, the effects of a subject are the first events stored for it, in order. */
  lemma EffectsKeepStoredOrder(states: seq<System>, actions: seq<Action>, route: nat -> nat, subject: nat, i: nat)
    requires RoutedRun(states, actions, route) && i < |states| && route(subject) < |states[0].log|
    requires NeverOvertaken(states, actions, route, subject, i)
    ensures SubjectEvents(Envelopes(states[i].past.applied), subject) <= Stored(states[i], subject)
    ensures MatchEventsIn(states[i].past.applied, subject) <= FootballOf(states[i].past.order, subject)
  {
    OrderHoldsUnlessOvertaken(states, actions, route, subject, i);
    var s, p := states[i], route(subject);
    LogsKeepTheirNumber(states, actions, i);
    var h := EffectsAreFirstCopies(states, actions, route, i, p);
    hide RoutedRun, NeverOvertaken, FirstCopies, SubjectEvents, FootballOf, MatchEventsIn, Routed, Envelopes, AppliedOf;
    SubjectPrefix(FirstCopies(s.log[p][..h]), FirstCopies(s.log[p]), subject);
    EffectsOfSubject(s, route, subject);
    var effects := SubjectEvents(Envelopes(s.past.applied), subject);
    assert effects <= Sent(s, route, subject) <= Stored(s, subject);
    FootballPrefix(effects, Stored(s, subject), subject);
    FootballOfSubject(s.past.order, subject);
  }

  /**
   Once everything was consumed, the effects of a subject are a prefix of its stored events exactly when
   no send has overtaken one of them: an overtaken event is out of order for good.
   */
  lemma EffectsAreOrderedExactly(states: seq<System>, actions: seq<Action>, route: nat -> nat, subject: nat, i: nat)
    requires RoutedRun(states, actions, route) && i < |states| && route(subject) < |states[0].log|
    requires Consumed(states[i], route(subject))
    ensures SubjectEvents(Envelopes(states[i].past.applied), subject) <= Stored(states[i], subject)
            <==> NeverOvertaken(states, actions, route, subject, i)
  {
    OrderHoldsUnlessOvertaken(states, actions, route, subject, i);
    var s, p := states[i], route(subject);
    var h := EffectsAreFirstCopies(states, actions, route, i, p);
    assert s.log[p][..h] == s.log[p];
    hide RoutedRun, NeverOvertaken, FirstCopies, SubjectEvents, Routed, Envelopes, AppliedOf;
    EffectsOfSubject(s, route, subject);
  }
}
