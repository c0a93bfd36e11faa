/** What every transaction of the event store keeps, with the history it is judged against. */
module EventInvariants {
  import opened Common
  import opened MatchEvents
  import opened MatchReducer
  import opened Ordering
  import opened EventStore

  /**
   History variables: every envelope ever inserted, by id and in order, every timeline entry ever
   written, and for each subject how long that history was when its projection was last pruned.
   */
  datatype Past = Past(
    issued: map<nat, Envelope>, order: seq<Envelope>, applied: seq<Entry>, pruned: map<nat, nat>)

  const NoPast := Past(map[], [], [], map[])

  // ---------------------------------------------------------------- rows and keys

  ghost predicate Registered(db: Database, past: Past) {
    && (forall id :: id in db.canonical ==>
          id in past.issued && past.issued[id] == db.canonical[id] && db.canonical[id].id == id)
    && (forall id :: id in db.retired ==>
          id in past.issued && past.issued[id].key == db.retired[id] && id !in db.canonical)
  }

  ghost predicate KeysDistinct(db: Database) {
    && (forall a, b :: a in db.canonical && b in db.canonical && a != b
                       ==> db.canonical[a].key != db.canonical[b].key)
    && (forall a, t :: a in db.canonical && t in db.retired ==> db.canonical[a].key != db.retired[t])
  }

  function OutboxIds(db: Database): set<nat> {
    set r | r in db.outbox :: db.outbox[r].envelope.id
  }

  /** Every stored event has exactly one outbox row, and the row carries the event itself. */
  ghost predicate OutboxMatches(db: Database) {
    && OutboxIds(db) == db.canonical.Keys
    && (forall r :: r in db.outbox ==>
          r < db.nextRow && db.outbox[r].envelope.id in db.canonical
          && db.canonical[db.outbox[r].envelope.id] == db.outbox[r].envelope)
    && (forall r, q :: r in db.outbox && q in db.outbox && r != q
                       ==> db.outbox[r].envelope.id != db.outbox[q].envelope.id)
  }

  // ---------------------------------------------------------------- timeline and processed set

  function IdsOf(entries: seq<Entry>): set<nat> {
    set e | e in entries :: e.envelope.id
  }

  predicate Ascending(entries: seq<Entry>, bound: nat) {
    && (forall i, j :: 0 <= i < j < |entries| ==>
          entries[i].cursor < entries[j].cursor && entries[i].envelope.id != entries[j].envelope.id)
    && (forall i :: 0 <= i < |entries| ==> entries[i].cursor < bound)
  }

  ghost predicate TimelineMatches(db: Database, past: Past) {
    && Ascending(past.applied, db.nextCursor)
    && (forall e :: e in past.applied ==>
          e.envelope.id in past.issued && past.issued[e.envelope.id] == e.envelope)
    && db.timeline == Keep(past.applied, db.canonical.Keys)
    && db.processed == IdsOf(past.applied) * db.canonical.Keys
  }

  // ---------------------------------------------------------------- projections

  function MatchEventsIn(entries: seq<Entry>, subject: nat): seq<MatchEvent> {
    if |entries| == 0 then []
    else
      var e := entries[|entries| - 1].envelope;
      var front := MatchEventsIn(entries[..|entries| - 1], subject);
      if e.football.Some? && e.subject == subject then front + [e.football.value] else front
  }

  function PrunedAt(past: Past, subject: nat): nat {
    if subject in past.pruned then past.pruned[subject] else 0
  }

  ghost predicate MatchesFold(db: Database, past: Past) {
    forall subject ::
      && PrunedAt(past, subject) <= |past.applied|
      && MatchStateOf(db, subject) == Fold(MatchEventsIn(past.applied[PrunedAt(past, subject)..], subject))
  }

  ghost predicate StoreOk(db: Database, past: Past) {
    Registered(db, past) && KeysDistinct(db) && OutboxMatches(db) && TimelineMatches(db, past)
    && MatchesFold(db, past)
  }

  // ---------------------------------------------------------------- keeping entries

  lemma KeepAppend(entries: seq<Entry>, e: Entry, ids: set<nat>)
    ensures Keep(entries + [e], ids) == if e.envelope.id in ids then Keep(entries, ids) + [e] else Keep(entries, ids)
  {
    assert (entries + [e])[..|entries|] == entries;
  }

  lemma {:induction false} KeepTwice(entries: seq<Entry>, ids: set<nat>, more: set<nat>)
    ensures Keep(Keep(entries, ids), more) == Keep(entries, ids * more)
  {
    if |entries| > 0 {
      var n := |entries| - 1;
      KeepTwice(entries[..n], ids, more);
      KeepAppend(Keep(entries[..n], ids), entries[n], more);
    }
  }

  lemma {:induction false} KeepSame(entries: seq<Entry>, ids: set<nat>, more: set<nat>)
    requires forall e :: e in entries ==> (e.envelope.id in ids <==> e.envelope.id in more)
    ensures Keep(entries, ids) == Keep(entries, more)
  {
    if |entries| > 0 {
      KeepSame(entries[..|entries| - 1], ids, more);
    }
  }

  lemma {:induction false} KeepSelects(entries: seq<Entry>, ids: set<nat>)
    ensures forall e :: e in Keep(entries, ids) <==> e in entries && e.envelope.id in ids
    ensures IdsOf(Keep(entries, ids)) == IdsOf(entries) * ids
  {
    if |entries| > 0 {
      var n := |entries| - 1;
      KeepSelects(entries[..n], ids);
      assert entries == entries[..n] + [entries[n]];
      IdsAppend(entries[..n], entries[n]);
      IdsAppend(Keep(entries[..n], ids), entries[n]);
      hide IdsOf;
    }
  }

  lemma AscendingAppend(entries: seq<Entry>, e: Entry, bound: nat)
    requires Ascending(entries, bound) && e.cursor < bound
    requires forall x :: x in entries ==> x.cursor < e.cursor && x.envelope.id != e.envelope.id
    ensures Ascending(entries + [e], bound)
  {
    forall i | 0 <= i < |entries| ensures entries[i].cursor < e.cursor && entries[i].envelope.id != e.envelope.id {
      assert entries[i] in entries;
    }
  }

  lemma {:induction false} KeepSound(entries: seq<Entry>, ids: set<nat>, bound: nat)
    requires Ascending(entries, bound)
    ensures Ascending(Keep(entries, ids), bound)
    ensures IdsOf(Keep(entries, ids)) == IdsOf(entries) * ids
    ensures forall e :: e in Keep(entries, ids) ==> e in entries
  {
    KeepSelects(entries, ids);
    if |entries| > 0 {
      var n := |entries| - 1;
      KeepSound(entries[..n], ids, bound);
      hide IdsOf;
      forall x | x in Keep(entries[..n], ids)
        ensures x.cursor < entries[n].cursor && x.envelope.id != entries[n].envelope.id
      {
        var i :| 0 <= i < n && entries[i] == x;
      }
      if entries[n].envelope.id in ids { AscendingAppend(Keep(entries[..n], ids), entries[n], bound); }
    }
  }

  lemma IdsAppend(entries: seq<Entry>, e: Entry)
    ensures IdsOf(entries + [e]) == IdsOf(entries) + {e.envelope.id}
  {
    assert forall x :: x in entries + [e] <==> x in entries || x == e;
  }

  /** The timeline holds each processed event once, in cursor order, and nothing else. */
  lemma TimelineIsProcessedOnce(db: Database, past: Past)
    requires StoreOk(db, past)
    ensures Ascending(db.timeline, db.nextCursor)
    ensures IdsOf(db.timeline) == db.processed
  {
    KeepSound(past.applied, db.canonical.Keys, db.nextCursor);
  }

  // ---------------------------------------------------------------- persist

  function PersistPast(db: Database, past: Past, event: Envelope): Past {
    if PersistOutcome(db, event).Inserted? then
      past.(issued := past.issued[event.id := event], order := past.order + [event])
    else past
  }

  lemma PersistKeepsKeys(db: Database, past: Past, event: Envelope)
    requires Registered(db, past) && KeysDistinct(db) && event.id !in past.issued
    ensures Registered(Persist(db, event), PersistPast(db, past, event)) && KeysDistinct(Persist(db, event))
  {
  }

  lemma PersistKeepsOutbox(db: Database, event: Envelope)
    requires OutboxMatches(db) && event.id !in db.canonical
    ensures OutboxMatches(Persist(db, event))
  {
    if PersistOutcome(db, event).Inserted? {
      var after := Persist(db, event);
      hide PersistOutcome;
      assert db.nextRow !in db.outbox;
      OutboxGrows(db.outbox, after.outbox, db.nextRow, event);
    }
  }

  lemma OutboxGrows(rows: map<nat, OutboxRow>, more: map<nat, OutboxRow>, row: nat, event: Envelope)
    requires row !in rows && more == rows[row := OutboxRow(event, None, None, 0)]
    ensures (set r | r in more :: more[r].envelope.id) == (set r | r in rows :: rows[r].envelope.id) + {event.id}
  {
    assert more.Keys == rows.Keys + {row};
    assert forall r :: r in rows ==> r in more && more[r] == rows[r];
    assert more[row].envelope.id == event.id;
  }

  lemma PersistKeepsTimeline(db: Database, past: Past, event: Envelope)
    requires Registered(db, past) && TimelineMatches(db, past) && event.id !in past.issued
    ensures TimelineMatches(Persist(db, event), PersistPast(db, past, event))
  {
    var after := Persist(db, event);
    if PersistOutcome(db, event).Inserted? {
      KeepSame(past.applied, db.canonical.Keys, after.canonical.Keys);
    }
  }

  lemma MatchesUnmoved(db: Database, past: Past, after: Database, later: Past)
    requires MatchesFold(db, past) && after.matches == db.matches
    requires later.applied == past.applied && later.pruned == past.pruned
    ensures MatchesFold(after, later)
  {
    hide Fold, MatchEventsIn;
    forall subject
      ensures PrunedAt(later, subject) <= |later.applied|
              && MatchStateOf(after, subject) == Fold(MatchEventsIn(later.applied[PrunedAt(later, subject)..], subject))
    {
      assert PrunedAt(later, subject) == PrunedAt(past, subject);
      assert MatchStateOf(after, subject) == MatchStateOf(db, subject);
    }
  }

  lemma PersistKeepsStore(db: Database, past: Past, event: Envelope)
    requires StoreOk(db, past) && event.id !in past.issued
    ensures StoreOk(Persist(db, event), PersistPast(db, past, event))
  {
    hide Registered, KeysDistinct, OutboxMatches, TimelineMatches, MatchesFold;
    assert event.id !in db.canonical by { RegisteredIds(db, past); }
    PersistKeepsKeys(db, past, event);
    PersistKeepsOutbox(db, event);
    PersistKeepsTimeline(db, past, event);
    MatchesUnmoved(db, past, Persist(db, event), PersistPast(db, past, event));
  }

  lemma RegisteredIds(db: Database, past: Past)
    requires Registered(db, past)
    ensures db.canonical.Keys <= past.issued.Keys
  {
  }

  // ---------------------------------------------------------------- claims and marks

  /** Claims, marks and failures only rewrite the bookkeeping columns of outbox rows. */
  predicate SameEnvelopes(db: Database, after: Database) {
    && after == db.(outbox := after.outbox)
    && after.outbox.Keys == db.outbox.Keys
    && forall r :: r in db.outbox ==> after.outbox[r].envelope == db.outbox[r].envelope
  }

  lemma RelabelKeepsOutbox(db: Database, after: Database)
    requires OutboxMatches(db) && SameEnvelopes(db, after)
    ensures OutboxMatches(after)
  {
    forall id | id in OutboxIds(db) ensures id in OutboxIds(after) {
      var r :| r in db.outbox && db.outbox[r].envelope.id == id;
      assert after.outbox[r].envelope.id == id;
    }
  }

  lemma KeysIgnoreOutbox(db: Database, past: Past, after: Database)
    requires Registered(db, past) && KeysDistinct(db)
    requires after.canonical == db.canonical && after.retired == db.retired
    ensures Registered(after, past) && KeysDistinct(after)
  {
  }

  lemma TimelineIgnoresOutbox(db: Database, past: Past, after: Database)
    requires TimelineMatches(db, past) && after.canonical == db.canonical && after.timeline == db.timeline
    requires after.nextCursor == db.nextCursor && after.processed == db.processed
    ensures TimelineMatches(after, past)
  {
    hide Keep, Ascending;
  }

  lemma RelabelKeepsStore(db: Database, past: Past, after: Database)
    requires StoreOk(db, past) && SameEnvelopes(db, after)
    ensures StoreOk(after, past)
  {
    hide Registered, KeysDistinct, OutboxMatches, TimelineMatches, MatchesFold;
    RelabelKeepsOutbox(db, after);
    MatchesUnmoved(db, past, after, past);
    KeysIgnoreOutbox(db, past, after);
    TimelineIgnoresOutbox(db, past, after);
  }

  lemma OutboxStepsKeepEnvelopes(db: Database, row: nat, limit: nat, now: int)
    ensures SameEnvelopes(db, ClaimRows(db, now, limit))
    ensures SameEnvelopes(db, MarkPublished(db, row, now))
    ensures SameEnvelopes(db, MarkFailed(db, row))
  {
    hide RowsToClaim;
  }

  // ---------------------------------------------------------------- project

  predicate Projects(db: Database, event: Envelope) {
    Projectable(db, event) && !Poisonous(db, event)
  }

  function ProjectPast(db: Database, past: Past, event: Envelope, cursor: nat): Past {
    if Projects(db, event) then past.(applied := past.applied + [Entry(cursor, event)]) else past
  }

  predicate IsIssued(past: Past, event: Envelope) {
    event.id in past.issued && past.issued[event.id] == event
  }

  lemma AppliedGrows(applied: seq<Entry>, e: Entry, bound: nat)
    requires Ascending(applied, bound) && e.cursor >= bound && e.envelope.id !in IdsOf(applied)
    ensures Ascending(applied + [e], e.cursor + 1)
  {
    forall x | x in applied ensures x.cursor < e.cursor && x.envelope.id != e.envelope.id {
      var i :| 0 <= i < |applied| && applied[i] == x;
      assert x.envelope.id in IdsOf(applied);
    }
    AscendingAppend(applied, e, e.cursor + 1);
  }

  lemma ProjectKeepsTimeline(db: Database, past: Past, event: Envelope, cursor: nat, now: int)
    requires TimelineMatches(db, past) && IsIssued(past, event) && cursor >= db.nextCursor && Projects(db, event)
    ensures TimelineMatches(Project(db, event, cursor, now), ProjectPast(db, past, event, cursor))
  {
    hide MatchesAfter, Poisonous;
    var e := Entry(cursor, event);
    AppliedGrows(past.applied, e, db.nextCursor);
    KeepAppend(past.applied, e, db.canonical.Keys);
    IdsAppend(past.applied, e);
    hide Keep, Ascending, IdsOf;
  }

  lemma MatchEventsAppend(entries: seq<Entry>, e: Entry, subject: nat)
    ensures MatchEventsIn(entries + [e], subject)
            == if e.envelope.football.Some? && e.envelope.subject == subject
               then MatchEventsIn(entries, subject) + [e.envelope.football.value]
               else MatchEventsIn(entries, subject)
  {
    assert (entries + [e])[..|entries|] == entries;
  }

  lemma ProjectKeepsMatches(db: Database, past: Past, event: Envelope, cursor: nat, now: int)
    requires MatchesFold(db, past) && Projects(db, event)
    ensures MatchesFold(Project(db, event, cursor, now), ProjectPast(db, past, event, cursor))
  {
    hide MatchEventsIn, Fold;
    var e := Entry(cursor, event);
    var after := Project(db, event, cursor, now);
    var later := ProjectPast(db, past, event, cursor);
    forall subject
      ensures PrunedAt(later, subject) <= |later.applied|
              && MatchStateOf(after, subject) == Fold(MatchEventsIn(later.applied[PrunedAt(later, subject)..], subject))
    {
      var from := PrunedAt(past, subject);
      assert PrunedAt(later, subject) == from;
      assert MatchStateOf(db, subject) == Fold(MatchEventsIn(past.applied[from..], subject));
      assert later.applied[from..] == past.applied[from..] + [e];
      MatchEventsAppend(past.applied[from..], e, subject);
      if event.football.Some? && event.subject == subject {
        FoldAppend(MatchEventsIn(past.applied[from..], subject), event.football.value);
        ProjectedRow(db, event, cursor, now);
      } else {
        assert MatchStateOf(after, subject) == MatchStateOf(db, subject);
      }
    }
  }

  lemma ProjectedRow(db: Database, event: Envelope, cursor: nat, now: int)
    requires Projects(db, event) && event.football.Some?
    ensures MatchStateOf(Project(db, event, cursor, now), event.subject)
            == Step(MatchStateOf(db, event.subject), event.football.value)
  {
    hide Reduce;
  }

  lemma ProjectKeepsStore(db: Database, past: Past, event: Envelope, cursor: nat, now: int)
    requires StoreOk(db, past) && IsIssued(past, event) && cursor >= db.nextCursor
    ensures StoreOk(Project(db, event, cursor, now), ProjectPast(db, past, event, cursor))
  {
    if Projects(db, event) {
      hide TimelineMatches, MatchesFold, MatchesAfter;
      ProjectKeepsTimeline(db, past, event, cursor, now);
      ProjectKeepsMatches(db, past, event, cursor, now);
    }
  }

  // ---------------------------------------------------------------- retire

  function RetirePast(db: Database, past: Past, policy: Policy, ids: set<nat>): Past {
    past.(pruned := past.pruned + map m | m in StaleMatches(db, policy, ids) :: |past.applied|)
  }

  lemma RetireKeepsKeys(db: Database, past: Past, policy: Policy, ids: set<nat>)
    requires Registered(db, past) && KeysDistinct(db)
    ensures Registered(Retire(db, policy, ids), RetirePast(db, past, policy, ids))
    ensures KeysDistinct(Retire(db, policy, ids))
  {
    hide StaleMatches, Keep;
  }

  lemma RetireKeepsOutbox(db: Database, policy: Policy, ids: set<nat>)
    requires OutboxMatches(db)
    ensures OutboxMatches(Retire(db, policy, ids))
  {
    hide StaleMatches, Keep, Tombstones;
    var after := Retire(db, policy, ids);
    forall id | id in after.canonical ensures id in OutboxIds(after) {
      assert id in OutboxIds(db);
      var r :| r in db.outbox && db.outbox[r].envelope.id == id;
      assert r in after.outbox && after.outbox[r].envelope.id == id;
    }
  }

  lemma RetireKeepsTimeline(db: Database, past: Past, policy: Policy, ids: set<nat>)
    requires TimelineMatches(db, past)
    ensures TimelineMatches(Retire(db, policy, ids), RetirePast(db, past, policy, ids))
  {
    hide StaleMatches, Tombstones;
    KeepTwice(past.applied, db.canonical.Keys, db.canonical.Keys - ids);
    assert db.canonical.Keys * (db.canonical.Keys - ids) == db.canonical.Keys - ids;
    assert (db.canonical - ids).Keys == db.canonical.Keys - ids;
    hide Keep;
  }

  lemma NothingFolds(subject: nat)
    ensures Fold(MatchEventsIn([], subject)) == None
  {
  }

  lemma RetireKeepsMatches(db: Database, past: Past, policy: Policy, ids: set<nat>)
    requires MatchesFold(db, past)
    ensures MatchesFold(Retire(db, policy, ids), RetirePast(db, past, policy, ids))
  {
    hide StaleMatches, Keep, Tombstones, Fold;
    var after := Retire(db, policy, ids);
    var later := RetirePast(db, past, policy, ids);
    forall subject
      ensures PrunedAt(later, subject) <= |later.applied|
              && MatchStateOf(after, subject) == Fold(MatchEventsIn(later.applied[PrunedAt(later, subject)..], subject))
    {
      if subject in StaleMatches(db, policy, ids) {
        assert later.applied[|later.applied|..] == [];
        NothingFolds(subject);
      } else {
        assert PrunedAt(later, subject) == PrunedAt(past, subject);
        assert MatchStateOf(after, subject) == MatchStateOf(db, subject);
      }
    }
  }

  lemma RetireKeepsStore(db: Database, past: Past, policy: Policy, ids: set<nat>)
    requires StoreOk(db, past)
    ensures StoreOk(Retire(db, policy, ids), RetirePast(db, past, policy, ids))
  {
    hide Registered, KeysDistinct, OutboxMatches, TimelineMatches, MatchesFold;
    RetireKeepsKeys(db, past, policy, ids);
    RetireKeepsOutbox(db, policy, ids);
    RetireKeepsTimeline(db, past, policy, ids);
    RetireKeepsMatches(db, past, policy, ids);
  }

  lemma EmptyStoreOk()
    ensures StoreOk(EmptyDatabase, NoPast)
  {
    assert OutboxIds(EmptyDatabase) == {};
  }
}
