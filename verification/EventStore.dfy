/**
 The relational store behind the event pipeline, and its transactions as functions.

 Tables are maps by primary key. Deleting a canonical event deletes its outbox, processed and timeline
 rows with it, as the foreign keys demand. Times are in seconds. A tombstone keeps the dedupe key
 itself where the table keeps its SHA-256 digest.
 */
module EventStore {
  import opened Common
  import opened MatchEvents
  import opened MatchReducer
  import opened Ordering

  datatype DedupeKey = FixtureKey(fixture: nat, identity: Identity) | OtherKey(text: string)

  // `football` is None for the events of all other providers.
  datatype Envelope = Envelope(
    id: nat, key: DedupeKey, subject: nat, ingestedAt: int, football: Option<MatchEvent>)

  datatype OutboxRow = OutboxRow(
    envelope: Envelope, publishedAt: Option<int>, claimedAt: Option<int>, attempts: nat)

  datatype MatchRow = MatchRow(state: MatchState, lastEvent: nat, updatedAt: int)

  datatype Entry = Entry(cursor: nat, envelope: Envelope)

  datatype Database = Database(
    canonical: map<nat, Envelope>,
    outbox: map<nat, OutboxRow>,
    nextRow: nat,
    processed: set<nat>,
    timeline: seq<Entry>,
    nextCursor: nat,
    matches: map<nat, MatchRow>,
    retired: map<nat, DedupeKey>)

  const EmptyDatabase := Database(map[], map[], 0, {}, [], 0, map[], map[])

  // ---------------------------------------------------------------- persist_event_and_outbox

  datatype PersistResult = Inserted | Duplicate | RetiredDuplicate | IntegrityFailure

  predicate Tombstoned(db: Database, key: DedupeKey) {
    exists id :: id in db.retired && db.retired[id] == key
  }

  predicate KeyIsLive(db: Database, key: DedupeKey) {
    exists id :: id in db.canonical && db.canonical[id].key == key
  }

  /** The key belongs to an event that is stored or was retired. */
  predicate Taken(db: Database, key: DedupeKey) {
    Tombstoned(db, key) || KeyIsLive(db, key)
  }

  function PersistOutcome(db: Database, event: Envelope): PersistResult {
    if Tombstoned(db, event.key) then RetiredDuplicate
    else if KeyIsLive(db, event.key) then Duplicate
    else if event.id in db.canonical then IntegrityFailure
    else Inserted
  }

  function Persist(db: Database, event: Envelope): Database {
    if PersistOutcome(db, event).Inserted? then
      db.(canonical := db.canonical[event.id := event],
          outbox := db.outbox[db.nextRow := OutboxRow(event, None, None, 0)],
          nextRow := db.nextRow + 1)
    else db
  }

  // ---------------------------------------------------------------- publish_pending_once

  const CLAIM_SECONDS := 30

  datatype Claim = Claim(row: nat, envelope: Envelope)

  predicate Claimable(row: OutboxRow, now: int) {
    row.publishedAt.None? && (row.claimedAt.None? || row.claimedAt.value < now - CLAIM_SECONDS)
  }

  function ClaimableRows(db: Database, now: int): set<nat> {
    set r | r in db.outbox && Claimable(db.outbox[r], now)
  }

  function RowRank(db: Database): map<nat, int> {
    map r | r in db.outbox :: 0
  }

  function RowsToClaim(db: Database, now: int, limit: nat): seq<nat> {
    Take(Ordered(ClaimableRows(db, now), RowRank(db)), limit)
  }

  function ClaimRows(db: Database, now: int, limit: nat): Database {
    var rows := Elements(RowsToClaim(db, now, limit));
    db.(outbox := map r | r in db.outbox ::
          if r in rows then db.outbox[r].(claimedAt := Some(now)) else db.outbox[r])
  }

  function Claims(db: Database, rows: seq<nat>): seq<Claim> {
    if |rows| == 0 then []
    else if rows[0] in db.outbox then [Claim(rows[0], db.outbox[rows[0]].envelope)] + Claims(db, rows[1..])
    else Claims(db, rows[1..])
  }

  function MarkPublished(db: Database, row: nat, now: int): Database {
    if row in db.outbox && db.outbox[row].publishedAt.None? then
      db.(outbox := db.outbox[row := db.outbox[row].(publishedAt := Some(now), claimedAt := None)])
    else db
  }

  function MarkFailed(db: Database, row: nat): Database {
    if row in db.outbox then
      var r := db.outbox[row];
      db.(outbox := db.outbox[row := r.(attempts := r.attempts + 1, claimedAt := None)])
    else db
  }

  // ---------------------------------------------------------------- process_canonical_event

  predicate Projectable(db: Database, event: Envelope) {
    event.id in db.canonical && event.id !in db.processed
  }

  function MatchStateOf(db: Database, subject: nat): Option<MatchState> {
    if subject in db.matches then Some(db.matches[subject].state) else None
  }

  /** The reducer refuses the event, so its transaction rolls back. */
  predicate Poisonous(db: Database, event: Envelope) {
    Projectable(db, event) && event.football.Some?
    && Reduce(MatchStateOf(db, event.subject), event.football.value).Err?
  }

  function MatchesAfter(db: Database, event: Envelope, now: int): map<nat, MatchRow> {
    if event.football.None? then db.matches
    else
      var current := MatchStateOf(db, event.subject);
      var next := Step(current, event.football.value);
      if next == current || next.None? then db.matches
      else db.matches[event.subject := MatchRow(next.value, event.id, now)]
  }

  /** `cursor` is the value the sequence hands out; rolled-back transactions may leave gaps. */
  function Project(db: Database, event: Envelope, cursor: nat, now: int): Database {
    if !Projectable(db, event) || Poisonous(db, event) then db
    else
      db.(processed := db.processed + {event.id},
          timeline := db.timeline + [Entry(cursor, event)],
          nextCursor := cursor + 1,
          matches := MatchesAfter(db, event, now))
  }

  // ---------------------------------------------------------------- apply_retention

  /** `cutoff` is `now` less the retention period; `active` is the match the demo control protects. */
  datatype Policy = Policy(cutoff: int, active: Option<nat>)

  function Protected(db: Database, policy: Policy): set<nat> {
    (set m | m in db.matches && (db.matches[m].state.status.Live? || db.matches[m].state.status.Interval?))
    + (if policy.active.Some? then {policy.active.value} else {})
  }

  function LastStateEvents(db: Database, policy: Policy): set<nat> {
    set m | m in db.matches
            && (db.matches[m].updatedAt >= policy.cutoff || m in Protected(db, policy))
      :: db.matches[m].lastEvent
  }

  predicate Published(db: Database, id: nat) {
    exists r :: r in db.outbox && db.outbox[r].envelope.id == id && db.outbox[r].publishedAt.Some?
  }

  predicate IsEligible(db: Database, policy: Policy, id: nat) {
    && id in db.canonical
    && db.canonical[id].ingestedAt < policy.cutoff
    && Published(db, id)
    && id in db.processed
    && id !in LastStateEvents(db, policy)
    && (db.canonical[id].football.None? || db.canonical[id].subject !in Protected(db, policy))
  }

  function Eligible(db: Database, policy: Policy): set<nat> {
    set id | id in db.canonical && IsEligible(db, policy, id)
  }

  function IngestRank(db: Database): map<nat, int> {
    map id | id in db.canonical :: db.canonical[id].ingestedAt
  }

  function RetirementBatch(db: Database, policy: Policy, limit: nat): seq<nat> {
    Take(Ordered(Eligible(db, policy), IngestRank(db)), limit)
  }

  function OldEvents(db: Database, policy: Policy): set<nat> {
    set id | id in db.canonical && db.canonical[id].ingestedAt < policy.cutoff
  }

  // What the report of a batch counts beside the eligible events.
  function DeferredUnpublished(db: Database, policy: Policy): set<nat> {
    set id | id in OldEvents(db, policy) && !Published(db, id)
  }

  function DeferredUnprojected(db: Database, policy: Policy): set<nat> {
    set id | id in OldEvents(db, policy) && Published(db, id) && id !in db.processed
  }

  function ProtectedActive(db: Database, policy: Policy): set<nat> {
    set id | id in OldEvents(db, policy) && db.canonical[id].football.Some?
             && db.canonical[id].subject in Protected(db, policy)
  }

  function RetainedLast(db: Database, policy: Policy): set<nat> {
    OldEvents(db, policy) * LastStateEvents(db, policy)
  }

  function MatchEventsOf(db: Database, subject: nat): set<nat> {
    set id | id in db.canonical && db.canonical[id].football.Some? && db.canonical[id].subject == subject
  }

  /** Stale projections whose last event and whole remaining history leave with this batch. */
  function StaleMatches(db: Database, policy: Policy, ids: set<nat>): set<nat> {
    set m | m in db.matches
            && db.matches[m].updatedAt < policy.cutoff
            && m !in Protected(db, policy)
            && db.matches[m].lastEvent in ids
            && MatchEventsOf(db, m) != {}
            && MatchEventsOf(db, m) <= ids
  }

  function Keep(entries: seq<Entry>, ids: set<nat>): seq<Entry> {
    if |entries| == 0 then []
    else
      var kept := Keep(entries[..|entries| - 1], ids);
      if entries[|entries| - 1].envelope.id in ids then kept + [entries[|entries| - 1]] else kept
  }

  function Tombstones(db: Database, ids: set<nat>): map<nat, DedupeKey> {
    map id | id in ids && id in db.canonical && !Tombstoned(db, db.canonical[id].key) :: db.canonical[id].key
  }

  function RowsWithout(outbox: map<nat, OutboxRow>, ids: set<nat>): map<nat, OutboxRow> {
    map r | r in outbox && outbox[r].envelope.id !in ids :: outbox[r]
  }

  function Retire(db: Database, policy: Policy, ids: set<nat>): Database {
    db.(retired := db.retired + Tombstones(db, ids),
        canonical := db.canonical - ids,
        outbox := RowsWithout(db.outbox, ids),
        processed := db.processed - ids,
        timeline := Keep(db.timeline, db.canonical.Keys - ids),
        matches := db.matches - StaleMatches(db, policy, ids))
  }

  function Retain(db: Database, policy: Policy, limit: nat): Database {
    Retire(db, policy, Elements(RetirementBatch(db, policy, limit)))
  }
}
