/** The event pipeline as a state machine. */
module Pipeline {
  import opened Common
  import opened Ordering
  import opened EventStore
  import opened EventInvariants

  // Ingestion, publishers, broker, projector and retention interleave in any order, and publishers and
  // projector may fail or restart between any two steps. Every database transaction is one step. One
  // `getmany` call of the projector is a few `FetchStep`s, one for each partition; partitions are chosen
  // freely, which covers every key hash.

  // One publisher process: the claims it still has to deal with, and whether the first one's record is out.
  datatype Publisher = Publisher(claims: seq<Claim>, sent: bool)

  // `claims` and `sent` belong to the publisher that runs; `others` are waiting to go on.
  datatype System = System(
    db: Database,
    past: Past,
    log: seq<seq<Envelope>>,
    committed: seq<nat>,
    position: seq<nat>,
    batch: seq<Envelope>,
    claims: seq<Claim>,
    sent: bool,
    others: seq<Publisher>)

  datatype Action =
    | PersistStep(event: Envelope)
    | ClaimStep(now: int, limit: nat)
    | SendStep(partition: nat)            // the broker appends the record of the first claim
    | MarkStep(now: int)
    | FailStep                            // before or after the append: the publisher cannot tell
    | PublisherCrashStep
    | SwitchStep(index: nat)              // another publisher goes on, a new one at the end of the list
    | FetchStep(partition: nat, count: nat)
    | ProjectStep(cursor: nat, now: int)
    | CommitStep
    | ConsumerRestartStep
    | RetainStep(policy: Policy, limit: nat)

  predicate Shaped(s: System) {
    && |s.committed| == |s.log| && |s.position| == |s.log|
    && forall p :: 0 <= p < |s.log| ==> s.committed[p] <= s.position[p] <= |s.log[p]|
  }

  predicate Enabled(s: System, action: Action)
    requires Shaped(s)
  {
    match action
    case PersistStep(event) => event.id !in s.past.issued
    case ClaimStep(_, _) => s.claims == []
    case SendStep(p) => s.claims != [] && !s.sent && p < |s.log|
    case MarkStep(_) => s.claims != [] && s.sent
    case FailStep => s.claims != []
    case PublisherCrashStep => true
    case SwitchStep(i) => i <= |s.others|
    case FetchStep(p, count) => p < |s.log| && s.position[p] + count <= |s.log[p]|
    case ProjectStep(cursor, _) => s.batch != [] && cursor >= s.db.nextCursor
    case CommitStep => s.batch == []
    case ConsumerRestartStep => true
    case RetainStep(_, _) => true
  }

  function Restarted(s: System): System {
    s.(position := s.committed, batch := [])
  }

  function Switched(s: System, i: nat): System
    requires i <= |s.others|
  {
    var waiting := Publisher(s.claims, s.sent);
    if i == |s.others| then s.(others := s.others + [waiting], claims := [], sent := false)
    else s.(others := s.others[i := waiting], claims := s.others[i].claims, sent := s.others[i].sent)
  }

  function Next(s: System, action: Action): (t: System)
    requires Shaped(s) && Enabled(s, action)
    ensures Shaped(t)
  {
    match action
    case PersistStep(event) =>
      s.(db := Persist(s.db, event), past := PersistPast(s.db, s.past, event))
    case ClaimStep(now, limit) =>
      s.(db := ClaimRows(s.db, now, limit), claims := Claims(s.db, RowsToClaim(s.db, now, limit)), sent := false)
    case SendStep(p) =>
      s.(log := s.log[p := s.log[p] + [s.claims[0].envelope]], sent := true)
    case MarkStep(now) =>
      s.(db := MarkPublished(s.db, s.claims[0].row, now), claims := s.claims[1..], sent := false)
    case FailStep =>
      s.(db := MarkFailed(s.db, s.claims[0].row), claims := s.claims[1..], sent := false)
    case PublisherCrashStep =>
      s.(claims := [], sent := false)
    case SwitchStep(i) =>
      Switched(s, i)
    case FetchStep(p, count) =>
      s.(batch := s.batch + s.log[p][s.position[p]..s.position[p] + count],
         position := s.position[p := s.position[p] + count])
    case ProjectStep(cursor, now) =>
      if Poisonous(s.db, s.batch[0]) then Restarted(s)
      else
        s.(db := Project(s.db, s.batch[0], cursor, now),
           past := ProjectPast(s.db, s.past, s.batch[0], cursor),
           batch := s.batch[1..])
    case CommitStep =>
      s.(committed := s.position)
    case ConsumerRestartStep =>
      Restarted(s)
    case RetainStep(policy, limit) =>
      var ids := Elements(RetirementBatch(s.db, policy, limit));
      s.(db := Retain(s.db, policy, limit), past := RetirePast(s.db, s.past, policy, ids))
  }

  // ---------------------------------------------------------------- the invariant

  /** Nothing is left to do for this event: it is projected, or no longer stored. */
  predicate Handled(db: Database, id: nat) {
    id !in db.canonical || id in db.processed
  }

  /** A record of the event still lies at or after the committed offset of its partition. */
  ghost predicate InTail(log: seq<seq<Envelope>>, committed: seq<nat>, id: nat)
    requires |committed| == |log|
  {
    exists p, i :: 0 <= p < |log| && committed[p] <= i < |log[p]| && log[p][i].id == id
  }

  ghost predicate Safe(s: System, id: nat)
    requires Shaped(s)
  {
    Handled(s.db, id) || InTail(s.log, s.committed, id)
  }

  /** Some publisher holds this claim. */
  ghost predicate Holds(s: System, c: Claim) {
    c in s.claims || exists o :: o in s.others && c in o.claims
  }

  ghost predicate RecordsIssued(s: System) {
    && (forall p, i :: 0 <= p < |s.log| && 0 <= i < |s.log[p]| ==> IsIssued(s.past, s.log[p][i]))
    && (forall e :: e in s.batch ==> IsIssued(s.past, e))
    && (forall c :: Holds(s, c) ==> IsIssued(s.past, c.envelope))
  }

  ghost predicate ClaimsFit(s: System) {
    forall c :: Holds(s, c) ==>
      c.row < s.db.nextRow && (c.row in s.db.outbox ==> s.db.outbox[c.row].envelope == c.envelope)
  }

  /** The projector has finished everything it committed, and holds the rest of what it fetched. */
  ghost predicate ConsumerOk(s: System)
    requires Shaped(s)
  {
    && (forall p, i :: 0 <= p < |s.log| && 0 <= i < s.committed[p] ==> Handled(s.db, s.log[p][i].id))
    && (forall p, i :: 0 <= p < |s.log| && 0 <= i < s.position[p]
                       ==> Handled(s.db, s.log[p][i].id) || s.log[p][i] in s.batch)
  }

  ghost predicate PublisherOk(s: System)
    requires Shaped(s)
  {
    && (forall r :: r in s.db.outbox && s.db.outbox[r].publishedAt.Some? ==> Safe(s, s.db.outbox[r].envelope.id))
    && (s.sent ==> s.claims != [] && Safe(s, s.claims[0].envelope.id))
    && (forall o :: o in s.others && o.sent ==> o.claims != [] && Safe(s, o.claims[0].envelope.id))
  }

  ghost predicate SystemOk(s: System) {
    Shaped(s) && StoreOk(s.db, s.past) && RecordsIssued(s) && ClaimsFit(s) && ConsumerOk(s) && PublisherOk(s)
  }

  // ---------------------------------------------------------------- handled and safe events stay so

  lemma StoreStepsKeep(s: System, action: Action)
    requires SystemOk(s) && Enabled(s, action)
    ensures StoreOk(Next(s, action).db, Next(s, action).past)
  {
    hide StoreOk, Persist, Project, Retire, ClaimRows, MarkPublished, MarkFailed, ConsumerOk, PublisherOk, ClaimsFit, Claims;
    match action
    case PersistStep(event) => PersistKeepsStore(s.db, s.past, event);
    case ClaimStep(now, limit) =>
      OutboxStepsKeepEnvelopes(s.db, 0, limit, now);
      RelabelKeepsStore(s.db, s.past, ClaimRows(s.db, now, limit));
    case MarkStep(now) =>
      OutboxStepsKeepEnvelopes(s.db, s.claims[0].row, 0, now);
      RelabelKeepsStore(s.db, s.past, MarkPublished(s.db, s.claims[0].row, now));
    case FailStep =>
      OutboxStepsKeepEnvelopes(s.db, s.claims[0].row, 0, 0);
      RelabelKeepsStore(s.db, s.past, MarkFailed(s.db, s.claims[0].row));
    case ProjectStep(cursor, now) =>
      ProjectKeepsStore(s.db, s.past, s.batch[0], cursor, now);
    case RetainStep(policy, limit) =>
      RetireKeepsStore(s.db, s.past, policy, Elements(RetirementBatch(s.db, policy, limit)));
    case _ =>
  }

  lemma IssuedOnlyGrows(s: System, action: Action)
    requires Shaped(s) && Enabled(s, action)
    ensures forall id :: id in s.past.issued ==>
              id in Next(s, action).past.issued && Next(s, action).past.issued[id] == s.past.issued[id]
    ensures forall id :: id in s.past.issued && Handled(s.db, id) ==> Handled(Next(s, action).db, id)
  {
    hide PersistOutcome, RowsToClaim, Claims, RetirementBatch, StaleMatches, Keep, Tombstones, MatchesAfter, Poisonous;
  }

  // ---------------------------------------------------------------- each part of the invariant

  predicate IssuedGrows(before: Past, after: Past) {
    forall id :: id in before.issued ==> id in after.issued && after.issued[id] == before.issued[id]
  }

  lemma RecordsCarry(s: System, t: System)
    requires RecordsIssued(s) && IssuedGrows(s.past, t.past) && t.log == s.log
    requires (forall e :: e in t.batch ==> e in s.batch) && (forall c :: Holds(t, c) ==> Holds(s, c))
    ensures RecordsIssued(t)
  {
  }

  lemma {:induction false} ClaimsAreRows(db: Database, rows: seq<nat>)
    ensures forall c :: c in Claims(db, rows) ==> c.row in db.outbox && c.envelope == db.outbox[c.row].envelope
  {
    if |rows| > 0 {
      ClaimsAreRows(db, rows[1..]);
    }
  }

  lemma ClaimedRecordsIssued(s: System, now: int, limit: nat)
    requires SystemOk(s) && Enabled(s, ClaimStep(now, limit))
    ensures RecordsIssued(Next(s, ClaimStep(now, limit)))
    ensures ClaimsFit(Next(s, ClaimStep(now, limit)))
  {
    hide RowsToClaim, Claims, MatchesFold, TimelineMatches, KeysDistinct, ConsumerOk, PublisherOk;
    ClaimsAreRows(s.db, RowsToClaim(s.db, now, limit));
  }

  /** Apart from new claims a publisher only lets go of what it holds, and a switch moves nothing. */
  lemma HeldWereHeld(s: System, action: Action)
    requires Shaped(s) && Enabled(s, action) && !action.ClaimStep?
    ensures forall c :: Holds(Next(s, action), c) ==> Holds(s, c)
  {
    hide Persist, Project, Retain, Poisonous, MarkPublished, MarkFailed;
    match action
    case SwitchStep(i) => SwitchMovesNothing(s, i);
    case _ =>
  }

  lemma SwitchMovesNothing(s: System, i: nat)
    requires i <= |s.others|
    ensures forall c :: Holds(Switched(s, i), c) ==> Holds(s, c)
    ensures forall o :: o in Switched(s, i).others ==> o in s.others || o == Publisher(s.claims, s.sent)
    ensures i < |s.others| ==> Publisher(Switched(s, i).claims, Switched(s, i).sent) in s.others
  {
    forall o | o in Switched(s, i).others ensures o in s.others || o == Publisher(s.claims, s.sent) {
      var k :| 0 <= k < |Switched(s, i).others| && Switched(s, i).others[k] == o;
    }
  }

  lemma SentRecordsIssued(s: System, p: nat)
    requires Shaped(s) && RecordsIssued(s) && Enabled(s, SendStep(p))
    ensures RecordsIssued(Next(s, SendStep(p)))
  {
  }

  lemma FetchedRecordsIssued(s: System, p: nat, count: nat)
    requires Shaped(s) && RecordsIssued(s) && Enabled(s, FetchStep(p, count))
    ensures RecordsIssued(Next(s, FetchStep(p, count)))
  {
    var more := s.log[p][s.position[p]..s.position[p] + count];
    forall e | e in more ensures IsIssued(s.past, e) {
      var i :| 0 <= i < |more| && more[i] == e;
      assert s.log[p][s.position[p] + i] == e;
    }
  }

  lemma RecordsStayIssued(s: System, action: Action)
    requires SystemOk(s) && Enabled(s, action)
    ensures RecordsIssued(Next(s, action))
  {
    IssuedOnlyGrows(s, action);
    match action
    case ClaimStep(now, limit) => ClaimedRecordsIssued(s, now, limit);
    case SendStep(p) => SentRecordsIssued(s, p);
    case FetchStep(p, count) => FetchedRecordsIssued(s, p, count);
    case _ =>
      HeldWereHeld(s, action);
      hide StoreOk, RecordsIssued, ConsumerOk, PublisherOk, ClaimsFit, IsIssued, Project, Retain, Persist, Poisonous, Holds;
      RecordsCarry(s, Next(s, action));
  }

  lemma ClaimsStayFit(s: System, action: Action)
    requires SystemOk(s) && Enabled(s, action)
    ensures ClaimsFit(Next(s, action))
  {
    hide MatchesFold, TimelineMatches, KeysDistinct, ConsumerOk, PublisherOk, Claims, RowsToClaim, RetirementBatch,
         PersistOutcome, StaleMatches, Keep, Tombstones, MatchesAfter, Poisonous;
    match action
    case ClaimStep(now, limit) => ClaimedRecordsIssued(s, now, limit);
    case _ =>
      hide Holds;
      HeldWereHeld(s, action);
      RowsKeepEnvelopes(s, action);
      hide Next;
  }

  /** A row never changes its event, and its number is not given out again. */
  lemma RowsKeepEnvelopes(s: System, action: Action)
    requires Shaped(s) && Enabled(s, action)
    ensures var t := Next(s, action);
      && s.db.nextRow <= t.db.nextRow
      && forall row :: row < s.db.nextRow && row in t.db.outbox ==>
           row in s.db.outbox && t.db.outbox[row].envelope == s.db.outbox[row].envelope
  {
    hide RowsToClaim, Claims, RetirementBatch, StaleMatches, Keep, Tombstones, MatchesAfter, Poisonous, PersistOutcome;
  }

  // ---------------------------------------------------------------- the projector's offsets

  lemma FetchKeepsConsumer(s: System, p: nat, count: nat)
    requires Shaped(s) && ConsumerOk(s) && Enabled(s, FetchStep(p, count))
    ensures ConsumerOk(Next(s, FetchStep(p, count)))
  {
    var t := Next(s, FetchStep(p, count));
    var more := s.log[p][s.position[p]..s.position[p] + count];
    forall q, i | 0 <= q < |t.log| && 0 <= i < t.position[q]
      ensures Handled(t.db, t.log[q][i].id) || t.log[q][i] in t.batch
    {
      if q == p && i >= s.position[p] {
        assert more[i - s.position[p]] == t.log[q][i];
      }
    }
  }

  lemma ProjectedIsHandled(db: Database, event: Envelope, cursor: nat, now: int)
    requires !Poisonous(db, event)
    ensures Handled(Project(db, event, cursor, now), event.id)
  {
    hide Poisonous, MatchesAfter;
  }

  /** The head of the batch is done; everything handled before still is. */
  lemma HeadDoneKeepsConsumer(s: System, t: System)
    requires Shaped(s) && ConsumerOk(s) && RecordsIssued(s) && s.batch != []
    requires t.log == s.log && t.committed == s.committed && t.position == s.position && t.batch == s.batch[1..]
    requires Handled(t.db, s.batch[0].id)
    requires forall id :: id in s.past.issued && Handled(s.db, id) ==> Handled(t.db, id)
    ensures ConsumerOk(t)
  {
    hide Handled;
    assert s.batch == [s.batch[0]] + s.batch[1..];
    forall p, i | 0 <= p < |t.log| && 0 <= i < |t.log[p]|
      ensures Handled(s.db, s.log[p][i].id) ==> Handled(t.db, t.log[p][i].id)
    {
      assert IsIssued(s.past, s.log[p][i]);
    }
  }

  lemma RestartKeepsConsumer(s: System)
    requires Shaped(s) && ConsumerOk(s)
    ensures ConsumerOk(Restarted(s))
  {
  }

  lemma ProjectKeepsConsumer(s: System, cursor: nat, now: int)
    requires SystemOk(s) && Enabled(s, ProjectStep(cursor, now))
    ensures ConsumerOk(Next(s, ProjectStep(cursor, now)))
  {
    hide StoreOk, PublisherOk, ClaimsFit, ConsumerOk, RecordsIssued, Project, Poisonous, Handled;
    IssuedOnlyGrows(s, ProjectStep(cursor, now));
    RestartKeepsConsumer(s);
    if !Poisonous(s.db, s.batch[0]) {
      ProjectedIsHandled(s.db, s.batch[0], cursor, now);
      HeadDoneKeepsConsumer(s, Next(s, ProjectStep(cursor, now)));
    }
  }

  lemma SendKeepsConsumer(s: System, p: nat)
    requires Shaped(s) && ConsumerOk(s) && Enabled(s, SendStep(p))
    ensures ConsumerOk(Next(s, SendStep(p)))
  {
    var t := Next(s, SendStep(p));
    assert forall q, i :: 0 <= q < |t.log| && 0 <= i < |s.log[q]| ==> t.log[q][i] == s.log[q][i];
  }

  /** Steps that touch neither log, offsets nor batch. */
  lemma DatabaseStepsKeepConsumer(s: System, t: System)
    requires Shaped(s) && ConsumerOk(s) && RecordsIssued(s)
    requires t.log == s.log && t.committed == s.committed && t.position == s.position && t.batch == s.batch
    requires forall id :: id in s.past.issued && Handled(s.db, id) ==> Handled(t.db, id)
    ensures ConsumerOk(t)
  {
    hide Handled;
    forall p, i | 0 <= p < |t.log| && 0 <= i < |t.log[p]|
      ensures Handled(s.db, s.log[p][i].id) ==> Handled(t.db, t.log[p][i].id)
    {
      assert IsIssued(s.past, s.log[p][i]);
    }
  }

  lemma ConsumerStaysOk(s: System, action: Action)
    requires SystemOk(s) && Enabled(s, action)
    ensures ConsumerOk(Next(s, action))
  {
    match action
    case SendStep(p) => SendKeepsConsumer(s, p);
    case FetchStep(p, count) => FetchKeepsConsumer(s, p, count);
    case ProjectStep(cursor, now) => ProjectKeepsConsumer(s, cursor, now);
    case CommitStep =>
    case ConsumerRestartStep =>
    case _ =>
      IssuedOnlyGrows(s, action);
      hide StoreOk, PublisherOk, ClaimsFit, ConsumerOk, Retain, Persist, Handled;
      DatabaseStepsKeepConsumer(s, Next(s, action));
  }

  // ---------------------------------------------------------------- published events are safe

  /** The log only grows, and offsets are only committed past handled records. */
  ghost predicate Forward(s: System, t: System)
    requires Shaped(s)
  {
    && Shaped(t) && |t.log| == |s.log|
    && (forall p :: 0 <= p < |s.log| ==> s.log[p] <= t.log[p] && t.committed[p] <= |s.log[p]|)
    && (forall p, i :: 0 <= p < |s.log| && s.committed[p] <= i < t.committed[p] ==> Handled(s.db, s.log[p][i].id))
    && (forall id :: id in s.past.issued && Handled(s.db, id) ==> Handled(t.db, id))
  }

  lemma StepsGoForward(s: System, action: Action)
    requires Shaped(s) && ConsumerOk(s) && Enabled(s, action)
    ensures Forward(s, Next(s, action))
  {
    IssuedOnlyGrows(s, action);
    hide Handled, Retain, Persist, Project, Poisonous;
  }

  lemma SafeStays(s: System, t: System, id: nat)
    requires Shaped(s) && Forward(s, t) && id in s.past.issued && Safe(s, id)
    ensures Safe(t, id)
  {
    hide Handled;
    if !Handled(s.db, id) {
      var p, i :| 0 <= p < |s.log| && s.committed[p] <= i < |s.log[p]| && s.log[p][i].id == id;
      assert s.log[p] <= t.log[p];
      assert t.log[p][i].id == id;
    }
  }

  /** Rows published before stay safe, provided the step publishes only safe ones. */
  lemma PublishedStaySafe(s: System, t: System)
    requires Shaped(s) && Shaped(t) && PublisherOk(s) && OutboxMatches(s.db) && Registered(s.db, s.past) && Forward(s, t)
    requires forall r :: r in t.db.outbox && t.db.outbox[r].publishedAt.Some? ==>
               r in s.db.outbox && t.db.outbox[r].envelope == s.db.outbox[r].envelope
               && (s.db.outbox[r].publishedAt.Some? || Safe(s, s.db.outbox[r].envelope.id))
    ensures forall r :: r in t.db.outbox && t.db.outbox[r].publishedAt.Some? ==> Safe(t, t.db.outbox[r].envelope.id)
  {
    hide Safe, Forward;
    forall r | r in t.db.outbox && t.db.outbox[r].publishedAt.Some? ensures Safe(t, t.db.outbox[r].envelope.id) {
      assert s.db.outbox[r].envelope.id in s.db.canonical;
      SafeStays(s, t, t.db.outbox[r].envelope.id);
    }
  }

  /** The record a send appends makes its event safe. */
  lemma SentIsSafe(s: System, p: nat)
    requires Shaped(s) && Enabled(s, SendStep(p))
    ensures Safe(Next(s, SendStep(p)), s.claims[0].envelope.id)
  {
    var t := Next(s, SendStep(p));
    assert t.log[p][|s.log[p]|] == s.claims[0].envelope;
  }

  /** No step marks a row other than that of a claim whose record has been appended. */
  lemma NewlyPublishedAreSafe(s: System, action: Action)
    requires Shaped(s) && PublisherOk(s) && ClaimsFit(s) && Enabled(s, action)
    ensures var t := Next(s, action);
      forall r :: r in t.db.outbox && t.db.outbox[r].publishedAt.Some? ==>
        r in s.db.outbox && t.db.outbox[r].envelope == s.db.outbox[r].envelope
        && (s.db.outbox[r].publishedAt.Some? || Safe(s, s.db.outbox[r].envelope.id))
  {
    hide Safe, PersistOutcome, RowsToClaim, Claims, RetirementBatch, StaleMatches, Keep, Tombstones, MatchesAfter, Poisonous;
  }

  /** The publishers that wait keep their acknowledged records safe while another runs. */
  lemma OthersStaySafe(s: System, action: Action)
    requires SystemOk(s) && Enabled(s, action) && Forward(s, Next(s, action))
    ensures forall o :: o in Next(s, action).others && o.sent
              ==> o.claims != [] && Safe(Next(s, action), o.claims[0].envelope.id)
  {
    hide Safe, Forward, Persist, Project, Retain, Poisonous, StoreOk, ConsumerOk, ClaimsFit;
    var t := Next(s, action);
    assert forall o :: o in t.others ==> o in s.others || o == Publisher(s.claims, s.sent) by {
      if action.SwitchStep? { SwitchMovesNothing(s, action.index); }
    }
    forall o | o in t.others && o.sent ensures o.claims != [] && Safe(t, o.claims[0].envelope.id) {
      HeldStaysSafe(s, t, o.claims[0]);
    }
  }

  /** So does the publisher that runs next. */
  lemma RunningStaysSafe(s: System, action: Action)
    requires SystemOk(s) && Enabled(s, action) && Forward(s, Next(s, action)) && Next(s, action).sent
    ensures var t := Next(s, action); t.claims != [] && Safe(t, t.claims[0].envelope.id)
  {
    hide Safe, Forward, Persist, Project, Retain, Poisonous, StoreOk, ConsumerOk, ClaimsFit;
    var t := Next(s, action);
    if action.SendStep? {
      SentIsSafe(s, action.partition);
    } else {
      if action.SwitchStep? { SwitchMovesNothing(s, action.index); }
      HeldStaysSafe(s, t, t.claims[0]);
    }
  }

  lemma HeldStaysSafe(s: System, t: System, c: Claim)
    requires Shaped(s) && RecordsIssued(s) && Forward(s, t) && Holds(s, c) && Safe(s, c.envelope.id)
    ensures Safe(t, c.envelope.id)
  {
    hide Holds, Safe, Forward;
    assert IsIssued(s.past, c.envelope);
    SafeStays(s, t, c.envelope.id);
  }

  lemma PublisherStaysOk(s: System, action: Action)
    requires SystemOk(s) && Enabled(s, action)
    ensures PublisherOk(Next(s, action))
  {
    StepsGoForward(s, action);
    NewlyPublishedAreSafe(s, action);
    PublishedStaySafe(s, Next(s, action));
    OthersStaySafe(s, action);
    if Next(s, action).sent { RunningStaysSafe(s, action); }
    hide Next, Safe, Forward, Shaped;
  }

  lemma StepsKeepSystem(s: System, action: Action)
    requires SystemOk(s) && Enabled(s, action)
    ensures SystemOk(Next(s, action))
  {
    StepsGoForward(s, action);
    StoreStepsKeep(s, action);
    RecordsStayIssued(s, action);
    ClaimsStayFit(s, action);
    ConsumerStaysOk(s, action);
    PublisherStaysOk(s, action);
    hide StoreOk, RecordsIssued, ClaimsFit, ConsumerOk, PublisherOk, Next;
  }

  // ---------------------------------------------------------------- runs

  function Initial(partitions: nat): System {
    System(EmptyDatabase, NoPast, seq(partitions, _ => []), seq(partitions, _ => 0), seq(partitions, _ => 0), [], [], false, [])
  }

  /** The states of a run: each step is enabled in the state that it leaves. */
  ghost predicate IsRun(states: seq<System>, actions: seq<Action>) {
    && |states| == |actions| + 1
    && Shaped(states[0]) && states[0] == Initial(|states[0].log|)
    && forall i :: 0 <= i < |actions| ==>
         Shaped(states[i]) && Enabled(states[i], actions[i]) && states[i + 1] == Next(states[i], actions[i])
  }

  lemma {:induction false} ReachableIsOk(states: seq<System>, actions: seq<Action>, i: nat)
    requires IsRun(states, actions) && i < |states|
    ensures SystemOk(states[i])
  {
    if i == 0 {
      EmptyStoreOk();
      hide StoreOk;
    } else {
      ReachableIsOk(states, actions, i - 1);
      StepsKeepSystem(states[i - 1], actions[i - 1]);
      hide SystemOk, Next;
    }
  }

  // ---------------------------------------------------------------- no loss

  predicate Unpublished(db: Database, id: nat) {
    exists r :: r in db.outbox && db.outbox[r].envelope.id == id && db.outbox[r].publishedAt.None?
  }

  /**
   In every reachable state a stored event that is not projected yet is either unpublished in its
   one outbox row, or has a record in the broker log at or after the projector's committed offset.
   */
  lemma NothingIsLost(states: seq<System>, actions: seq<Action>, i: nat, id: nat)
    requires IsRun(states, actions) && i < |states|
    requires id in states[i].db.canonical && id !in states[i].db.processed
    ensures Shaped(states[i])
    ensures Unpublished(states[i].db, id) || InTail(states[i].log, states[i].committed, id)
    ensures exists r :: r in states[i].db.outbox && states[i].db.outbox[r].envelope == states[i].db.canonical[id]
                        && forall q :: q in states[i].db.outbox && q != r ==> states[i].db.outbox[q].envelope.id != id
  {
    ReachableIsOk(states, actions, i);
    hide IsRun, InTail;
    var s := states[i];
    assert id in OutboxIds(s.db);
    var r :| r in s.db.outbox && s.db.outbox[r].envelope.id == id;
    assert s.db.outbox[r].publishedAt.Some? ==> Safe(s, s.db.outbox[r].envelope.id);
  }

  /** Once every row is published and every offset committed, all stored events have been projected. */
  lemma QuietMeansProjected(states: seq<System>, actions: seq<Action>, i: nat)
    requires IsRun(states, actions) && i < |states| && Shaped(states[i])
    requires forall r :: r in states[i].db.outbox ==> states[i].db.outbox[r].publishedAt.Some?
    requires forall p :: 0 <= p < |states[i].log| ==> states[i].committed[p] == |states[i].log[p]|
    ensures states[i].db.processed == states[i].db.canonical.Keys
    ensures IdsOf(states[i].db.timeline) == states[i].db.canonical.Keys
  {
    EffectsHappenOnce(states, actions, i);
    ReachableIsOk(states, actions, i);
    var db := states[i].db;
    forall id | id in db.canonical ensures id in db.processed {
      if id !in db.processed {
        NothingIsLost(states, actions, i, id);
      }
    }
    hide IsRun, Keep, MatchesFold, Ascending;
    assert db.processed <= db.canonical.Keys;
  }

  lemma PublicationSurvivesStep(s: System, action: Action, row: nat)
    requires Shaped(s) && Enabled(s, action) && row < s.db.nextRow
    requires row in s.db.outbox && s.db.outbox[row].publishedAt.Some? && row in Next(s, action).db.outbox
    ensures Next(s, action).db.outbox[row].publishedAt == s.db.outbox[row].publishedAt
  {
    hide PersistOutcome, RowsToClaim, Claims, RetirementBatch, StaleMatches, Keep, Tombstones, MatchesAfter, Poisonous;
  }

  lemma OutboxIn(s: System)
    requires SystemOk(s)
    ensures OutboxMatches(s.db)
  {
  }

  /** A publication time, once set, is the row's in every later state of the run that still has the row. */
  lemma {:induction false} PublicationIsFinal(states: seq<System>, actions: seq<Action>, i: nat, j: nat, row: nat)
    requires IsRun(states, actions) && i <= j < |states|
    requires row in states[i].db.outbox && states[i].db.outbox[row].publishedAt.Some?
    ensures row < states[j].db.nextRow
    ensures row in states[j].db.outbox ==>
              && states[j].db.outbox[row].publishedAt == states[i].db.outbox[row].publishedAt
              && states[j].db.outbox[row].envelope == states[i].db.outbox[row].envelope
  {
    if i == j {
      hide SystemOk, Next;
      ReachableIsOk(states, actions, i);
      OutboxIn(states[i]);
    } else {
      hide Next, Enabled;
      PublicationIsFinal(states, actions, i, j - 1, row);
      RowsKeepEnvelopes(states[j - 1], actions[j - 1]);
      if row in states[j].db.outbox {
        PublicationSurvivesStep(states[j - 1], actions[j - 1], row);
      }
    }
  }

  // ---------------------------------------------------------------- keys are admitted once

  /** Every key ever issued is taken, and no two events were issued under one key. */
  ghost predicate KeysIssuedOnce(db: Database, past: Past) {
    && (forall id :: id in past.issued ==> Taken(db, past.issued[id].key))
    && (forall a, b :: a in past.issued && b in past.issued && a != b ==> past.issued[a].key != past.issued[b].key)
  }

  lemma TakenStays(s: System, action: Action, key: DedupeKey)
    requires Shaped(s) && Enabled(s, action) && Registered(s.db, s.past) && Taken(s.db, key)
    ensures Taken(Next(s, action).db, key)
  {
    if Tombstoned(s.db, key) {
      var id :| id in s.db.retired && s.db.retired[id] == key;
      RetiredStays(s, action, id, key);
      hide Next;
    } else if action.RetainStep? {
      var id :| id in s.db.canonical && s.db.canonical[id].key == key;
      LiveOrTombstoned(s.db, action.policy, Elements(RetirementBatch(s.db, action.policy, action.limit)), id);
      hide Retire, RetirePast, RetirementBatch;
    } else {
      var id :| id in s.db.canonical && s.db.canonical[id].key == key;
      hide Persist, Project;
      StoredStays(s, action, id);
      hide Next;
    }
  }

  lemma LiveOrTombstoned(db: Database, policy: Policy, ids: set<nat>, id: nat)
    requires id in db.canonical && !Tombstoned(db, db.canonical[id].key)
    ensures Taken(Retire(db, policy, ids), db.canonical[id].key)
  {
    hide StaleMatches, Keep;
    var after := Retire(db, policy, ids);
    assert if id in ids then after.retired[id] == db.canonical[id].key else after.canonical[id] == db.canonical[id];
  }

  lemma StoredStays(s: System, action: Action, id: nat)
    requires Shaped(s) && Enabled(s, action) && id in s.db.canonical && !action.RetainStep?
    requires Registered(s.db, s.past)
    ensures id in Next(s, action).db.canonical && Next(s, action).db.canonical[id] == s.db.canonical[id]
  {
    hide RowsToClaim, Claims, PersistOutcome, MatchesAfter, Poisonous;
  }

  lemma StepKeepsKeysIssuedOnce(s: System, action: Action)
    requires Shaped(s) && Enabled(s, action) && Registered(s.db, s.past) && KeysIssuedOnce(s.db, s.past)
    ensures KeysIssuedOnce(Next(s, action).db, Next(s, action).past)
  {
    forall id | id in s.past.issued ensures Taken(Next(s, action).db, s.past.issued[id].key) {
      TakenStays(s, action, s.past.issued[id].key);
    }
    hide Registered, Taken;
    NewKeysWereFree(s, action);
    hide Next;
  }

  lemma NewKeysWereFree(s: System, action: Action)
    requires Shaped(s) && Enabled(s, action)
    ensures var t := Next(s, action);
      && (forall id :: id in s.past.issued ==> id in t.past.issued && t.past.issued[id] == s.past.issued[id])
      && (forall id :: id in t.past.issued && id !in s.past.issued ==>
            !Taken(s.db, t.past.issued[id].key) && Taken(t.db, t.past.issued[id].key))
      && (forall a, b :: a in t.past.issued && b in t.past.issued && a !in s.past.issued && b !in s.past.issued ==> a == b)
  {
    hide RowsToClaim, Claims, RetirementBatch, StaleMatches, Keep, MatchesAfter, Poisonous, Tombstoned;
    match action
    case PersistStep(event) =>
      if PersistOutcome(s.db, event).Inserted? {
        assert event.id in Persist(s.db, event).canonical;
      }
    case _ =>
  }

  lemma {:induction false} KeysStayIssuedOnce(states: seq<System>, actions: seq<Action>, i: nat)
    requires IsRun(states, actions) && i < |states|
    ensures KeysIssuedOnce(states[i].db, states[i].past)
  {
    if i > 0 {
      hide SystemOk, Next, Registered, KeysIssuedOnce;
      KeysStayIssuedOnce(states, actions, i - 1);
      ReachableIsOk(states, actions, i - 1);
      RegisteredIn(states[i - 1]);
      StepKeepsKeysIssuedOnce(states[i - 1], actions[i - 1]);
    }
  }

  /** Over any run no dedupe key is issued twice, and whatever carries a key that was ever issued is refused. */
  lemma KeysAreAdmittedOnce(states: seq<System>, actions: seq<Action>, i: nat)
    requires IsRun(states, actions) && i < |states|
    ensures KeysIssuedOnce(states[i].db, states[i].past)
    ensures forall id, again: Envelope :: id in states[i].past.issued && again.key == states[i].past.issued[id].key ==>
              && Persist(states[i].db, again) == states[i].db
              && (PersistOutcome(states[i].db, again).Duplicate? || PersistOutcome(states[i].db, again).RetiredDuplicate?)
  {
    hide IsRun, Tombstoned, KeyIsLive;
    KeysStayIssuedOnce(states, actions, i);
  }

  // ---------------------------------------------------------------- exactly-once effect

  /**
   In every reachable state, whatever was delivered twice, replayed or restarted: the timeline lists
   each processed event once in cursor order, and each match row is the fold of the reducer over the
   football events that were entered for its subject since the row was last pruned.
   */
  lemma EffectsHappenOnce(states: seq<System>, actions: seq<Action>, i: nat)
    requires IsRun(states, actions) && i < |states|
    ensures var db := states[i].db; var past := states[i].past;
      && Ascending(db.timeline, db.nextCursor)
      && IdsOf(db.timeline) == db.processed
      && Ascending(past.applied, db.nextCursor)
      && db.timeline == Keep(past.applied, db.canonical.Keys)
      && MatchesFold(db, past)
  {
    ReachableIsOk(states, actions, i);
    TimelineIsProcessedOnce(states[i].db, states[i].past);
    hide IsRun, Keep, MatchesFold;
  }

  // ---------------------------------------------------------------- retired for good

  predicate Retired(db: Database, id: nat, key: DedupeKey) {
    id in db.retired && db.retired[id] == key
  }

  lemma RetiredStays(s: System, action: Action, id: nat, key: DedupeKey)
    requires Shaped(s) && Enabled(s, action) && Retired(s.db, id, key) && Registered(s.db, s.past)
    ensures Retired(Next(s, action).db, id, key)
  {
    assert id !in s.db.canonical;
    hide Registered, PersistOutcome, RowsToClaim, Claims, RetirementBatch,
         StaleMatches, Keep, MatchesAfter, Poisonous;
  }

  lemma RegisteredIn(s: System)
    requires SystemOk(s)
    ensures Registered(s.db, s.past)
  {
  }

  lemma {:induction false} RetiredAlong(states: seq<System>, actions: seq<Action>, i: nat, j: nat, id: nat, key: DedupeKey)
    requires IsRun(states, actions) && i <= j < |states| && Retired(states[i].db, id, key)
    ensures Retired(states[j].db, id, key)
  {
    if i < j {
      RetiredAlong(states, actions, i, j - 1, id, key);
      ReachableIsOk(states, actions, j - 1);
      RegisteredIn(states[j - 1]);
      hide SystemOk, Next, Registered, Retired;
      RetiredStays(states[j - 1], actions[j - 1], id, key);
    }
  }

  /**
   Once retired, an event never returns: in every later state it is neither stored nor in the
   timeline, whatever the broker still delivers, and its dedupe key is refused at the door.
   */
  lemma RetiredNeverReturns(states: seq<System>, actions: seq<Action>, i: nat, j: nat, id: nat, key: DedupeKey, again: Envelope)
    requires IsRun(states, actions) && i <= j < |states|
    requires Retired(states[i].db, id, key) && again.key == key
    ensures var db := states[j].db;
      && Retired(db, id, key)
      && id !in db.canonical && id !in db.processed && id !in IdsOf(db.timeline)
      && PersistOutcome(db, again).RetiredDuplicate? && Persist(db, again) == db
      && (forall copy: Envelope, cursor, now :: copy.id == id ==> Project(db, copy, cursor, now) == db)
  {
    RetiredAlong(states, actions, i, j, id, key);
    ReachableIsOk(states, actions, j);
    hide IsRun, StoreOk, RecordsIssued, ClaimsFit, ConsumerOk, PublisherOk, Poisonous, MatchesAfter;
    RetiredIsGone(states[j].db, states[j].past, id, key);
  }

  lemma RetiredIsGone(db: Database, past: Past, id: nat, key: DedupeKey)
    requires StoreOk(db, past) && Retired(db, id, key)
    ensures id !in db.canonical && id !in db.processed && id !in IdsOf(db.timeline) && Tombstoned(db, key)
  {
    TimelineIsProcessedOnce(db, past);
    hide Keep, MatchesFold;
  }
}
