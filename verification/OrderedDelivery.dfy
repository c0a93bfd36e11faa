/**
 One publisher that neither fails nor crashes sends the stored events in order, each once, so it never
 overtakes. One failed send is enough for a later event of the same subject to go first, and what comes
 behind a newer event of a running match has no effect on it.
 */
module OrderedDelivery {
  import opened Common
  import opened MatchEvents
  import opened MatchReducer
  import opened Ordering
  import opened EventStore
  import opened EventInvariants
  import opened EnvelopeLists
  import opened Pipeline
  import opened FirstDelivery

  /** Claims whose records are still to be sent. */
  function Unsent(claims: seq<Claim>, sent: bool): seq<Claim> {
    if sent && claims != [] then claims[1..] else claims
  }

  // ---------------------------------------------------------------- the publisher keeps the stored order

  /** Rows below `sent` are published, those from `sent` on are pending, those from `claimed` on unclaimed. */
  ghost predicate RowsInOrder(db: Database, order: seq<Envelope>, sent: nat, claimed: nat, marking: bool) {
    && sent <= claimed <= |order| == db.nextRow
    && (forall r :: r in db.outbox ==> r < |order| && db.outbox[r].envelope == order[r])
    && (forall r :: sent <= r < |order| ==> r in db.outbox && db.outbox[r].publishedAt.None?)
    && (forall r :: r in db.outbox && r < sent ==> db.outbox[r].publishedAt.Some? || (marking && r == sent - 1))
    && (forall r :: claimed <= r < |order| ==> db.outbox[r].claimedAt.None?)
  }

  /** The claims are the next events in order, after `n` that have been sent. */
  ghost predicate ClaimsInOrder(order: seq<Envelope>, claims: seq<Claim>, sent: bool, n: nat) {
    var unsent := Unsent(claims, sent);
    && n + |unsent| <= |order|
    && (forall j :: 0 <= j < |unsent| ==> unsent[j] == Claim(n + j, order[n + j]))
    && (sent ==> claims != [] && n > 0 && claims[0] == Claim(n - 1, order[n - 1]))
  }

  ghost predicate LogInOrder(order: seq<Envelope>, log: seq<seq<Envelope>>, route: nat -> nat, n: nat) {
    n <= |order| && forall p :: 0 <= p < |log| ==> log[p] == Routed(order[..n], route, p)
  }

  /** The first `n` stored events have been sent, and the claims are the next ones in order. */
  ghost predicate SentInOrder(s: System, route: nat -> nat, n: nat) {
    && RowsInOrder(s.db, s.past.order, n, n + |Unsent(s.claims, s.sent)|, s.sent)
    && ClaimsInOrder(s.past.order, s.claims, s.sent, n)
    && LogInOrder(s.past.order, s.log, route, n)
  }

  /** Steps of a run in which one publisher keeps going and subjects keep their partitions. */
  predicate Orderly(s: System, route: nat -> nat, action: Action) {
    !action.FailStep? && !action.PublisherCrashStep? && !action.SwitchStep? && Routes(s, route, action)
  }

  lemma {:induction false} ConsecutiveRows(rows: set<nat>, low: nat, high: nat, rank: map<nat, int>)
    requires rows <= rank.Keys && (forall r :: r in rank ==> rank[r] == 0)
    requires low <= high && forall r: nat :: r in rows <==> low <= r < high
    ensures |Ordered(rows, rank)| == high - low
    ensures forall j :: 0 <= j < high - low ==> Ordered(rows, rank)[j] == low + j
    decreases high - low
  {
    if low < high {
      assert low in rows;
      assert First(rows, rank) == low;
      ConsecutiveRows(rows - {low}, low + 1, high, rank);
      var rest := Ordered(rows - {low}, rank);
      assert Ordered(rows, rank) == [low] + rest;
      forall j | 0 <= j < high - low ensures ([low] + rest)[j] == low + j {
        if j > 0 { assert rest[j - 1] == low + 1 + (j - 1); }
      }
    } else {
      assert rows == {};
    }
  }

  lemma {:induction false} ConsecutiveClaims(db: Database, order: seq<Envelope>, rows: seq<nat>, low: nat)
    requires low + |rows| <= |order|
    requires forall j :: 0 <= j < |rows| ==> rows[j] == low + j
                                             && rows[j] in db.outbox && db.outbox[rows[j]].envelope == order[low + j]
    ensures |Claims(db, rows)| == |rows|
    ensures forall j :: 0 <= j < |rows| ==> Claims(db, rows)[j] == Claim(low + j, order[low + j])
  {
    if |rows| > 0 {
      ConsecutiveClaims(db, order, rows[1..], low + 1);
    }
  }

  lemma PendingAreClaimable(db: Database, order: seq<Envelope>, n: nat, now: int)
    requires RowsInOrder(db, order, n, n, false)
    ensures forall r: nat :: r in ClaimableRows(db, now) <==> n <= r < |order|
  {
  }

  lemma ClaimsTheNext(db: Database, order: seq<Envelope>, n: nat, now: int, limit: nat)
    requires RowsInOrder(db, order, n, n, false)
    ensures var rows := RowsToClaim(db, now, limit);
      && n + |rows| <= |order|
      && (forall j :: 0 <= j < |rows| ==> rows[j] == n + j)
      && RowsInOrder(ClaimRows(db, now, limit), order, n, n + |rows|, false)
  {
    var rows := RowsToClaim(db, now, limit);
    PendingAreClaimable(db, order, n, now);
    assert n <= |order| && RowRank(db).Keys == db.outbox.Keys;
    hide RowsInOrder, Ordered;
    ConsecutiveRows(ClaimableRows(db, now), n, |order|, RowRank(db));
    ClaimKeepsRows(db, order, n, now, limit);
  }

  lemma ClaimKeepsRows(db: Database, order: seq<Envelope>, n: nat, now: int, limit: nat)
    requires RowsInOrder(db, order, n, n, false)
    requires var rows := RowsToClaim(db, now, limit);
      n + |rows| <= |order| && forall j :: 0 <= j < |rows| ==> rows[j] == n + j
    ensures RowsInOrder(ClaimRows(db, now, limit), order, n, n + |RowsToClaim(db, now, limit)|, false)
  {
    hide RowsToClaim;
    var rows := RowsToClaim(db, now, limit);
    forall r | r in Elements(rows) ensures r < n + |rows| {}
  }

  lemma ClaimStaysInOrder(s: System, route: nat -> nat, n: nat, now: int, limit: nat)
    requires Shaped(s) && Enabled(s, ClaimStep(now, limit)) && SentInOrder(s, route, n)
    ensures SentInOrder(Next(s, ClaimStep(now, limit)), route, n)
  {
    hide RowsToClaim, LogInOrder, Claims, RowsInOrder, ClaimRows;
    var rows := RowsToClaim(s.db, now, limit);
    ClaimsTheNext(s.db, s.past.order, n, now, limit);
    PendingRows(s.db, s.past.order, n, n);
    ConsecutiveClaims(s.db, s.past.order, rows, n);
  }

  lemma PendingRows(db: Database, order: seq<Envelope>, n: nat, claimed: nat)
    requires RowsInOrder(db, order, n, claimed, false)
    ensures forall r :: n <= r < |order| ==> r in db.outbox && db.outbox[r].envelope == order[r]
  {
  }

  lemma SentLog(order: seq<Envelope>, log: seq<seq<Envelope>>, route: nat -> nat, n: nat, p: nat)
    requires LogInOrder(order, log, route, n) && n < |order| && p < |log| && p == route(order[n].subject)
    ensures LogInOrder(order, log[p := log[p] + [order[n]]], route, n + 1)
  {
    assert order[..n + 1] == order[..n] + [order[n]];
    var longer := log[p := log[p] + [order[n]]];
    forall q | 0 <= q < |log| ensures longer[q] == Routed(order[..n + 1], route, q) {
      RoutedAppend(order[..n], order[n], route, q);
    }
  }

  lemma SentRows(db: Database, order: seq<Envelope>, n: nat, claimed: nat)
    requires RowsInOrder(db, order, n, claimed, false) && n < claimed
    ensures RowsInOrder(db, order, n + 1, claimed, true)
  {
  }

  lemma SendStaysInOrder(s: System, route: nat -> nat, n: nat, p: nat)
    requires Shaped(s) && Enabled(s, SendStep(p)) && SentInOrder(s, route, n) && Orderly(s, route, SendStep(p))
    ensures SentInOrder(Next(s, SendStep(p)), route, n + 1)
  {
    hide LogInOrder, RowsInOrder;
    assert s.claims[0] == Claim(n, s.past.order[n]);
    SentLog(s.past.order, s.log, route, n, p);
    SentRows(s.db, s.past.order, n, n + |s.claims|);
  }

  lemma StoredRows(db: Database, order: seq<Envelope>, n: nat, claimed: nat, marking: bool, event: Envelope)
    requires RowsInOrder(db, order, n, claimed, marking) && PersistOutcome(db, event).Inserted?
    ensures RowsInOrder(Persist(db, event), order + [event], n, claimed, marking)
  {
    hide PersistOutcome;
  }

  lemma StoredLog(order: seq<Envelope>, event: Envelope, log: seq<seq<Envelope>>, route: nat -> nat, n: nat)
    requires LogInOrder(order, log, route, n)
    ensures LogInOrder(order + [event], log, route, n)
  {
    hide Routed;
    assert (order + [event])[..n] == order[..n];
  }

  lemma PersistStaysInOrder(s: System, route: nat -> nat, n: nat, event: Envelope)
    requires Shaped(s) && Enabled(s, PersistStep(event)) && SentInOrder(s, route, n)
    ensures SentInOrder(Next(s, PersistStep(event)), route, n)
  {
    hide PersistOutcome, LogInOrder, RowsInOrder;
    if PersistOutcome(s.db, event).Inserted? {
      StoredRows(s.db, s.past.order, n, n + |Unsent(s.claims, s.sent)|, s.sent, event);
      StoredLog(s.past.order, event, s.log, route, n);
    }
  }

  lemma MarkedRows(db: Database, order: seq<Envelope>, n: nat, claimed: nat, now: int)
    requires RowsInOrder(db, order, n, claimed, true) && n > 0
    ensures RowsInOrder(MarkPublished(db, n - 1, now), order, n, claimed, false)
  {
  }

  lemma MarkStaysInOrder(s: System, route: nat -> nat, n: nat, now: int)
    requires Shaped(s) && Enabled(s, MarkStep(now)) && SentInOrder(s, route, n)
    ensures SentInOrder(Next(s, MarkStep(now)), route, n)
  {
    hide LogInOrder, RowsInOrder, MarkPublished;
    MarkedRows(s.db, s.past.order, n, n + |Unsent(s.claims, s.sent)|, now);
  }

  lemma RetainedRows(db: Database, order: seq<Envelope>, n: nat, claimed: nat, marking: bool, policy: Policy, ids: set<nat>)
    requires RowsInOrder(db, order, n, claimed, marking) && OutboxMatches(db)
    requires forall id :: id in ids ==> Published(db, id)
    ensures RowsInOrder(Retire(db, policy, ids), order, n, claimed, marking)
  {
    hide Keep, Tombstones, StaleMatches;
    forall r | n <= r < |order| ensures db.outbox[r].envelope.id !in ids {
      UnpublishedStays(db, ids, r);
    }
    hide OutboxMatches, Published;
  }

  lemma RetainStaysInOrder(s: System, route: nat -> nat, n: nat, policy: Policy, limit: nat)
    requires Shaped(s) && OutboxMatches(s.db) && SentInOrder(s, route, n)
    ensures SentInOrder(Next(s, RetainStep(policy, limit)), route, n)
  {
    hide LogInOrder, RowsInOrder, ClaimsInOrder, RetirementBatch, Retire, Published, OutboxMatches, StaleMatches;
    BatchIsPublished(s.db, policy, limit);
    var ids := Elements(RetirementBatch(s.db, policy, limit));
    RetainedRows(s.db, s.past.order, n, n + |Unsent(s.claims, s.sent)|, s.sent, policy, ids);
  }

  lemma UnpublishedStays(db: Database, ids: set<nat>, row: nat)
    requires OutboxMatches(db) && row in db.outbox && db.outbox[row].publishedAt.None?
    requires forall id :: id in ids ==> Published(db, id)
    ensures db.outbox[row].envelope.id !in ids
  {
  }

  // ---------------------------------------------------------------- runs

  ghost predicate OrderlyRun(states: seq<System>, actions: seq<Action>, route: nat -> nat) {
    IsRun(states, actions) && forall i :: 0 <= i < |actions| ==> Orderly(states[i], route, actions[i])
  }

  function Sends(actions: seq<Action>): nat {
    if |actions| == 0 then 0
    else Sends(actions[..|actions| - 1]) + if actions[|actions| - 1].SendStep? then 1 else 0
  }

  lemma PublisherStaysInOrder(s: System, route: nat -> nat, n: nat, action: Action)
    requires SystemOk(s) && Enabled(s, action) && Orderly(s, route, action) && SentInOrder(s, route, n)
    ensures SentInOrder(Next(s, action), route, if action.SendStep? then n + 1 else n)
  {
    hide StoreOk, RecordsIssued, ClaimsFit, ConsumerOk, PublisherOk, RowsInOrder, ClaimsInOrder, LogInOrder;
    match action
    case PersistStep(event) => PersistStaysInOrder(s, route, n, event);
    case ClaimStep(now, limit) => ClaimStaysInOrder(s, route, n, now, limit);
    case SendStep(p) => SendStaysInOrder(s, route, n, p);
    case MarkStep(now) => MarkStaysInOrder(s, route, n, now);
    case RetainStep(policy, limit) =>
      OutboxIn(s);
      RetainStaysInOrder(s, route, n, policy, limit);
    case _ => ProjectorKeepsRows(s, route, n, action);
  }

  lemma ProjectorKeepsRows(s: System, route: nat -> nat, n: nat, action: Action)
    requires Shaped(s) && Enabled(s, action) && SentInOrder(s, route, n)
    requires action.FetchStep? || action.ProjectStep? || action.CommitStep? || action.ConsumerRestartStep?
    ensures SentInOrder(Next(s, action), route, n)
  {
    hide RowsInOrder, ClaimsInOrder, LogInOrder, Poisonous, MatchesAfter;
    RowsUnmoved(s.db, Next(s, action).db, s.past.order, n, n + |Unsent(s.claims, s.sent)|, s.sent);
  }

  lemma RowsUnmoved(db: Database, after: Database, order: seq<Envelope>, n: nat, claimed: nat, marking: bool)
    requires RowsInOrder(db, order, n, claimed, marking) && after.outbox == db.outbox && after.nextRow == db.nextRow
    ensures RowsInOrder(after, order, n, claimed, marking)
  {
  }

  lemma NothingPublished(partitions: nat, route: nat -> nat)
    ensures SentInOrder(Initial(partitions), route, 0)
  {
  }

  lemma {:induction false} OrderlyRunsStayInOrder(states: seq<System>, actions: seq<Action>, route: nat -> nat, i: nat)
    requires OrderlyRun(states, actions, route) && i < |states|
    ensures SentInOrder(states[i], route, Sends(actions[..i]))
  {
    hide SystemOk, SentInOrder, Next, Orderly;
    if i == 0 {
      NothingPublished(|states[0].log|, route);
    } else {
      OrderlyRunsStayInOrder(states, actions, route, i - 1);
      ReachableIsOk(states, actions, i - 1);
      assert actions[..i] == actions[..i - 1] + [actions[i - 1]];
      assert actions[..i][..i - 1] == actions[..i - 1];
      PublisherStaysInOrder(states[i - 1], route, Sends(actions[..i - 1]), actions[i - 1]);
    }
  }

  /** Every event before the one that is sent next has its record already. */
  lemma NextInLine(s: System, route: nat -> nat, n: nat, subject: nat, p: nat)
    requires SystemOk(s) && StoredOnce(s.db, s.past) && SentInOrder(s, route, n)
    requires Enabled(s, SendStep(p)) && route(subject) < |s.log|
    ensures !Overtakes(s, route, SendStep(p), subject)
  {
    hide SystemOk, RowsInOrder;
    var order := s.past.order;
    assert s.claims[0].envelope == order[n] && n < |order|;
    assert forall i, j :: 0 <= i < j < |order| ==> order[i].id != order[j].id;
    RoutedMembers(order[..n], route, route(subject));
    assert s.log[route(subject)] == Routed(order[..n], route, route(subject));
    hide SentInOrder, Routed, IdsIn, Enabled, StoredOnce;
    forall b | 0 <= b < |order| && order[b] == order[n] ensures !Left(order, b, s.log[route(subject)], subject) {
      NothingLeftBefore(order, n, s.log[route(subject)], subject, route);
    }
  }

  lemma NothingLeftBefore(order: seq<Envelope>, n: nat, log: seq<Envelope>, subject: nat, route: nat -> nat)
    requires n < |order| && forall e :: e in order[..n] && route(e.subject) == route(subject) ==> e in log
    ensures !Left(order, n, log, subject)
  {
    forall a | 0 <= a < n && Concerns(order[a], subject) ensures order[a] in log {
      assert order[..n][a] == order[a] && order[a] in order[..n];
    }
  }

  /** Without failed sends, crashes and other publishers no subject is ever overtaken. */
  lemma OrderlyRunsNeverOvertake(states: seq<System>, actions: seq<Action>, route: nat -> nat, subject: nat, i: nat)
    requires OrderlyRun(states, actions, route) && i < |states|
    ensures RoutedRun(states, actions, route) && NeverOvertaken(states, actions, route, subject, i)
  {
    forall k | 0 <= k < i ensures !Overtakes(states[k], route, actions[k], subject) {
      if actions[k].SendStep? && route(subject) < |states[k].log| {
        OrderlyRunsStayInOrder(states, actions, route, k);
        RoutedRunsStayInOrder(states, actions, route, k);
        hide SystemOk, StoredOnce, SentInOrder, Overtakes;
        NextInLine(states[k], route, Sends(actions[..k]), subject, actions[k].partition);
      }
    }
    hide Overtakes, Next;
  }

  // ---------------------------------------------------------------- without the assumption

  /** After a failed send the publisher goes on: the next record enters the log, the failed row waits. */
  lemma AFailureOvertakes(s: System, p: nat)
    requires Shaped(s) && ClaimsFit(s) && |s.claims| >= 2 && !s.sent && p < |s.log|
    requires s.claims[0].row in s.db.outbox && s.db.outbox[s.claims[0].row].publishedAt.None?
    ensures Enabled(s, FailStep) && Enabled(Next(s, FailStep), SendStep(p))
    ensures var t := Next(Next(s, FailStep), SendStep(p));
      && t.log[p] == s.log[p] + [s.claims[1].envelope]
      && t.db.outbox[s.claims[0].row].envelope == s.claims[0].envelope
      && t.db.outbox[s.claims[0].row].publishedAt.None? && t.db.outbox[s.claims[0].row].claimedAt.None?
  {
    assert s.claims[0] in s.claims;
  }

  /** An event that comes after a newer one of a running match changes nothing, whatever it carries. */
  lemma OvertakenEventsAreLost(db: Database, late: Envelope, newer: Envelope, cursor: nat, now: int, later: nat, at: int)
    requires late.football.Some? && newer.football.Some? && late.subject == newer.subject && late.id != newer.id
    requires late.football.value.version < newer.football.value.version
    requires Projectable(db, newer) && !Poisonous(db, newer) && !Over(MatchStateOf(db, newer.subject))
    requires Projectable(db, late)
    ensures var after := Project(db, newer, cursor, now);
      && Projectable(after, late) && !Poisonous(after, late)
      && Project(after, late, later, at).matches == after.matches
      && late.id in Project(after, late, later, at).processed
  {
  }
}
