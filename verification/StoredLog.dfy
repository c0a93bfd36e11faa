/** The pipeline stores for a match the log that the fixture store keeps. */
module StoredLog {
  import opened Common
  import opened MatchEvents
  import opened Ordering
  import opened EventStore
  import opened EventInvariants
  import opened EnvelopeLists
  import opened Pipeline
  import opened FirstDelivery
  import FootballStore

  /** The payloads of the football events that were offered for one subject, stored or not. */
  function Offered(actions: seq<Action>, subject: nat): seq<MatchEvent> {
    if |actions| == 0 then []
    else
      var front := Offered(actions[..|actions| - 1], subject);
      var action := actions[|actions| - 1];
      if action.PersistStep? && Concerns(action.event, subject) then front + [action.event.football.value] else front
  }

  /** The events of the subject, and no others, carry the dedupe keys of the fixture. */
  predicate FixtureKeyed(e: Envelope, fixture: nat, subject: nat) {
    && (Concerns(e, subject) <==> e.key.FixtureKey? && e.key.fixture == fixture)
    && (Concerns(e, subject) ==> e.key.identity == e.football.value.identity)
  }

  ghost predicate KeyedByFixture(actions: seq<Action>, fixture: nat, subject: nat) {
    forall k :: 0 <= k < |actions| && actions[k].PersistStep? ==> FixtureKeyed(actions[k].event, fixture, subject)
  }

  // ---------------------------------------------------------------- one insert

  ghost predicate OrderKeyed(order: seq<Envelope>, fixture: nat, subject: nat) {
    forall e :: e in order ==> FixtureKeyed(e, fixture, subject)
  }

  lemma {:induction false} FootballMembers(events: seq<Envelope>, subject: nat, identity: Identity)
    ensures (exists i :: 0 <= i < |FootballOf(events, subject)| && FootballOf(events, subject)[i].identity == identity)
            <==> exists e :: e in events && Concerns(e, subject) && e.football.value.identity == identity
  {
    if |events| > 0 {
      var n := |events| - 1;
      FootballMembers(events[..n], subject, identity);
      var front, e := FootballOf(events[..n], subject), events[n];
      assert events == events[..n] + [e];
      assert forall x :: x in events <==> x in events[..n] || x == e;
      var all := FootballOf(events, subject);
      if i :| 0 <= i < |front| && front[i].identity == identity {
        assert all[i].identity == identity;
      }
      if Concerns(e, subject) {
        assert all == front + [e.football.value] && all[|front|] == e.football.value;
      }
    }
  }

  /** A key is known to the tables exactly when the stored log has its identity. */
  lemma KeyIsKnown(db: Database, past: Past, event: Envelope, fixture: nat, subject: nat)
    requires StoredOnce(db, past) && Registered(db, past) && KeysIssuedOnce(db, past)
    requires OrderKeyed(past.order, fixture, subject) && FixtureKeyed(event, fixture, subject) && Concerns(event, subject)
    ensures Taken(db, event.key)
            <==> exists e :: e in past.order && Concerns(e, subject)
                             && e.football.value.identity == event.football.value.identity
  {
    hide DistinctIds, IdsOf;
    if e :| e in past.order && Concerns(e, subject) && e.football.value.identity == event.football.value.identity {
      assert e.key == event.key && IsIssued(past, e) && e.id in past.issued;
      assert Taken(db, e.key);
    }
    if Tombstoned(db, event.key) {
      var id :| id in db.retired && db.retired[id] == event.key;
      var e := past.issued[id];
      assert e in past.order && e.key == event.key && FixtureKeyed(e, fixture, subject);
    } else if KeyIsLive(db, event.key) {
      var id :| id in db.canonical && db.canonical[id].key == event.key;
      var e := past.issued[id];
      assert e in past.order && e.key == event.key && FixtureKeyed(e, fixture, subject);
    }
  }

  lemma KeyMeansSuppressed(db: Database, past: Past, event: Envelope, fixture: nat, subject: nat)
    requires StoredOnce(db, past) && Registered(db, past) && KeysIssuedOnce(db, past)
    requires OrderKeyed(past.order, fixture, subject) && FixtureKeyed(event, fixture, subject) && Concerns(event, subject)
    ensures var log := FootballOf(past.order, subject);
      FootballStore.Persist(log, event.football.value)
      == if Taken(db, event.key) then log else log + [event.football.value]
  {
    hide StoredOnce, Registered, KeysIssuedOnce, OrderKeyed, FixtureKeyed, Taken, FootballOf;
    KeyIsKnown(db, past, event, fixture, subject);
    FootballMembers(past.order, subject, event.football.value.identity);
    hide Concerns;
  }

  lemma FootballAppend(order: seq<Envelope>, event: Envelope, subject: nat)
    ensures FootballOf(order + [event], subject)
            == if Concerns(event, subject) then FootballOf(order, subject) + [event.football.value]
               else FootballOf(order, subject)
  {
    assert (order + [event])[..|order|] == order;
  }

  /** The pipeline's insert is the fixture store's. */
  lemma InsertsAgree(db: Database, past: Past, event: Envelope, fixture: nat, subject: nat)
    requires StoredOnce(db, past) && Registered(db, past) && KeysIssuedOnce(db, past) && event.id !in past.issued
    requires OrderKeyed(past.order, fixture, subject) && FixtureKeyed(event, fixture, subject)
    ensures OrderKeyed(PersistPast(db, past, event).order, fixture, subject)
    ensures FootballOf(PersistPast(db, past, event).order, subject)
            == if Concerns(event, subject)
               then FootballStore.Persist(FootballOf(past.order, subject), event.football.value)
               else FootballOf(past.order, subject)
  {
    assert event.id !in db.canonical;
    hide StoredOnce, Registered, KeysIssuedOnce, Taken, Tombstoned, KeyIsLive, Concerns, FixtureKeyed;
    FootballAppend(past.order, event, subject);
    if Concerns(event, subject) {
      KeyMeansSuppressed(db, past, event, fixture, subject);
    }
    hide FootballOf, FootballStore.Persist;
  }

  // ---------------------------------------------------------------- whole runs

  lemma OfferedStep(actions: seq<Action>, i: nat, subject: nat)
    requires i < |actions|
    ensures Offered(actions[..i + 1], subject)
            == if actions[i].PersistStep? && Concerns(actions[i].event, subject)
               then Offered(actions[..i], subject) + [actions[i].event.football.value] else Offered(actions[..i], subject)
  {
    assert actions[..i + 1][..i] == actions[..i];
  }

  lemma StepStores(s: System, action: Action, fixture: nat, subject: nat)
    requires SystemOk(s) && Enabled(s, action) && StoredOnce(s.db, s.past) && KeysIssuedOnce(s.db, s.past)
    requires OrderKeyed(s.past.order, fixture, subject)
    requires action.PersistStep? ==> FixtureKeyed(action.event, fixture, subject)
    ensures var t := Next(s, action);
      && OrderKeyed(t.past.order, fixture, subject)
      && FootballOf(t.past.order, subject)
         == if action.PersistStep? && Concerns(action.event, subject)
            then FootballStore.Persist(FootballOf(s.past.order, subject), action.event.football.value)
            else FootballOf(s.past.order, subject)
  {
    hide SystemOk, StoredOnce, KeysIssuedOnce, Registered, OrderKeyed, FootballOf, FixtureKeyed, FootballStore.Persist;
    RegisteredIn(s);
    if action.PersistStep? {
      hide PersistPast, Concerns, Persist;
      InsertsAgree(s.db, s.past, action.event, fixture, subject);
    } else {
      hide Project, Retain, Poisonous, ClaimRows, MarkPublished, MarkFailed, Claims;
    }
  }

  /**
   In every run the football events stored for a subject, in stored order, are the log that the fixture
   store makes of all the events offered for it, in the order in which they were offered.
   */
  lemma {:induction false} StoredIsFixtureLog(
    states: seq<System>, actions: seq<Action>, i: nat, fixture: nat, subject: nat)
    requires IsRun(states, actions) && i < |states| && KeyedByFixture(actions, fixture, subject)
    ensures StoredOnce(states[i].db, states[i].past) && KeysIssuedOnce(states[i].db, states[i].past)
    ensures OrderKeyed(states[i].past.order, fixture, subject)
    ensures FootballOf(states[i].past.order, subject) == FootballStore.PersistAll([], Offered(actions[..i], subject))
  {
    hide SystemOk, StoredOnce, Next, KeysIssuedOnce, FootballStore.Persist, FixtureKeyed;
    if i == 0 {
      NothingStoredYet(|states[0].log|);
    } else {
      var n := i - 1;
      StoredIsFixtureLog(states, actions, n, fixture, subject);
      ReachableIsOk(states, actions, n);
      StoredStayOnce(states[n], actions[n]);
      KeysStayIssuedOnce(states, actions, i);
      StepStores(states[n], actions[n], fixture, subject);
      OfferedStep(actions, n, subject);
      var before := Offered(actions[..n], subject);
      if actions[n].PersistStep? && Concerns(actions[n].event, subject) {
        assert (before + [actions[n].event.football.value])[..|before|] == before;
      }
      hide Offered, OrderKeyed;
    }
  }

  lemma NothingStoredYet(partitions: nat)
    ensures StoredOnce(EmptyDatabase, NoPast) && KeysIssuedOnce(EmptyDatabase, NoPast)
  {
  }
}
