/** Ingesting snapshots: checkpoints, pending index, quiet baseline and stored events. */
module FootballStore {
  import opened Common
  import opened MatchEvents
  import opened FixtureSnapshots
  import opened FixtureDiff
  import opened FixtureHistory
  import opened FixtureStatus
  import opened MatchReducer
  import FixtureDiffer

  datatype Baseline = Baseline(fixtureCount: nat, initialSync: bool)

  // `logs` holds the events stored for each fixture, in order; a stored key suppresses its duplicates
  // for good, as a live row or as a tombstone.
  datatype Store = Store(
    checkpoints: map<nat, Checkpoint>,
    pending: set<nat>,
    baseline: Option<Baseline>,
    logs: map<nat, seq<MatchEvent>>)

  const EmptyStore := Store(map[], {}, None, map[])

  function CheckpointOf(store: Store, fixture: nat): Option<Checkpoint> {
    if fixture in store.checkpoints then Some(store.checkpoints[fixture]) else None
  }

  function LogOf(store: Store, fixture: nat): seq<MatchEvent> {
    if fixture in store.logs then store.logs[fixture] else []
  }

  /** Appends an event unless its dedupe key is already stored. */
  function Persist(log: seq<MatchEvent>, event: MatchEvent): seq<MatchEvent> {
    if exists i :: 0 <= i < |log| && log[i].identity == event.identity then log else log + [event]
  }

  function PersistAll(log: seq<MatchEvent>, events: seq<MatchEvent>): seq<MatchEvent> {
    if |events| == 0 then log
    else Persist(PersistAll(log, events[..|events| - 1]), events[|events| - 1])
  }

  function EmitScheduled(store: Store, establishing: bool, fixture: nat): bool {
    !(establishing && CheckpointOf(store, fixture).None?)
  }

  function IngestOne(store: Store, observation: Observation, establishing: bool): Store {
    var f := observation.fixtureId;
    var result := Diff(CheckpointOf(store, f), observation, EmitScheduled(store, establishing, f));
    store.(
      checkpoints := store.checkpoints[f := result.checkpoint],
      pending := if result.checkpoint.pending then store.pending + {f} else store.pending - {f},
      logs := store.logs[f := PersistAll(LogOf(store, f), result.events)])
  }

  function IngestAll(store: Store, observations: seq<Observation>, establishing: bool): Store {
    if |observations| == 0 then store
    else
      IngestOne(IngestAll(store, observations[..|observations| - 1], establishing),
                observations[|observations| - 1], establishing)
  }

  /** The first successful synchronisation of an installation that has no checkpoints yet. */
  predicate Establishing(store: Store) {
    store.baseline.None? && store.checkpoints == map[]
  }

  function Ingest(store: Store, observations: seq<Observation>): Store {
    var after := IngestAll(store, observations, Establishing(store));
    if store.baseline.Some? then after
    else after.(baseline := Some(Baseline(|observations|, Establishing(store))))
  }

  /** How many inserts were not suppressed, and how many events the diffs emitted. */
  function PersistedBy(store: Store, observations: seq<Observation>, establishing: bool): nat {
    if |observations| == 0 then 0
    else
      var o := observations[|observations| - 1];
      var before := IngestAll(store, observations[..|observations| - 1], establishing);
      var events := EmittedFor(before, o, establishing);
      PersistedBy(store, observations[..|observations| - 1], establishing)
      + Inserted(LogOf(before, o.fixtureId), events)
  }

  function EmittedFor(store: Store, observation: Observation, establishing: bool): seq<MatchEvent> {
    var f := observation.fixtureId;
    Diff(CheckpointOf(store, f), observation, EmitScheduled(store, establishing, f)).events
  }

  function Inserted(log: seq<MatchEvent>, events: seq<MatchEvent>): nat {
    if |events| == 0 then 0
    else
      var before := PersistAll(log, events[..|events| - 1]);
      Inserted(log, events[..|events| - 1])
      + (if Persist(before, events[|events| - 1]) == before then 0 else 1)
  }

  function EmittedBy(store: Store, observations: seq<Observation>, establishing: bool): nat {
    if |observations| == 0 then 0
    else
      var front := observations[..|observations| - 1];
      EmittedBy(store, front, establishing)
      + |EmittedFor(IngestAll(store, front, establishing), observations[|observations| - 1], establishing)|
  }

  // ---------------------------------------------------------------- what every ingest keeps

  /**
   Each fixture's checkpoint is a faithful summary of the events stored for it, and the pending-final
   index holds exactly the fixtures whose own checkpoint is pending.
   */
  ghost predicate Consistent(store: Store) {
    && (forall f :: Faithful(LogOf(store, f), CheckpointOf(store, f)))
    && (forall f :: f in store.pending <==> f in store.checkpoints && store.checkpoints[f].pending)
  }

  lemma FreshEventIsStored(log: seq<MatchEvent>, event: MatchEvent)
    requires event.identity !in Keys(log)
    ensures Persist(log, event) == log + [event]
  {
  }

  lemma {:induction false} FreshEventsAreAllStored(log: seq<MatchEvent>, events: seq<MatchEvent>)
    requires Legal(log + events)
    ensures PersistAll(log, events) == log + events
    ensures Inserted(log, events) == |events|
  {
    hide Fold, Legal, Persist;
    if |events| == 0 {
      assert log + events == log;
    } else {
      var n := |events| - 1;
      LegalAt(log + events, |log| + n);
      assert (log + events)[..|log| + n] == log + events[..n];
      FreshEventsAreAllStored(log, events[..n]);
      FreshEventIsStored(log + events[..n], events[n]);
      assert events == events[..n] + [events[n]];
    }
  }

  lemma FaithfulIsLegal(log: seq<MatchEvent>, checkpoint: Option<Checkpoint>)
    requires Faithful(log, checkpoint)
    ensures Legal(log)
  {
  }

  lemma IngestOneKeepsConsistent(store: Store, observation: Observation, establishing: bool)
    requires Consistent(store)
    ensures Consistent(IngestOne(store, observation, establishing))
    ensures var f := observation.fixtureId;
            var events := EmittedFor(store, observation, establishing);
            && LogOf(IngestOne(store, observation, establishing), f) == LogOf(store, f) + events
            && Inserted(LogOf(store, f), events) == |events|
  {
    hide Diff, Faithful, Legal;
    var f := observation.fixtureId;
    var prior := CheckpointOf(store, f);
    var announce := EmitScheduled(store, establishing, f);
    var result := Diff(prior, observation, announce);
    DiffKeepsFaith(LogOf(store, f), prior, observation, announce);
    FaithfulIsLegal(LogOf(store, f) + result.events, Some(result.checkpoint));
    FreshEventsAreAllStored(LogOf(store, f), result.events);
    hide PersistAll;
    var after := IngestOne(store, observation, establishing);
    assert LogOf(after, f) == LogOf(store, f) + result.events && CheckpointOf(after, f) == Some(result.checkpoint);
    assert forall g :: g != f ==> LogOf(after, g) == LogOf(store, g) && CheckpointOf(after, g) == CheckpointOf(store, g);
  }

  lemma {:induction false} IngestAllKeepsConsistent(store: Store, observations: seq<Observation>, establishing: bool)
    requires Consistent(store)
    ensures Consistent(IngestAll(store, observations, establishing))
    ensures PersistedBy(store, observations, establishing) == EmittedBy(store, observations, establishing)
  {
    hide IngestOne, Consistent, EmittedFor;
    if |observations| > 0 {
      var n := |observations| - 1;
      IngestAllKeepsConsistent(store, observations[..n], establishing);
      IngestOneKeepsConsistent(IngestAll(store, observations[..n], establishing), observations[n], establishing);
    }
  }

  // ---------------------------------------------------------------- whole runs of ingests

  function AfterIngests(batches: seq<seq<Observation>>): Store {
    if |batches| == 0 then EmptyStore
    else Ingest(AfterIngests(batches[..|batches| - 1]), batches[|batches| - 1])
  }

  lemma BaselineKeepsConsistent(store: Store, baseline: Option<Baseline>)
    requires Consistent(store)
    ensures Consistent(store.(baseline := baseline))
  {
    hide Faithful;
    var after := store.(baseline := baseline);
    assert forall f :: LogOf(after, f) == LogOf(store, f) && CheckpointOf(after, f) == CheckpointOf(store, f);
  }

  /**
   After any run of ingests the pending index agrees with the checkpoints, stored logs are legal, and
   the next ingest stores every event it emits: no dedupe key ever suppresses one of them.
   */
  lemma {:induction false} IngestsStayConsistent(batches: seq<seq<Observation>>, next: seq<Observation>)
    ensures var store := AfterIngests(batches);
      && Consistent(store)
      && PersistedBy(store, next, Establishing(store)) == EmittedBy(store, next, Establishing(store))
  {
    if |batches| > 0 {
      hide Consistent, IngestAll;
      var n := |batches| - 1;
      var before := AfterIngests(batches[..n]);
      IngestsStayConsistent(batches[..n], batches[n]);
      IngestAllKeepsConsistent(before, batches[n], Establishing(before));
      BaselineKeepsConsistent(IngestAll(before, batches[n], Establishing(before)), AfterIngests(batches).baseline);
      IngestAllKeepsConsistent(AfterIngests(batches), next, Establishing(AfterIngests(batches)));
    } else {
      IngestAllKeepsConsistent(EmptyStore, next, Establishing(EmptyStore));
    }
  }

  // ---------------------------------------------------------------- the quiet baseline

  /**
   A diff announces a schedule exactly when announcing is on and the kickoff is new, and then before
   anything else. So the first synchronisation is quiet and a fixture first seen later is announced.
   */
  lemma BaselineIsQuiet(store: Store, observation: Observation, establishing: bool)
    ensures
      var prior := CheckpointOf(store, observation.fixtureId);
      Announces(EmittedFor(store, observation, establishing),
                !(establishing && prior.None?) && ScheduleChanged(prior, observation))
  {
    DiffAnnounces(CheckpointOf(store, observation.fixtureId), observation,
                  EmitScheduled(store, establishing, observation.fixtureId));
  }

  /**
   Over any run of ingests only the first one is quiet, and it is quiet for every fixture; from then on the
   first sight of a fixture is announced, and a known fixture whenever its kickoff moves. An empty first
   ingest counts as the quiet one.
   */
  lemma {:induction false} OnlyTheFirstIngestIsQuiet(batches: seq<seq<Observation>>, next: seq<Observation>, k: nat)
    requires k < |next|
    ensures var store := AfterIngests(batches);
      var f := next[k].fixtureId;
      var before := IngestAll(store, next[..k], Establishing(store));
      && (store.baseline.None? <==> batches == [])
      && (batches == [] ==> store.checkpoints == map[])
      && (Scheduled in Kinds(EmittedFor(before, next[k], Establishing(store)))
          <==> if f in before.checkpoints then before.checkpoints[f].kickoff != next[k].kickoff else batches != [])
  {
    var store := AfterIngests(batches);
    BaselineSinceTheFirst(batches);
    var before := IngestAll(store, next[..k], Establishing(store));
    BaselineIsQuiet(before, next[k], Establishing(store));
    hide Diff, IngestAll;
    var events := EmittedFor(before, next[k], Establishing(store));
    if |events| > 0 { assert events[0] in events; }
  }

  /** The marker tells of the first ingest for good: how many fixtures it had, and that it was quiet. */
  lemma {:induction false} BaselineSinceTheFirst(batches: seq<seq<Observation>>)
    ensures AfterIngests(batches).baseline == if batches == [] then None else Some(Baseline(|batches[0]|, true))
  {
    if |batches| > 0 {
      var n := |batches| - 1;
      BaselineSinceTheFirst(batches[..n]);
      BaselineStays(AfterIngests(batches[..n]), batches[n], Establishing(AfterIngests(batches[..n])));
    }
  }

  lemma {:induction false} BaselineStays(store: Store, observations: seq<Observation>, establishing: bool)
    ensures IngestAll(store, observations, establishing).baseline == store.baseline
  {
    if |observations| > 0 {
      BaselineStays(store, observations[..|observations| - 1], establishing);
      hide Diff;
    }
  }

  lemma {:induction false} InsertedIsGrowth(log: seq<MatchEvent>, events: seq<MatchEvent>)
    ensures Inserted(log, events) == |PersistAll(log, events)| - |log|
  {
    if |events| > 0 { InsertedIsGrowth(log, events[..|events| - 1]); }
  }

  /** Each snapshot of a batch counts for as many events as its fixture's log grows by. */
  lemma EachSnapshotIsCounted(store: Store, observations: seq<Observation>, establishing: bool, k: nat)
    requires k < |observations|
    ensures var f := observations[k].fixtureId;
      PersistedBy(store, observations[..k + 1], establishing)
      == PersistedBy(store, observations[..k], establishing)
         + |LogOf(IngestAll(store, observations[..k + 1], establishing), f)|
         - |LogOf(IngestAll(store, observations[..k], establishing), f)|
    ensures PersistedBy(store, [], establishing) == 0
  {
    assert observations[..k + 1][..k] == observations[..k];
    var before := IngestAll(store, observations[..k], establishing);
    InsertedIsGrowth(LogOf(before, observations[k].fixtureId), EmittedFor(before, observations[k], establishing));
    hide Diff, PersistAll, Inserted;
  }

  // ---------------------------------------------------------------- the store as it runs

  class FootballCheckpointStore {
    var checkpoints: map<nat, Checkpoint>
    var pendingFinal: set<nat>
    var baseline: Option<Baseline>
    var logs: map<nat, seq<MatchEvent>>

    ghost function State(): Store
      reads this
    {
      Store(checkpoints, pendingFinal, baseline, logs)
    }

    constructor ()
      ensures State() == EmptyStore
    {
      checkpoints, pendingFinal, baseline, logs := map[], {}, None, map[];
    }

    /** Inserts the events of one fixture; duplicates are suppressed and not counted. */
    method PersistEvents(fixture: nat, events: seq<MatchEvent>) returns (inserted: nat)
      modifies this`logs
      ensures logs == old(logs)[fixture := PersistAll(LogOf(old(State()), fixture), events)]
      ensures inserted == Inserted(LogOf(old(State()), fixture), events)
    {
      var start := if fixture in logs then logs[fixture] else [];
      var log := start;
      inserted := 0;
      for i := 0 to |events|
        invariant log == PersistAll(start, events[..i])
        invariant inserted == Inserted(start, events[..i])
      {
        assert events[..i + 1][..i] == events[..i];
        if !exists j :: 0 <= j < |log| && log[j].identity == events[i].identity {
          log := log + [events[i]];
          inserted := inserted + 1;
        }
      }
      assert events[..|events|] == events;
      logs := logs[fixture := log];
    }

    method IngestObservation(observation: Observation, previous: Option<Checkpoint>, establishing: bool)
      returns (inserted: nat)
      requires previous == CheckpointOf(State(), observation.fixtureId)
      modifies this
      ensures State() == IngestOne(old(State()), observation, establishing)
      ensures inserted == Inserted(LogOf(old(State()), observation.fixtureId),
                                   EmittedFor(old(State()), observation, establishing))
    {
      hide PersistAll, Inserted, Diff;
      var f := observation.fixtureId;
      var events, checkpoint := FixtureDiffer.DiffFixture(previous, observation, !(establishing && previous.None?));
      inserted := PersistEvents(f, events);
      checkpoints := checkpoints[f := checkpoint];
      if checkpoint.pending {
        pendingFinal := pendingFinal + {f};
      } else {
        pendingFinal := pendingFinal - {f};
      }
    }

    /** Whether this sync establishes the baseline, from the rows of its fixtures and, if need be, of all fixtures. */
    method ReadRows(observations: seq<Observation>) returns (rows: map<nat, bool>, establishing: bool)
      ensures establishing <==> Establishing(State())
      ensures forall j :: 0 <= j < |observations| ==>
                observations[j].fixtureId in rows
                && rows[observations[j].fixtureId] == (observations[j].fixtureId in checkpoints)
    {
      rows := map[];
      var legacy := false;
      for i := 0 to |observations|
        invariant forall j :: 0 <= j < i ==> observations[j].fixtureId in rows
        invariant forall f :: f in rows ==> rows[f] == (f in checkpoints)
        invariant legacy ==> checkpoints != map[]
      {
        var f := observations[i].fixtureId;
        rows := rows[f := f in checkpoints];
        legacy := legacy || f in checkpoints;
      }
      if baseline.None? && !legacy {
        legacy := checkpoints != map[];
      }
      establishing := baseline.None? && !legacy;
    }

    /** One transaction; a fixture without a checkpoint row may come once, since its row is added unconditionally. */
    method IngestBatch(observations: seq<Observation>) returns (persisted: nat)
      requires forall i, j :: 0 <= i < j < |observations| && observations[i].fixtureId == observations[j].fixtureId
                              ==> observations[i].fixtureId in checkpoints
      modifies this
      ensures State() == Ingest(old(State()), observations)
      ensures persisted == PersistedBy(old(State()), observations, Establishing(old(State())))
    {
      hide IngestOne, EmittedFor, Inserted;
      ghost var start := State();
      persisted := 0;
      if |observations| == 0 {
        if baseline.None? {
          baseline := Some(Baseline(0, checkpoints == map[]));
        }
        return;
      }
      var rows, establishing := ReadRows(observations);
      for i := 0 to |observations|
        invariant State() == IngestAll(start, observations[..i], establishing) && baseline == start.baseline
        invariant start.checkpoints.Keys <= checkpoints.Keys
        invariant forall j :: i <= j < |observations|
                    ==> (observations[j].fixtureId in checkpoints <==> rows[observations[j].fixtureId])
        invariant persisted == PersistedBy(start, observations[..i], establishing)
      {
        var o := observations[i];
        assert observations[..i + 1][..i] == observations[..i];
        OtherFixturesUntouched(State(), o, establishing);
        var previous := if rows[o.fixtureId] then Some(checkpoints[o.fixtureId]) else None;
        var inserted := IngestObservation(o, previous, establishing);
        persisted := persisted + inserted;
      }
      assert observations[..|observations|] == observations;
      if baseline.None? {
        baseline := Some(Baseline(|observations|, establishing));
      }
    }
  }

  lemma OtherFixturesUntouched(store: Store, observation: Observation, establishing: bool)
    ensures var after := IngestOne(store, observation, establishing);
      && (forall f :: f != observation.fixtureId ==>
            CheckpointOf(after, f) == CheckpointOf(store, f) && LogOf(after, f) == LogOf(store, f))
      && after.checkpoints.Keys == store.checkpoints.Keys + {observation.fixtureId}
      && after.baseline == store.baseline
  {
    hide Diff, PersistAll;
  }
}
