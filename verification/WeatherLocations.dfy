/** The recent weather locations, on the server and on the client. */
module WeatherLocations {
  import opened Common
  import opened Ordering

  const RECENT_LIMIT := 5

  // Rows by location id, with the time of last use in seconds.
  datatype Table = Table(rows: map<nat, int>, selected: Option<nat>)

  const EmptyTable := Table(map[], None)

  function RecencyRank(rows: map<nat, int>): map<nat, int> {
    map id | id in rows :: -rows[id]
  }

  /** Latest use first, ties by id. */
  function ByRecency(rows: map<nat, int>): seq<nat> {
    Ordered(rows.Keys, RecencyRank(rows))
  }

  /** What the endpoint answers. */
  function Recent(table: Table): seq<nat> {
    Take(ByRecency(table.rows), RECENT_LIMIT)
  }

  function Restricted(rows: map<nat, int>, ids: set<nat>): map<nat, int> {
    map id | id in rows && id in ids :: rows[id]
  }

  /** Deleting the selected row clears the selection, as its foreign key demands. */
  function Selected(table: Table, id: nat, now: int): Table {
    var rows := table.rows[id := now];
    var kept := Restricted(rows, Elements(Take(ByRecency(rows), RECENT_LIMIT)));
    Table(kept, if id in kept then Some(id) else None)
  }

  /** The other rows that the answer lists before one used at this time. */
  function UsedBefore(rows: map<nat, int>, id: nat, now: int): set<nat> {
    set x | x in rows && x != id && (rows[x] > now || (rows[x] == now && x < id))
  }

  function Removed(list: seq<nat>, id: nat): seq<nat> {
    if |list| == 0 then []
    else if list[0] == id then Removed(list[1..], id)
    else [list[0]] + Removed(list[1..], id)
  }

  /** The client's list after a selection. */
  function MovedToFront(list: seq<nat>, id: nat): seq<nat> {
    Take([id] + Removed(list, id), RECENT_LIMIT)
  }

  // ---------------------------------------------------------------- both sides, in place

  class LocationStore {
    var rows: map<nat, int>
    var selected: Option<nat>

    function Contents(): Table
      reads this
    {
      Table(rows, selected)
    }

    constructor ()
      ensures Contents() == EmptyTable
    {
      rows, selected := map[], None;
    }

    /**
     Only the recent rows remain, at most five. Selected later than all others the location moves to the
     front; with an earlier clock its own row may go, and the selection with it, exactly when five rows
     stand before it.
     */
    method SelectLocation(id: nat, now: int)
      modifies this
      ensures Contents() == Selected(old(Contents()), id, now)
      ensures selected == if id in rows then Some(id) else None
      ensures |Recent(Contents())| <= 5 && rows.Keys == Elements(Recent(Contents()))
      ensures forall x :: x in rows && x != id ==> x in old(rows) && rows[x] == old(rows)[x]
      ensures (forall x :: x in old(rows) ==> old(rows)[x] < now)
              ==> id in rows && Recent(Contents()) == MovedToFront(Recent(old(Contents())), id)
      ensures id in rows <==> |UsedBefore(old(rows), id, now)| < 5
    {
      SelectionSurvives(Contents(), id, now);
      OnlyRecentsRemain(Contents(), id, now);
      if forall x :: x in rows ==> rows[x] < now { OptimisticListIsTheServers(Contents(), id, now); }
      hide Recent, UsedBefore, MovedToFront;
      rows := rows[id := now];
      selected := Some(id);
      var keep := Elements(Take(ByRecency(rows), RECENT_LIMIT));
      rows := map i | i in rows && i in keep :: rows[i];
      if id !in rows { selected := None; }
    }
  }

  datatype LocationState = LocationState(selected: Option<nat>, recent: seq<nat>)

  class LocationHook {
    var state: LocationState

    constructor (initial: LocationState)
      ensures state == initial
    {
      state := initial;
    }

    /** The optimistic update; the answer of the server, or a failure, then replaces it. */
    method Select(id: nat) returns (previous: LocationState)
      modifies this
      ensures previous == old(state) && state == LocationState(Some(id), MovedToFront(old(state).recent, id))
    {
      previous := state;
      var kept: seq<nat> := [];
      var i := 0;
      while i < |previous.recent|
        invariant 0 <= i <= |previous.recent|
        invariant Removed(previous.recent, id) == kept + Removed(previous.recent[i..], id)
        invariant state == previous
      {
        var rest := previous.recent[i..];
        assert rest[1..] == previous.recent[i + 1..];
        if previous.recent[i] != id { kept := kept + [previous.recent[i]]; }
        i := i + 1;
      }
      var recent := [id] + kept;
      state := LocationState(Some(id), if |recent| > RECENT_LIMIT then recent[..RECENT_LIMIT] else recent);
    }

    /**
     The whole of `select`; `table` is what the server had. A failure leaves no trace, and a client whose
     list was the server's has shown the answer before it came.
     */
    method Choose(id: nat, answer: Option<LocationState>, ghost table: Table, ghost now: int) returns (saved: bool)
      modifies this
      ensures saved == answer.Some?
      ensures !saved ==> state == old(state)
      ensures saved ==> state == answer.value
      ensures saved && answer.value.recent == Recent(Selected(table, id, now))
              && old(state).recent == Recent(table) && (forall x :: x in table.rows ==> table.rows[x] < now)
              ==> state.recent == MovedToFront(old(state).recent, id)
    {
      if forall x :: x in table.rows ==> table.rows[x] < now { OptimisticListIsTheServers(table, id, now); }
      hide Recent, Selected, MovedToFront;
      var previous := Select(id);
      if answer.Some? { state := answer.value; } else { state := previous; }
      saved := answer.Some?;
    }
  }

  // ---------------------------------------------------------------- lists in order

  /** Taking one element out of the set takes it out of the list. */
  lemma {:induction false} OrderedWithout(ids: set<nat>, rank: map<nat, int>, id: nat)
    requires ids <= rank.Keys
    ensures Ordered(ids - {id}, rank) == Removed(Ordered(ids, rank), id)
  {
    if id !in ids {
      assert ids - {id} == ids;
      OrderedIsComplete(ids, rank);
      NothingRemoved(Ordered(ids, rank), id);
    } else {
      var m := First(ids, rank);
      var rest := Ordered(ids - {m}, rank);
      assert Ordered(ids, rank) == [m] + rest;
      OrderedWithout(ids - {m}, rank, id);
      if m != id {
        assert m in ids - {id} && First(ids - {id}, rank) == m;
        assert ids - {m} - {id} == ids - {id} - {m};
      } else {
        assert ids - {m} - {id} == ids - {m};
      }
    }
  }

  lemma {:induction false} NothingRemoved(list: seq<nat>, id: nat)
    requires id !in Elements(list)
    ensures Removed(list, id) == list
  {
    if |list| > 0 {
      assert list[0] in Elements(list);
      assert forall x :: x in list[1..] ==> x in list;
      NothingRemoved(list[1..], id);
    }
  }

  /** The first elements, taken for themselves, are in the same order. */
  lemma {:induction false} OrderedPrefix(ids: set<nat>, rank: map<nat, int>, k: nat)
    requires ids <= rank.Keys && k <= |Ordered(ids, rank)|
    ensures Elements(Ordered(ids, rank)[..k]) <= ids && Elements(Ordered(ids, rank)[..k]) <= rank.Keys
    ensures Ordered(Elements(Ordered(ids, rank)[..k]), rank) == Ordered(ids, rank)[..k]
  {
    if k == 0 {
      assert Elements(Ordered(ids, rank)[..0]) == {};
    } else {
      var m := First(ids, rank);
      var rest := Ordered(ids - {m}, rank);
      assert Ordered(ids, rank) == [m] + rest;
      OrderedPrefix(ids - {m}, rank, k - 1);
      TakenFromFront(m, rest, k - 1);
      hide Elements, Ordered;
      var some := Elements(([m] + rest)[..k]);
      assert some - {m} == Elements(rest[..k - 1]);
      FirstOnTop(ids, some, rank);
      assert ([m] + rest)[..k] == [m] + rest[..k - 1];
    }
  }

  lemma FirstOnTop(ids: set<nat>, some: set<nat>, rank: map<nat, int>)
    requires ids != {} && ids <= rank.Keys && some <= ids && First(ids, rank) in some
    ensures Ordered(some, rank) == [First(ids, rank)] + Ordered(some - {First(ids, rank)}, rank)
  {
    SameFirst(ids, some, rank);
  }

  lemma SameFirst(ids: set<nat>, some: set<nat>, rank: map<nat, int>)
    requires ids != {} && ids <= rank.Keys && some <= ids && First(ids, rank) in some
    ensures First(some, rank) == First(ids, rank)
  {
  }

  lemma NewestComesFirst(rows: map<nat, int>, id: nat, now: int)
    requires forall x :: x in rows ==> rows[x] < now
    ensures ByRecency(rows[id := now]) == [id] + Removed(ByRecency(rows), id)
  {
    var after := rows[id := now];
    var rank := RecencyRank(after);
    assert id in after.Keys && rank.Keys == after.Keys;
    assert First(after.Keys, rank) == id;
    assert after.Keys - {id} == rows.Keys - {id};
    OrderedByRankOnly(rows.Keys - {id}, RecencyRank(rows), rank);
    OrderedWithout(rows.Keys, RecencyRank(rows), id);
  }

  lemma RestrictionKeepsOrder(rows: map<nat, int>)
    ensures ByRecency(Restricted(rows, Elements(Take(ByRecency(rows), RECENT_LIMIT)))) == Take(ByRecency(rows), RECENT_LIMIT)
  {
    var all := ByRecency(rows);
    var k := Min(|all|, RECENT_LIMIT);
    OrderedPrefix(rows.Keys, RecencyRank(rows), k);
    assert Take(all, RECENT_LIMIT) == all[..k] by { if |all| <= RECENT_LIMIT { assert all[..k] == all; } }
    var kept := Restricted(rows, Elements(all[..k]));
    assert kept.Keys == Elements(all[..k]);
    OrderedByRankOnly(kept.Keys, RecencyRank(rows), RecencyRank(kept));
  }

  // ---------------------------------------------------------------- one list on both sides

  datatype Selection = Selection(id: nat, at: int)

  function TableAfter(selections: seq<Selection>): Table {
    if |selections| == 0 then EmptyTable
    else
      var n := |selections| - 1;
      Selected(TableAfter(selections[..n]), selections[n].id, selections[n].at)
  }

  predicate Chronological(selections: seq<Selection>) {
    forall i, j :: 0 <= i < j < |selections| ==> selections[i].at < selections[j].at
  }

  /** The distinct selections, latest first. */
  function LatestDistinct(selections: seq<Selection>): seq<nat> {
    if |selections| == 0 then []
    else
      var n := |selections| - 1;
      [selections[n].id] + Removed(LatestDistinct(selections[..n]), selections[n].id)
  }

  lemma {:induction false} RowsArePast(selections: seq<Selection>)
    requires Chronological(selections) && selections != []
    ensures forall x :: x in TableAfter(selections).rows ==> TableAfter(selections).rows[x] <= selections[|selections| - 1].at
  {
    var n := |selections| - 1;
    if n > 0 { RowsArePast(selections[..n]); }
    hide ByRecency;
  }

  /** Of a list without repeats, the first k without an element are found among the first k + 1. */
  lemma {:induction false} RemovedIsShort(list: seq<nat>, id: nat, k: nat)
    requires NoRepeats(list)
    ensures Take(Removed(Take(list, k + 1), id), k) == Take(Removed(list, id), k)
  {
    if |list| > k + 1 {
      var first := Take(list, k + 1);
      assert first[1..] == Take(list[1..], k);
      if list[0] == id {
        assert id !in Elements(list[1..]) && id !in Elements(first[1..]);
        NothingRemoved(list[1..], id);
        NothingRemoved(first[1..], id);
      } else if k > 0 {
        RemovedIsShort(list[1..], id, k - 1);
        assert Removed(first, id) == [list[0]] + Removed(first[1..], id);
        TakeFront(list[0], Removed(first[1..], id), k);
        TakeFront(list[0], Removed(list[1..], id), k);
      }
    }
  }

  lemma TakeFront(x: nat, rest: seq<nat>, k: nat)
    requires k > 0
    ensures Take([x] + rest, k) == [x] + Take(rest, k - 1)
  {
  }

  lemma {:induction false} RemovedMembers(list: seq<nat>, id: nat)
    ensures forall x :: x in Removed(list, id) ==> x in list && x != id
  {
    if |list| > 0 { RemovedMembers(list[1..], id); }
  }

  lemma PrependedHasNoRepeats(id: nat, list: seq<nat>)
    requires NoRepeats(list) && id !in list
    ensures NoRepeats([id] + list)
  {
  }

  lemma {:induction false} RemovedHasNoRepeats(list: seq<nat>, id: nat)
    requires NoRepeats(list)
    ensures NoRepeats(Removed(list, id))
  {
    if |list| > 0 {
      RemovedHasNoRepeats(list[1..], id);
      RemovedMembers(list[1..], id);
      if list[0] != id { PrependedHasNoRepeats(list[0], Removed(list[1..], id)); }
    }
  }

  lemma OrderedHasNoRepeats(ids: set<nat>, rank: map<nat, int>)
    requires ids <= rank.Keys
    ensures NoRepeats(Ordered(ids, rank))
  {
    forall i, j | 0 <= i < j < |Ordered(ids, rank)| ensures Ordered(ids, rank)[i] != Ordered(ids, rank)[j] {
      OrderedIsSorted(ids, rank, i, j);
    }
  }

  lemma FrontAndRest(id: nat, rest: seq<nat>)
    ensures Take([id] + rest, RECENT_LIMIT) == [id] + Take(rest, RECENT_LIMIT - 1)
  {
  }

  lemma MovedFromAnyLength(list: seq<nat>, id: nat)
    requires NoRepeats(list)
    ensures MovedToFront(Take(list, RECENT_LIMIT), id) == Take([id] + Removed(list, id), RECENT_LIMIT)
  {
    RemovedIsShort(list, id, RECENT_LIMIT - 1);
    FrontAndRest(id, Removed(Take(list, RECENT_LIMIT), id));
    FrontAndRest(id, Removed(list, id));
    hide Take, Removed;
  }

  /** The client's optimistic list is the one the server answers, when the selection is later than all before. */
  lemma OptimisticListIsTheServers(table: Table, id: nat, now: int)
    requires forall x :: x in table.rows ==> table.rows[x] < now
    ensures Recent(Selected(table, id, now)) == MovedToFront(Recent(table), id)
    ensures Selected(table, id, now).selected == Some(id) && id in Selected(table, id, now).rows
  {
    var rows := table.rows[id := now];
    NewestComesFirst(table.rows, id, now);
    RestrictionKeepsOrder(rows);
    OrderedHasNoRepeats(table.rows.Keys, RecencyRank(table.rows));
    MovedFromAnyLength(ByRecency(table.rows), id);
    TakenTwice(ByRecency(rows));
    FrontAndRest(id, Removed(ByRecency(table.rows), id));
    assert Take(ByRecency(rows), RECENT_LIMIT)[0] == id;
  }

  /** A selection's own row is kept exactly when fewer than five other rows stand before it. */
  lemma SelectionSurvives(table: Table, id: nat, now: int)
    ensures id in Selected(table, id, now).rows <==> |UsedBefore(table.rows, id, now)| < RECENT_LIMIT
  {
    var rows := table.rows[id := now];
    var rank, all := RecencyRank(rows), ByRecency(rows);
    OrderedIsComplete(rows.Keys, rank);
    assert id in Elements(all);
    var k :| 0 <= k < |all| && all[k] == id;
    PositionCounts(rows.Keys, rank, k);
    assert Preceding(rows.Keys, rank, id) == UsedBefore(table.rows, id, now);
    OrderedHasNoRepeats(rows.Keys, rank);
    hide Ordered, UsedBefore, Preceding, ByRecency;
    assert id in Take(all, RECENT_LIMIT) <==> k < RECENT_LIMIT;
  }

  /** Selected before the last use of five others, a new location leaves the table as it was. */
  lemma TheEarliestIsLost(table: Table, id: nat, now: int)
    requires |table.rows| == RECENT_LIMIT && id !in table.rows && forall x :: x in table.rows ==> table.rows[x] > now
    ensures var after := Selected(table, id, now); after.rows.Keys == table.rows.Keys && after.selected == None
  {
    hide ByRecency, Take;
    assert UsedBefore(table.rows, id, now) == table.rows.Keys;
    SelectionSurvives(table, id, now);
    assert table.rows[id := now].Keys == table.rows.Keys + {id};
    FiveRemain(table, id, now);
    SameWhenFull(Selected(table, id, now).rows.Keys, table.rows.Keys);
  }

  /** Five locations and a clock that stands behind all of them: the sixth is gone as soon as it is selected. */
  lemma AnEarlyClockLosesTheSelection()
    ensures var table := Table(map[1 := 11, 2 := 12, 3 := 13, 4 := 14, 5 := 15], Some(5));
      var after := Selected(table, 6, 10);
      after.rows.Keys == {1, 2, 3, 4, 5} && after.selected == None
  {
    hide Selected;
    var table := Table(map[1 := 11, 2 := 12, 3 := 13, 4 := 14, 5 := 15], Some(5));
    assert table.rows.Keys == {1, 2, 3, 4, 5} && |table.rows| == |table.rows.Keys|;
    TheEarliestIsLost(table, 6, 10);
  }

  /** With five rows beside it a selection leaves five rows. */
  lemma FiveRemain(table: Table, id: nat, now: int)
    requires |table.rows[id := now]| >= RECENT_LIMIT
    ensures |Selected(table, id, now).rows.Keys| == RECENT_LIMIT
  {
    var rows := table.rows[id := now];
    var rank, all := RecencyRank(rows), ByRecency(rows);
    OrderedIsComplete(rows.Keys, rank);
    OrderedHasNoRepeats(rows.Keys, rank);
    var kept := Take(all, RECENT_LIMIT);
    assert |all| >= RECENT_LIMIT && kept == all[..RECENT_LIMIT];
    assert Elements(kept) <= Elements(all);
    hide ByRecency, Ordered;
    assert Restricted(rows, Elements(kept)).Keys == Elements(kept);
    ElementsCount(kept);
  }

  lemma SameWhenFull(a: set<nat>, b: set<nat>)
    requires a <= b && |a| == |b|
    ensures a == b
  {
    if x :| x in b && x !in a { Smaller(a, b - {x}); }
  }

  lemma OnlyRecentsRemain(table: Table, id: nat, now: int)
    ensures var after := Selected(table, id, now);
      && |Recent(after)| <= RECENT_LIMIT && after.rows.Keys == Elements(Recent(after))
      && forall x :: x in after.rows && x != id ==> x in table.rows && after.rows[x] == table.rows[x]
  {
    var rows := table.rows[id := now];
    RestrictionKeepsOrder(rows);
    TakenTwice(ByRecency(rows));
    OrderedIsComplete(rows.Keys, RecencyRank(rows));
    assert Elements(ByRecency(rows)) == rows.Keys;
    hide ByRecency;
    TakenAreElements(ByRecency(rows));
    hide Take, Elements;
  }

  lemma TakenAreElements(list: seq<nat>)
    ensures Elements(Take(list, RECENT_LIMIT)) <= Elements(list) && |Take(list, RECENT_LIMIT)| <= RECENT_LIMIT
  {
  }

  lemma TakenTwice(list: seq<nat>)
    ensures Take(Take(list, RECENT_LIMIT), RECENT_LIMIT) == Take(list, RECENT_LIMIT)
  {
  }

  lemma {:induction false} LatestDistinctHasNoRepeats(selections: seq<Selection>)
    ensures NoRepeats(LatestDistinct(selections))
  {
    if |selections| > 0 {
      var n := |selections| - 1;
      LatestDistinctHasNoRepeats(selections[..n]);
      RemovedHasNoRepeats(LatestDistinct(selections[..n]), selections[n].id);
      RemovedMembers(LatestDistinct(selections[..n]), selections[n].id);
      PrependedHasNoRepeats(selections[n].id, Removed(LatestDistinct(selections[..n]), selections[n].id));
    }
  }

  function ListAfter(selections: seq<Selection>): seq<nat> {
    if |selections| == 0 then []
    else MovedToFront(ListAfter(selections[..|selections| - 1]), selections[|selections| - 1].id)
  }

  /**
   After any selections in order of time the table answers the last five distinct ones, latest first;
   the client, moving each selection to the front, has the same list.
   */
  lemma {:induction false} RecentsAgree(selections: seq<Selection>)
    requires Chronological(selections)
    ensures Recent(TableAfter(selections)) == Take(LatestDistinct(selections), 5)
    ensures ListAfter(selections) == Recent(TableAfter(selections))
    ensures TableAfter(selections).selected
            == if selections == [] then None else Some(selections[|selections| - 1].id)
  {
    if |selections| == 0 {
      assert EmptyTable.rows.Keys == {};
    } else {
      var n := |selections| - 1;
      var before := TableAfter(selections[..n]);
      RecentsAgree(selections[..n]);
      if n > 0 { RowsArePast(selections[..n]); }
      OptimisticListIsTheServers(before, selections[n].id, selections[n].at);
      LatestDistinctHasNoRepeats(selections[..n]);
      MovedFromAnyLength(LatestDistinct(selections[..n]), selections[n].id);
      hide Recent, Selected, MovedToFront, Take, Removed;
    }
  }
}
