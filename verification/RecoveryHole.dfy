/** Runs in which an overflow, or a failed publication, leaves the client with a row missing. */
module RecoveryHole {
  import opened Common
  import opened Realtime
  import opened Recovery

  ghost predicate Reachable(w: World) {
    exists states, actions :: IsRun(states, actions) && states[|states| - 1] == w
  }

  lemma Starts()
    ensures Reachable(Fresh)
  {
    assert IsRun([Fresh], []);
    assert [Fresh][|[Fresh]| - 1] == Fresh;
  }

  lemma Steps(w: World, action: Action)
    requires Reachable(w) && Enabled(w, action)
    ensures Reachable(Next(w, action))
  {
    hide Enabled, Next;
    var states, actions :| IsRun(states, actions) && states[|states| - 1] == w;
    var longer, more := states + [Next(w, action)], actions + [action];
    forall i | 0 <= i < |more| ensures Enabled(longer[i], more[i]) && longer[i + 1] == Next(longer[i], more[i]) {
      if i < |actions| {
        assert longer[i] == states[i] && longer[i + 1] == states[i + 1] && more[i] == actions[i];
      }
    }
    assert IsRun(longer, more) && longer[|longer| - 1] == Next(w, action);
  }

  /** The items from `first` on. */
  function From(first: nat, count: nat): seq<Message> {
    seq(count, i requires 0 <= i < count => Item(first + i))
  }

  predicate IsCursor(c: nat) {
    c > 0
  }

  function Rows(n: nat): set<nat> {
    set c: nat | c <= n && IsCursor(c)
  }

  /** A client that has connected to an empty table and reads nothing while `n` rows are published. */
  function Filled(n: nat): World {
    World(Rows(n), n, None, Some(Socket(0, Streaming, From(1, n), [])), Client(0, 0, [], [], []), {})
  }

  lemma Connects()
    ensures Reachable(Filled(0))
  {
    Starts();
    var w1 := Next(Fresh, Connect);
    Steps(Fresh, Connect);
    var w2 := Next(w1, Action.Subscribe);
    Steps(w1, Action.Subscribe);
    var w3 := Next(w2, CheckCursor);
    assert Maximum({}) == 0;
    Steps(w2, CheckCursor);
    var w4 := Next(w3, Replay);
    Steps(w3, Replay);
    assert Newer({}, 0) == {};
    assert Items(Ascend({})) == [] && From(1, 0) == [];
    assert w4.socket.value.wire == [] && w4.socket.value.queue == [];
    assert w4 == Filled(0);
  }

  lemma {:induction false} Fills(n: nat)
    requires n <= CAPACITY
    ensures Reachable(Filled(n))
  {
    if n == 0 {
      Connects();
    } else {
      Fills(n - 1);
      RowsGrow(n);
      var w := Filled(n - 1);
      var w1 := Next(w, CommitRow(n));
      Steps(w, CommitRow(n));
      var w2 := Next(w1, PublishRow);
      Steps(w1, PublishRow);
      assert From(1, n - 1) + [Item(n)] == From(1, n);
      assert w2 == Filled(n);
    }
  }

  function Accepted(j: nat): seq<nat> {
    if j < 2 then [] else Accepted(j - 1) + [j]
  }

  /** Rows 1 and 101 fell to an overflow, row 102 came behind the marker, and the client has read up to row `j`. */
  function Emptying(j: nat): World
    requires 2 <= j <= CAPACITY
  {
    World(Rows(102), 102, None,
          Some(Socket(0, Streaming, From(j + 1, CAPACITY - j) + [Gap, Item(102)], [])),
          Client(j, 2 * (j - 1), [], Accepted(j), []), {1, 101})
  }

  /** Row 101 has met a full queue, and the client's socket has taken the head of what remained. */
  function Marked101(): World {
    World(Rows(101), 101, None,
          Some(Socket(0, Streaming, From(3, CAPACITY - 2) + [Gap], [Item(2)])), Client(0, 0, [], [], []), {1, 101})
  }

  lemma OfferWhenFull(rest: seq<Message>)
    requires |rest| == CAPACITY - 2
    ensures var queue := [Item(1), Item(2)] + rest;
      Offer(queue, Item(101)) == [Item(2)] + rest + [Gap] && Overflowed(queue, 101, 0) == {1, 101}
  {
  }

  lemma PublishWhenFull(rows: set<nat>, rest: seq<Message>, client: Client)
    requires |rest| == CAPACITY - 2 && client.cursor == 0
    ensures Next(World(rows, 101, Some(101), Some(Socket(0, Streaming, [Item(1), Item(2)] + rest, [])), client, {}), PublishRow)
            == World(rows, 101, None, Some(Socket(0, Streaming, [Item(2)] + rest + [Gap], [])), client, {1, 101})
  {
    OfferWhenFull(rest);
    assert {} + {1, 101} == {1, 101};
    hide Offer, Overflowed;
  }

  lemma DrainsHead(w: World, message: Message, rest: seq<Message>)
    requires w.socket.Some? && w.socket.value.phase.Streaming?
    requires w.socket.value.queue == [message] + rest && w.socket.value.wire == []
    ensures Next(w, DrainQueue) == w.(socket := Some(w.socket.value.(queue := rest, wire := [message])))
  {
    assert ([message] + rest)[1..] == rest && [] + [message] == [message];
  }

  /** Row 101 is committed while the hundred before it wait in the queue. */
  function Waiting101(): World {
    World(Rows(101), 101, Some(101), Some(Socket(0, Streaming, [Item(1), Item(2)] + From(3, CAPACITY - 2), [])),
          Client(0, 0, [], [], []), {})
  }

  lemma Commits101()
    ensures Reachable(Waiting101())
  {
    Fills(CAPACITY);
    var w := Filled(CAPACITY);
    assert w.socket.value.queue == [Item(1), Item(2)] + From(3, CAPACITY - 2);
    RowsGrow(101);
    hide Reachable, Rows, From;
    Steps(w, CommitRow(101));
  }

  lemma Overflows101()
    ensures Reachable(Marked101())
  {
    Commits101();
    hide Reachable, Rows, From;
    var w1 := Waiting101();
    var rest := From(3, CAPACITY - 2);
    assert |rest| == CAPACITY - 2 by { Length(3, CAPACITY - 2); }
    PublishWhenFull(Rows(101), rest, w1.client);
    Steps(w1, PublishRow);
    var w2 := Next(w1, PublishRow);
    assert [Item(2)] + rest + [Gap] == [Item(2)] + (rest + [Gap]);
    hide Published;
    DrainsHead(w2, Item(2), rest + [Gap]);
    Steps(w2, DrainQueue);
  }

  lemma Length(first: nat, count: nat)
    ensures |From(first, count)| == count
  {
  }

  lemma RowsGrow(n: nat)
    requires n > 0
    ensures Rows(n - 1) + {n} == Rows(n)
  {
  }

  lemma OverflowsOnce()
    ensures Reachable(Emptying(2))
  {
    Overflows101();
    hide Reachable, Rows;
    var w3 := Marked101();
    var w4 := Next(w3, CommitRow(102));
    Steps(w3, CommitRow(102));
    assert w4.rows == Rows(102) by { RowsGrow(102); }
    var w5 := Next(w4, PublishRow);
    Steps(w4, PublishRow);
    assert w5.socket.value.queue == From(3, CAPACITY - 2) + [Gap, Item(102)];
    assert w5.dropped == {1, 101};
    var w6 := Next(w5, Receive);
    Steps(w5, Receive);
    assert w6.client.accepted == Accepted(2) && w6.socket.value.wire == [];
    assert w6 == Emptying(2);
  }

  lemma ReadsOne(j: nat)
    requires 2 < j <= CAPACITY && Reachable(Emptying(j - 1))
    ensures Reachable(Emptying(j))
  {
    hide Reachable, Rows, Maximum, Newer, Ascend, Page, Overflowed, Offer;
    var w := Emptying(j - 1);
    var rest := From(j + 1, CAPACITY - j) + [Gap, Item(102)];
    assert From(j, CAPACITY - j + 1) == [Item(j)] + From(j + 1, CAPACITY - j);
    assert w.socket.value.queue == [Item(j)] + rest;
    hide From;
    var w1 := Next(w, DrainQueue);
    Steps(w, DrainQueue);
    assert w1.socket.value == Socket(0, Streaming, rest, [Item(j)]);
    Steps(w1, Receive);
    assert Next(w1, Receive).socket.value.wire == [] && Next(w1, Receive).client.accepted == Accepted(j);
    assert Next(w1, Receive) == Emptying(j);
  }

  lemma {:induction false} Empties(j: nat)
    requires 2 <= j <= CAPACITY
    ensures Reachable(Emptying(j))
  {
    if j == 2 {
      OverflowsOnce();
    } else {
      Empties(j - 1);
      ReadsOne(j);
    }
  }

  lemma MarkerThenItem() returns (w: World)
    ensures Reachable(w) && w.socket.Some? && w.socket.value.wire == [Gap, Item(102)] && w.socket.value.queue == []
    ensures w.client == Emptying(CAPACITY).client && w.rows == Rows(102) && w.dropped == {1, 101}
  {
    Empties(CAPACITY);
    var w0 := Emptying(CAPACITY);
    assert w0.socket.value.queue == [Gap, Item(102)];
    var w1 := Next(w0, DrainQueue);
    Steps(w0, DrainQueue);
    w := Next(w1, DrainQueue);
    Steps(w1, DrainQueue);
  }

  lemma DiscardedRefresh(w0: World, x: nat, c: nat) returns (w: World)
    requires Reachable(w0) && WorldOk(w0) && w0.socket.Some? && w0.socket.value.wire == [Gap, Item(x)]
    requires w0.socket.value.queue == [] && w0.client.refreshes == []
    requires c in w0.rows && w0.client.cursor < c < x && c in w0.dropped && !Covered(w0.client, c)
    ensures Reachable(w) && w.socket.Some? && w.socket.value.wire == [] && w.socket.value.queue == []
    ensures w.client.refreshes == [] && c in w.rows && c < w.client.cursor && !Covered(w.client, c)
  {
    hide Reachable, WorldOk, Covered, Next, Enabled;
    ADiscardedRefreshLeavesAHole(w0, x, c);
    assert Enabled(w0, Receive) by { CanReceive(w0); }
    var w1 := Next(w0, Receive);
    Steps(w0, Receive);
    var w2 := Next(w1, Receive);
    Steps(w1, Receive);
    var w3 := Next(w2, ReadMaximum(0));
    Steps(w2, ReadMaximum(0));
    var w4 := Next(w3, ReadPage(0));
    Steps(w3, ReadPage(0));
    w := Next(w4, FinishRefresh(0));
    Steps(w4, FinishRefresh(0));
  }

  lemma CanReceive(w: World)
    requires w.socket.Some? && w.socket.value.wire != []
    ensures Enabled(w, Receive)
  {
  }

  /**
   A reachable state in which nothing is left to read and no refresh is in flight, and yet a row of the
   table lies below the client's cursor that the client neither accepted nor fetched.
   */
  lemma OverflowsMayHideARow() returns (w: World)
    ensures Reachable(w) && w.socket.Some? && w.socket.value.wire == [] && w.socket.value.queue == []
    ensures w.client.refreshes == [] && 101 in w.rows && 101 < w.client.cursor && !Covered(w.client, 101)
  {
    var w0 := MarkerThenItem();
    RowsGrow(101);
    RowsGrow(102);
    ReachableWorldIsOk(w0);
    AcceptedUpTo(CAPACITY);
    assert !Covered(w0.client, 101);
    hide Reachable, WorldOk, Covered, Rows, Accepted;
    w := DiscardedRefresh(w0, 102, 101);
  }

  /** A client that listens, with row 1 committed but never published, once row 2 lies in its queue. */
  function Passed(): World {
    World({1, 2}, 2, None, Some(Socket(0, Streaming, [Item(2)], [])), Client(0, 0, [], [], []), {1})
  }

  lemma Passes()
    ensures Reachable(Passed())
  {
    Connects();
    hide Reachable;
    var w0 := Filled(0);
    assert w0.rows == {} && w0.socket.value.queue == [];
    Steps(w0, CommitRow(1));
    var w1 := Next(w0, CommitRow(1));
    Steps(w1, LosePublication);
    var w2 := Next(w1, LosePublication);
    assert w2.dropped == {1};
    Steps(w2, CommitRow(2));
    var w3 := Next(w2, CommitRow(2));
    assert w3.rows == {1, 2};
    Steps(w3, PublishRow);
    assert w3.dropped + {} == {1} && [] + [Item(2)] == [Item(2)];
  }

  /** With one failed publication a row is missed as well, without any overflow and without a marker. */
  lemma AFailedPublicationHidesARow() returns (w: World)
    ensures Reachable(w) && w.socket.Some? && w.socket.value.wire == [] && w.socket.value.queue == []
    ensures w.client.refreshes == [] && w.client.accepted == [2] && w.client.cursor == 2
    ensures 1 in w.rows && !Covered(w.client, 1)
  {
    Passes();
    hide Reachable;
    var w0 := Passed();
    Steps(w0, DrainQueue);
    var w1 := Next(w0, DrainQueue);
    assert w1.socket.value.wire == [Item(2)] && w1.socket.value.queue == [];
    Steps(w1, Receive);
    w := Next(w1, Receive);
    assert w.client.accepted == [2];
  }

  lemma {:induction false} AcceptedUpTo(j: nat)
    ensures forall c :: c in Accepted(j) ==> c <= j
  {
    if j >= 2 { AcceptedUpTo(j - 1); }
  }

  lemma ReachableWorldIsOk(w: World)
    requires Reachable(w)
    ensures WorldOk(w)
  {
    var states, actions :| IsRun(states, actions) && states[|states| - 1] == w;
    ReachableIsOk(states, actions, |states| - 1);
  }
}
