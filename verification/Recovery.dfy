/** Cursor-based recovery of one client, over websocket and REST. */
module Recovery {
  import opened Common
  import opened Ordering
  import opened Realtime

  // The timeline table, the websocket endpoint, the REST timeline and one client interleave in any order
  // with server restarts, lost connections, failed requests and pruned rows. The projector publishes a row
  // after committing it and before committing the next one.

  const PAGE_LIMIT := 40

  // A REST refresh reads the watermark first and the page afterwards.
  datatype Stage = Started | Counted(maximum: nat) | Fetched(page: set<nat>, watermark: nat)

  datatype Refresh = Refresh(generation: nat, stage: Stage)

  datatype Snapshot = Snapshot(page: set<nat>, watermark: nat)

  // `accepted` and `applied` record what the client took from its sockets and from REST.
  datatype Client = Client(
    cursor: nat, generation: nat, refreshes: seq<Refresh>, accepted: seq<nat>, applied: seq<Snapshot>)

  datatype Phase = Opening | Subscribed | Checked | Streaming

  datatype Socket = Socket(last: nat, phase: Phase, queue: seq<Message>, wire: seq<Message>)

  // `dropped` records the rows that overflows and failed publications took before the client had them,
  // until a replay delivers or a refresh covers them.
  datatype World = World(
    rows: set<nat>, top: nat, unpublished: Option<nat>, socket: Option<Socket>, client: Client, dropped: set<nat>)

  datatype Action =
    | CommitRow(cursor: nat)
    | PublishRow
    | LosePublication    // the row is committed, but the call fails first, and its redelivery returns early
    | PruneRows(ids: set<nat>)
    | ServerRestart
    | Connect
    | Subscribe
    | CheckCursor
    | Replay
    | DrainQueue
    | Receive
    | Disconnect
    | BeginRefresh
    | BeginStateRefresh
    | ReadMaximum(index: nat)
    | ReadPage(index: nat)
    | FinishRefresh(index: nat)
    | FailRefresh(index: nat)

  // ---------------------------------------------------------------- the server

  function Maximum(rows: set<nat>): (m: nat)
    ensures forall c :: c in rows ==> c <= m
    ensures m == 0 || m in rows
  {
    if rows == {} then 0
    else
      var rank := map c | c in rows :: 0;
      OrderedIsComplete(rows, rank);
      HighestIsLast(rows, rank);
      Ordered(rows, rank)[|rows| - 1]
  }

  lemma HighestIsLast(rows: set<nat>, rank: map<nat, int>)
    requires rows != {} && rows <= rank.Keys && forall c :: c in rank ==> rank[c] == 0
    ensures |Ordered(rows, rank)| == |rows| > 0
    ensures Ordered(rows, rank)[|rows| - 1] in rows
    ensures forall c :: c in rows ==> c <= Ordered(rows, rank)[|rows| - 1]
  {
    OrderedIsComplete(rows, rank);
    var all := Ordered(rows, rank);
    assert all[|rows| - 1] in Elements(all);
    forall c | c in rows ensures c <= all[|rows| - 1] {
      assert c in Elements(all);
      var i :| 0 <= i < |all| && all[i] == c;
      if i < |rows| - 1 { OrderedIsSorted(rows, rank, i, |rows| - 1); }
    }
  }

  function Newer(rows: set<nat>, c: nat): set<nat> {
    set d | d in rows && d > c
  }

  /** The newest rows, as many as fit. */
  function Page(rows: set<nat>): set<nat> {
    set c | c in rows && |Newer(rows, c)| < PAGE_LIMIT
  }

  function Items(cursors: seq<nat>): seq<Message> {
    seq(|cursors|, i requires 0 <= i < |cursors| => Item(cursors[i]))
  }

  function Ascend(rows: set<nat>): seq<nat> {
    Ordered(rows, map c | c in rows :: 0)
  }

  /** What an overflow takes from a client: the head of its queue and the message that does not fit, where it lacks them. */
  function Overflowed(queue: seq<Message>, c: nat, cursor: nat): set<nat> {
    if |queue| < CAPACITY then {}
    else (if queue[0].Item? then Past(queue[0].number, cursor) else {}) + Past(c, cursor)
  }

  function Past(c: nat, cursor: nat): set<nat> {
    if c > cursor then {c} else {}
  }

  function Listening(socket: Option<Socket>): bool {
    socket.Some? && !socket.value.phase.Opening?
  }

  // ---------------------------------------------------------------- the client

  function Begun(client: Client): Client {
    client.(generation := client.generation + 1,
            refreshes := client.refreshes + [Refresh(client.generation + 1, Started)])
  }

  function BegunState(client: Client): Client {
    client.(generation := client.generation + 1)
  }

  /** An accepted item outdates every refresh in flight, and starts a refresh of the live state only. */
  function Received(client: Client, message: Message): Client {
    match message
    case Gap => Begun(client)
    case Item(c) =>
      if c <= client.cursor then client
      else BegunState(client.(cursor := c, generation := client.generation + 1, accepted := client.accepted + [c]))
  }

  function Without(refreshes: seq<Refresh>, index: nat): seq<Refresh>
    requires index < |refreshes|
  {
    refreshes[..index] + refreshes[index + 1..]
  }

  function Finished(client: Client, index: nat): Client
    requires index < |client.refreshes| && client.refreshes[index].stage.Fetched?
  {
    var refresh := client.refreshes[index];
    var rest := client.(refreshes := Without(client.refreshes, index));
    if refresh.generation != client.generation then rest
    else
      rest.(cursor := Max(client.cursor, refresh.stage.watermark),
            applied := client.applied + [Snapshot(refresh.stage.page, refresh.stage.watermark)])
  }

  function Staged(client: Client, index: nat, stage: Stage): Client
    requires index < |client.refreshes|
  {
    client.(refreshes := client.refreshes[index := client.refreshes[index].(stage := stage)])
  }

  // ---------------------------------------------------------------- steps

  predicate Enabled(w: World, action: Action) {
    match action
    case CommitRow(c) => c > w.top && w.unpublished.None?
    case PublishRow => w.unpublished.Some?
    case LosePublication => w.unpublished.Some?
    case Connect => w.socket.None?
    case Subscribe => w.socket.Some? && w.socket.value.phase.Opening?
    case CheckCursor => w.socket.Some? && w.socket.value.phase.Subscribed?
    case Replay => w.socket.Some? && w.socket.value.phase.Checked?
    case DrainQueue => w.socket.Some? && w.socket.value.phase.Streaming? && w.socket.value.queue != []
    case Receive => w.socket.Some? && w.socket.value.wire != []
    case ReadMaximum(i) => i < |w.client.refreshes| && w.client.refreshes[i].stage.Started?
    case ReadPage(i) => i < |w.client.refreshes| && w.client.refreshes[i].stage.Counted?
    case FinishRefresh(i) => i < |w.client.refreshes| && w.client.refreshes[i].stage.Fetched?
    case FailRefresh(i) => i < |w.client.refreshes|
    case _ => true
  }

  function Next(w: World, action: Action): World
    requires Enabled(w, action)
  {
    match action
    case CommitRow(c) => w.(rows := w.rows + {c}, top := c, unpublished := Some(c))
    case PublishRow => Published(w)
    case LosePublication => Unheard(w)
    case PruneRows(ids) => w.(rows := w.rows - ids)
    case ServerRestart => w.(socket := None, unpublished := None)
    case Connect => w.(socket := Some(Socket(w.client.cursor, Opening, [], [])))
    case Subscribe => w.(socket := Some(w.socket.value.(phase := Subscribed)))
    case CheckCursor =>
      var s := w.socket.value;
      w.(socket := Some(if s.last > Maximum(w.rows) then s.(phase := Streaming, wire := s.wire + [Gap])
                        else s.(phase := Checked)))
    case Replay =>
      var s := w.socket.value;
      w.(socket := Some(s.(phase := Streaming, wire := s.wire + Items(Ascend(Newer(w.rows, s.last))))))
    case DrainQueue =>
      var s := w.socket.value;
      w.(socket := Some(s.(queue := s.queue[1..], wire := s.wire + [s.queue[0]])))
    case Receive =>
      var s := w.socket.value;
      w.(socket := Some(s.(wire := s.wire[1..])), client := Received(w.client, s.wire[0]),
         dropped := if s.wire[0].Item? && s.wire[0].number > w.client.cursor then w.dropped - {s.wire[0].number}
                    else w.dropped)
    case Disconnect => w.(socket := None)
    case BeginRefresh => w.(client := Begun(w.client))
    case BeginStateRefresh => w.(client := BegunState(w.client))
    case ReadMaximum(i) => w.(client := Staged(w.client, i, Counted(Maximum(w.rows))))
    case ReadPage(i) =>
      var page := Page(w.rows);
      w.(client := Staged(w.client, i, Fetched(page, Max(w.client.refreshes[i].stage.maximum, Maximum(page)))))
    case FinishRefresh(i) =>
      var refresh := w.client.refreshes[i];
      w.(client := Finished(w.client, i),
         dropped := if refresh.generation != w.client.generation then w.dropped
                    else set c | c in w.dropped && c > refresh.stage.watermark)
    case FailRefresh(i) => w.(client := w.client.(refreshes := Without(w.client.refreshes, i)))
  }

  function Published(w: World): World
    requires w.unpublished.Some?
  {
    var c := w.unpublished.value;
    if !Listening(w.socket) then w.(unpublished := None)
    else
      var s := w.socket.value;
      w.(unpublished := None,
         socket := Some(s.(queue := Offer(s.queue, Item(c)))),
         dropped := w.dropped + Overflowed(s.queue, c, w.client.cursor))
  }

  /** A client that listens never hears of the row; one that does not will find it in its replay. */
  function Unheard(w: World): World
    requires w.unpublished.Some?
  {
    w.(unpublished := None,
       dropped := w.dropped + if Listening(w.socket) then Past(w.unpublished.value, w.client.cursor) else {})
  }

  // ---------------------------------------------------------------- what is on its way

  function Stream(w: World): seq<Message>
    requires w.socket.Some?
  {
    w.socket.value.wire + w.socket.value.queue + if w.unpublished.Some? then [Item(w.unpublished.value)] else []
  }

  /** Every row past the cursor is on its way or dropped, behind every other such row below it. */
  ghost predicate Delivers(rows: set<nat>, cursor: nat, dropped: set<nat>, stream: seq<Message>) {
    && (forall c :: c in rows && c > cursor && c !in dropped ==> Item(c) in stream)
    && (forall i, c :: 0 <= i < |stream| && stream[i].Item? && c in rows && cursor < c < stream[i].number && c !in dropped
                       ==> Item(c) in stream[..i])
  }

  lemma DeliversLess(rows: set<nat>, cursor: nat, dropped: set<nat>, stream: seq<Message>,
                     fewer: set<nat>, further: nat, more: set<nat>)
    requires Delivers(rows, cursor, dropped, stream) && fewer <= rows && further >= cursor
    requires forall c :: c in dropped && c > further ==> c in more
    ensures Delivers(fewer, further, more, stream)
  {
  }

  lemma DeliversHead(rows: set<nat>, cursor: nat, dropped: set<nat>, stream: seq<Message>)
    requires Delivers(rows, cursor, dropped, stream) && stream != []
    ensures stream[0].Gap? || stream[0].number <= cursor ==> Delivers(rows, cursor, dropped, stream[1..])
    ensures stream[0].Item? && stream[0].number > cursor ==>
              Delivers(rows, stream[0].number, dropped, stream[1..])
              && forall c :: c in rows && cursor < c < stream[0].number ==> c in dropped
  {
    var rest := stream[1..];
    assert stream == [stream[0]] + rest;
    var passed := if stream[0].Item? then Max(cursor, stream[0].number) else cursor;
    forall i, c | 0 <= i < |rest| && rest[i].Item? && c in rows && passed < c < rest[i].number && c !in dropped
      ensures Item(c) in rest[..i]
    {
      assert stream[i + 1] == rest[i];
      assert stream[..i + 1] == [stream[0]] + rest[..i];
    }
    if stream[0].Item? {
      forall c | c in rows && cursor < c < stream[0].number ensures c in dropped {
        assert Item(c) !in stream[..0];
      }
    }
  }

  lemma DeliversCommitted(rows: set<nat>, cursor: nat, dropped: set<nat>, stream: seq<Message>, c: nat)
    requires Delivers(rows, cursor, dropped, stream) && forall r :: r in rows ==> r < c
    requires forall m :: m in stream && m.Item? ==> m.number <= c
    ensures Delivers(rows + {c}, cursor, dropped, stream + [Item(c)])
  {
    var longer := stream + [Item(c)];
    forall i, r | 0 <= i < |longer| && longer[i].Item? && r in rows + {c} && cursor < r < longer[i].number && r !in dropped
      ensures Item(r) in longer[..i]
    {
      if i < |stream| {
        assert longer[i] == stream[i] && stream[i] in stream;
        assert longer[..i] == stream[..i];
      } else {
        assert longer[..i] == stream;
      }
    }
  }

  /** A message that leaves the stream leaves its row among the dropped ones. */
  lemma DeliversWithout(rows: set<nat>, cursor: nat, dropped: set<nat>, stream: seq<Message>, k: nat, more: set<nat>)
    requires Delivers(rows, cursor, dropped, stream) && k < |stream| && dropped <= more
    requires stream[k].Item? ==> stream[k].number in more || stream[k].number <= cursor
    ensures Delivers(rows, cursor, more, stream[..k] + stream[k + 1..])
  {
    var later := stream[..k] + stream[k + 1..];
    forall c | c in rows && c > cursor && c !in more ensures Item(c) in later {
      StillIn(stream, k, |stream|, Item(c));
    }
    forall i, c | 0 <= i < |later| && later[i].Item? && c in rows && cursor < c < later[i].number && c !in more
      ensures Item(c) in later[..i]
    {
      var j := if i < k then i else i + 1;
      assert later[i] == stream[j];
      StillIn(stream, k, j, Item(c));
    }
  }

  /** A message among the first `j`, and not the one at `k`, is still among them without that one. */
  lemma StillIn(stream: seq<Message>, k: nat, j: nat, message: Message)
    requires k < |stream| && j <= |stream| && message in stream[..j] && message != stream[k]
    ensures var later := stream[..k] + stream[k + 1..];
      message in later[..if j <= k then j else j - 1] && message in later
  {
    var later := stream[..k] + stream[k + 1..];
    var q :| 0 <= q < j && stream[q] == message;
    var r := if q < k then q else q - 1;
    assert later[r] == message;
    assert later[..if j <= k then j else j - 1][r] == message;
  }

  lemma DeliversMarker(rows: set<nat>, cursor: nat, dropped: set<nat>, stream: seq<Message>)
    requires Delivers(rows, cursor, dropped, stream)
    ensures Delivers(rows, cursor, dropped, stream + [Gap])
  {
    var longer := stream + [Gap];
    forall i, c | 0 <= i < |longer| && longer[i].Item? && c in rows && cursor < c < longer[i].number && c !in dropped
      ensures Item(c) in longer[..i]
    {
      assert longer[i] == stream[i] && longer[..i] == stream[..i];
    }
  }

  lemma DeliversOverflowed(rows: set<nat>, cursor: nat, dropped: set<nat>, wire: seq<Message>, queue: seq<Message>, c: nat)
    requires Delivers(rows, cursor, dropped, wire + queue + [Item(c)]) && |queue| >= CAPACITY
    ensures Delivers(rows, cursor, dropped + Overflowed(queue, c, cursor), wire + Offer(queue, Item(c)))
  {
    hide Delivers;
    var stream := wire + queue + [Item(c)];
    var more := dropped + Overflowed(queue, c, cursor);
    DeliversWithout(rows, cursor, dropped, stream, |wire|, more);
    assert stream[..|wire|] + stream[|wire| + 1..] == wire + queue[1..] + [Item(c)];
    var shorter := wire + queue[1..] + [Item(c)];
    DeliversWithout(rows, cursor, more, shorter, |shorter| - 1, more);
    assert shorter[..|shorter| - 1] + shorter[|shorter|..] == wire + queue[1..];
    DeliversMarker(rows, cursor, more, wire + queue[1..]);
    assert wire + queue[1..] + [Gap] == wire + Offer(queue, Item(c));
  }

  lemma AscendsCompletely(rows: set<nat>)
    ensures forall c :: c in rows <==> c in Ascend(rows)
    ensures forall i, j :: 0 <= i < j < |Ascend(rows)| ==> Ascend(rows)[i] < Ascend(rows)[j]
  {
    var rank := map c | c in rows :: 0;
    OrderedIsComplete(rows, rank);
    assert forall c :: c in Elements(Ascend(rows)) <==> c in Ascend(rows);
    forall i, j | 0 <= i < j < |Ascend(rows)| ensures Ascend(rows)[i] < Ascend(rows)[j] {
      OrderedIsSorted(rows, rank, i, j);
    }
  }

  lemma DeliversReplay(rows: set<nat>, cursor: nat, dropped: set<nat>, last: nat, rest: seq<Message>)
    requires last <= cursor
    ensures Delivers(rows, cursor, dropped, Items(Ascend(Newer(rows, last))) + rest)
  {
    var cursors := Ascend(Newer(rows, last));
    var replay := Items(cursors);
    AscendsCompletely(Newer(rows, last));
    hide Ordered, Ascend;
    forall c | c in rows && c > cursor
      ensures exists k :: 0 <= k < |replay| && replay[k] == Item(c)
    {
      assert c in Newer(rows, last);
      var k :| 0 <= k < |cursors| && cursors[k] == c;
      assert replay[k] == Item(c);
    }
    var stream := replay + rest;
    forall i, c | 0 <= i < |stream| && stream[i].Item? && c in rows && cursor < c < stream[i].number
      ensures Item(c) in stream[..i]
    {
      var k :| 0 <= k < |replay| && replay[k] == Item(c);
      assert k < i by { if i < |replay| { assert stream[i].number == cursors[i]; } }
      assert stream[..i][k] == Item(c);
    }
  }

  // ---------------------------------------------------------------- the invariant

  ghost predicate TableOk(w: World) {
    && (forall c :: c in w.rows ==> c <= w.top)
    && (w.unpublished.Some? ==> w.unpublished.value == w.top)
    && w.client.cursor <= w.top
  }

  ghost predicate SocketOk(w: World) {
    w.socket.Some? ==>
      var s := w.socket.value;
      && s.last <= w.client.cursor
      && (forall m :: m in Stream(w) && m.Item? ==> m.number <= w.top)
      && (!s.phase.Streaming? ==> s.wire == [])
      && (s.phase.Streaming? ==> Delivers(w.rows, w.client.cursor, w.dropped, Stream(w)))
  }

  /** On the page, or older than all of a page that is not empty, so that paging back leads to it. */
  predicate OnPage(page: set<nat>, c: nat) {
    c in page || (page != {} && forall x :: x in page ==> c < x)
  }

  predicate Covered(client: Client, c: nat) {
    c in client.accepted
    || exists k :: 0 <= k < |client.applied| && c <= client.applied[k].watermark && OnPage(client.applied[k].page, c)
  }

  /** Of the rows up to the cursor exactly the dropped ones are missing; watermarks never run ahead of the cursor. */
  ghost predicate Complete(w: World) {
    && (forall c :: c in w.rows && c <= w.client.cursor ==> Covered(w.client, c) || c in w.dropped)
    && (forall c :: c in w.rows && c in w.dropped ==> !Covered(w.client, c))
    && (forall k :: 0 <= k < |w.client.applied| ==> w.client.applied[k].watermark <= w.client.cursor)
  }

  predicate Increasing(cursors: seq<nat>, bound: nat) {
    && (forall i, j :: 0 <= i < j < |cursors| ==> cursors[i] < cursors[j])
    && (forall i :: 0 <= i < |cursors| ==> cursors[i] <= bound)
  }

  /** While a refresh is current the cursor has not moved past what it will cover. */
  ghost predicate RefreshOk(rows: set<nat>, top: nat, client: Client, refresh: Refresh) {
    && refresh.generation <= client.generation
    && match refresh.stage {
         case Started => true
         case Counted(m) =>
           m <= top
           && (refresh.generation == client.generation ==> forall c :: c in rows && c <= client.cursor ==> c <= m)
         case Fetched(page, m) =>
           m <= top && (forall c :: c in rows && c <= m ==> OnPage(page, c))
           && (refresh.generation == client.generation ==> forall c :: c in rows && c <= client.cursor ==> c <= m)
       }
  }

  ghost predicate RefreshesOk(w: World) {
    var refreshes := w.client.refreshes;
    && (forall i :: 0 <= i < |refreshes| ==> RefreshOk(w.rows, w.top, w.client, refreshes[i]))
    && (forall i, j :: 0 <= i < j < |refreshes| ==> refreshes[i].generation != refreshes[j].generation)
  }

  ghost predicate WorldOk(w: World) {
    && TableOk(w) && SocketOk(w) && Complete(w) && Increasing(w.client.accepted, w.client.cursor) && RefreshesOk(w)
  }

  // ---------------------------------------------------------------- reading a page

  lemma NewerGrows(rows: set<nat>, c: nat, x: nat)
    requires c in rows && x < c
    ensures |Newer(rows, c)| < |Newer(rows, x)|
  {
    assert c in Newer(rows, x) && c !in Newer(rows, c) && Newer(rows, c) <= Newer(rows, x) - {c};
    Smaller(Newer(rows, c), Newer(rows, x) - {c});
  }

  lemma RowsAreOnPage(rows: set<nat>, c: nat)
    requires c in rows
    ensures OnPage(Page(rows), c)
  {
    var top := Maximum(rows);
    assert Newer(rows, top) == {};
    assert top in Page(rows) by {
      if top == 0 { assert c == 0; }
    }
    if c !in Page(rows) {
      forall x | x in Page(rows) ensures c < x {
        if x < c { NewerGrows(rows, c, x); }
      }
    }
  }

  /** The watermark of a refresh that counts the table `counted` and then reads its page of the table `rows`. */
  function Watermark(counted: set<nat>, rows: set<nat>): nat {
    Max(Maximum(counted), Maximum(Page(rows)))
  }

  /** Whatever comes before, between and after the two reads, each row up to the watermark is on the page or behind it. */
  lemma PageHasNoHole(counted: set<nat>, rows: set<nat>, later: set<nat>, c: nat)
    requires forall r :: r in rows && r !in counted ==> r > Maximum(counted)
    requires forall r :: r in later && r !in rows ==> r > Maximum(counted) && r > Maximum(rows)
    requires c in later && c <= Watermark(counted, rows)
    ensures OnPage(Page(rows), c)
  {
    PageMaximum(rows);
    assert c in rows;
    RowsAreOnPage(rows, c);
  }

  /**
   The first read notes the newest row, and zero for an empty table; the second takes the page, and as
   watermark the newest of what was noted and what the page shows, so that no row of the table is above it.
   */
  lemma WatermarkIsTheNewest(w: World, i: nat)
    ensures Enabled(w, ReadMaximum(i)) ==>
              var stage := Next(w, ReadMaximum(i)).client.refreshes[i].stage;
              && stage.Counted? && (forall c :: c in w.rows ==> c <= stage.maximum)
              && (stage.maximum in w.rows || (stage.maximum == 0 && w.rows == {}))
    ensures Enabled(w, ReadPage(i)) ==>
              var noted, stage := w.client.refreshes[i].stage.maximum, Next(w, ReadPage(i)).client.refreshes[i].stage;
              && stage.Fetched? && stage.page == Page(w.rows)
              && noted <= stage.watermark && (forall c :: c in w.rows ==> c <= stage.watermark)
              && (stage.watermark == noted || stage.watermark in stage.page)
  {
    PageMaximum(w.rows);
    hide Page;
    if w.rows != {} { var c :| c in w.rows; assert c <= Maximum(w.rows); }
  }

  /** Read the other way round, the watermark would promise every row that is committed between the reads. */
  lemma ReversedReadsLeaveAHole(rows: set<nat>, later: set<nat>, c: nat)
    requires c in later && forall r :: r in rows ==> r < c
    ensures c <= Max(Maximum(Page(rows)), Maximum(later)) && !OnPage(Page(rows), c)
  {
    assert Page(rows) <= rows;
    hide Page, Maximum;
    if Page(rows) != {} {
      var x :| x in Page(rows);
    }
  }

  /** A page is the newest rows: all of them up to forty, and forty of more. */
  lemma PageHoldsTheNewest(rows: set<nat>)
    ensures |rows| <= 40 ==> Page(rows) == rows
    ensures |rows| >= 40 ==> |Page(rows)| == 40
    ensures forall c, x :: c in rows && c !in Page(rows) && x in Page(rows) ==> c < x
  {
    var all := Ascend(rows);
    AscendsCompletely(rows);
    OrderedIsComplete(rows, map c | c in rows :: 0);
    forall k | 0 <= k < |all| ensures |Newer(rows, all[k])| == |all| - 1 - k { NewerCount(rows, k); }
    forall c | c in rows ensures c in Page(rows) <==> exists k: nat :: k < |all| && all[k] == c && |all| - 1 - k < 40 {
      var k: nat :| k < |all| && all[k] == c;
    }
    forall c, x | c in rows && c !in Page(rows) && x in Page(rows) ensures c < x {
      RowsAreOnPage(rows, c);
    }
    PageIsTail(rows, all);
  }

  lemma PageIsTail(rows: set<nat>, all: seq<nat>)
    requires |all| == |rows| && (forall c :: c in rows <==> c in all)
    requires forall i, j :: 0 <= i < j < |all| ==> all[i] < all[j]
    requires forall c :: c in rows ==> (c in Page(rows) <==> exists k: nat :: k < |all| && all[k] == c && |all| - 1 - k < 40)
    ensures |rows| <= 40 ==> Page(rows) == rows
    ensures |rows| >= 40 ==> |Page(rows)| == 40
  {
    assert Page(rows) <= rows;
    hide Page, Newer;
    if |rows| >= 40 {
      var tail := all[|all| - 40..];
      assert NoRepeats(tail);
      ElementsCount(tail);
      hide Elements, NoRepeats;
      forall c: nat ensures c in Page(rows) <==> c in Elements(tail) {
        SuffixMembers(all, |all| - 40, c);
        if k: nat :| |all| - 40 <= k < |all| && all[k] == c { assert all[k] in all; }
      }
      assert Page(rows) == Elements(tail);
    }
  }

  lemma NewerCount(rows: set<nat>, k: nat)
    requires k < |Ascend(rows)|
    ensures |Newer(rows, Ascend(rows)[k])| == |Ascend(rows)| - 1 - k
  {
    var all := Ascend(rows);
    AscendsCompletely(rows);
    hide Ascend;
    var later := all[k + 1..];
    assert NoRepeats(later);
    ElementsCount(later);
    hide Elements, NoRepeats;
    forall c: nat ensures c in Newer(rows, all[k]) <==> c in Elements(later) {
      SuffixMembers(all, k + 1, c);
      if c in rows {
        var i: nat :| i < |all| && all[i] == c;
      }
      if i: nat :| k + 1 <= i < |all| && all[i] == c { assert all[i] in all; }
    }
    assert Newer(rows, all[k]) == Elements(later);
  }

  /** A client with a cursor past the whole table is told to refresh, and gets no replay; any other gets one. */
  lemma CursorsPastTheTableAreTold(w: World)
    requires Enabled(w, CheckCursor)
    ensures var s, t := w.socket.value, Next(w, CheckCursor).socket.value;
      if s.last > 0 && (forall c :: c in w.rows ==> c < s.last)
      then t == s.(phase := Streaming, wire := s.wire + [Gap]) else t == s.(phase := Checked)
  {
  }

  /** A connection starts at the client's cursor; its replay is each row past that, once and upwards. */
  lemma ReplaysStartAtTheCursor(w: World)
    ensures w.socket.None? ==> Next(w, Connect).socket == Some(Socket(w.client.cursor, Opening, [], []))
    ensures Enabled(w, Replay) ==>
              var s, t := w.socket.value, Next(w, Replay).socket.value;
              && s.wire <= t.wire && t.queue == s.queue && t.phase.Streaming?
              && Upwards(t.wire[|s.wire|..]) && (forall c: nat :: Item(c) in t.wire[|s.wire|..] <==> c in w.rows && c > s.last)
  {
    if Enabled(w, Replay) {
      var s := w.socket.value;
      var rows := Newer(w.rows, s.last);
      AscendsCompletely(rows);
      assert Next(w, Replay).socket.value.wire[|s.wire|..] == Items(Ascend(rows));
      forall c: nat ensures Item(c) in Items(Ascend(rows)) <==> c in rows {
        if c in rows {
          var k :| 0 <= k < |Ascend(rows)| && Ascend(rows)[k] == c;
          assert Items(Ascend(rows))[k] == Item(c);
        }
      }
    }
  }

  predicate Upwards(messages: seq<Message>) {
    && (forall i :: 0 <= i < |messages| ==> messages[i].Item?)
    && (forall i, j :: 0 <= i < j < |messages| ==> messages[i].number < messages[j].number)
  }

  lemma PageMaximum(rows: set<nat>)
    ensures Maximum(Page(rows)) == Maximum(rows)
  {
    var top := Maximum(rows);
    if rows != {} {
      var c :| c in rows;
      assert Newer(rows, top) == {};
      if top == 0 { assert c == 0; }
      assert top in Page(rows);
    }
    assert Page(rows) <= rows;
  }

  // ---------------------------------------------------------------- steps keep each part

  lemma TableStaysOk(w: World, action: Action)
    requires WorldOk(w) && Enabled(w, action)
    ensures TableOk(Next(w, action))
  {
    hide Complete, Increasing, Delivers, Newer, Ascend, Page, Overflowed, OnPage;
    if action.Receive? {
      assert w.socket.value.wire[0] in Stream(w);
    }
  }

  lemma AcceptedStaysIncreasing(w: World, action: Action)
    requires WorldOk(w) && Enabled(w, action)
    ensures Increasing(Next(w, action).client.accepted, Next(w, action).client.cursor)
  {
    hide Complete, SocketOk, RefreshesOk, Maximum, Newer, Ascend, Page, Overflowed;
  }

  lemma CoveredStays(client: Client, later: Client, c: nat)
    requires client.accepted <= later.accepted && client.applied <= later.applied && Covered(client, c)
    ensures Covered(later, c)
  {
    hide OnPage;
    if c !in client.accepted {
      var k :| 0 <= k < |client.applied| && c <= client.applied[k].watermark && OnPage(client.applied[k].page, c);
      assert later.applied[k] == client.applied[k];
    }
  }

  lemma PastCursorIsUncovered(client: Client, c: nat)
    requires Increasing(client.accepted, client.cursor) && c > client.cursor
    requires forall k :: 0 <= k < |client.applied| ==> client.applied[k].watermark <= client.cursor
    ensures !Covered(client, c)
  {
    hide OnPage;
  }

  lemma ReceiveStaysComplete(w: World)
    requires WorldOk(w) && Enabled(w, Receive)
    ensures Complete(Next(w, Receive))
  {
    hide RefreshesOk, OnPage, TableOk;
    var t := Next(w, Receive);
    var message := w.socket.value.wire[0];
    assert message == Stream(w)[0];
    DeliversHead(w.rows, w.client.cursor, w.dropped, Stream(w));
    hide Delivers, Stream, Covered, SocketOk;
    forall c | c in t.rows && c <= t.client.cursor ensures Covered(t.client, c) || c in t.dropped {
      if c <= w.client.cursor {
        if Covered(w.client, c) { CoveredStays(w.client, t.client, c); }
      } else if c == message.number {
        AcceptedIsCovered(t.client, c);
      }
    }
    forall c | c in t.rows && c in t.dropped ensures !Covered(t.client, c) {
      OnlyTheAcceptedIsCovered(w.client, message, c);
    }
  }

  lemma OnlyTheAcceptedIsCovered(client: Client, message: Message, c: nat)
    requires !Covered(client, c) && (message.Item? && message.number > client.cursor ==> c != message.number)
    ensures !Covered(Received(client, message), c)
  {
    hide OnPage;
  }

  lemma AcceptedIsCovered(client: Client, c: nat)
    requires c in client.accepted
    ensures Covered(client, c)
  {
  }

  lemma FinishStaysComplete(w: World, index: nat)
    requires WorldOk(w) && Enabled(w, FinishRefresh(index))
    ensures Complete(Next(w, FinishRefresh(index)))
  {
    hide SocketOk, OnPage, Covered;
    var t := Next(w, FinishRefresh(index));
    var refresh := w.client.refreshes[index];
    assert RefreshOk(w.rows, w.top, w.client, refresh);
    hide RefreshesOk;
    if refresh.generation != w.client.generation {
      forall c ensures Covered(t.client, c) == Covered(w.client, c) { SameCover(w.client, t.client, c); }
    } else {
      AppliedStaysComplete(w, index);
    }
  }

  lemma SameCover(client: Client, later: Client, c: nat)
    requires client.accepted == later.accepted && client.applied == later.applied
    ensures Covered(client, c) == Covered(later, c)
  {
  }

  lemma AppliedStaysComplete(w: World, index: nat)
    requires WorldOk(w) && Enabled(w, FinishRefresh(index))
    requires w.client.refreshes[index].generation == w.client.generation
    ensures Complete(Next(w, FinishRefresh(index)))
  {
    hide SocketOk, OnPage, Covered;
    var t := Next(w, FinishRefresh(index));
    assert RefreshOk(w.rows, w.top, w.client, w.client.refreshes[index]);
    hide RefreshesOk;
    forall c | c in t.rows && c <= t.client.cursor ensures Covered(t.client, c) {
      AppliedIsCovered(t.client, c);
    }
    forall c | c in t.rows && c in t.dropped ensures !Covered(t.client, c) {
      PastCursorIsUncovered(t.client, c);
    }
  }

  lemma AppliedIsCovered(client: Client, c: nat)
    requires client.applied != []
    requires var s := client.applied[|client.applied| - 1]; c <= s.watermark && OnPage(s.page, c)
    ensures Covered(client, c)
  {
    hide OnPage;
    assert client.applied[|client.applied| - 1] in client.applied;
  }

  lemma StaysComplete(w: World, action: Action)
    requires WorldOk(w) && Enabled(w, action)
    ensures Complete(Next(w, action))
  {
    match action
    case Receive => ReceiveStaysComplete(w);
    case FinishRefresh(i) => FinishStaysComplete(w, i);
    case PublishRow => PublishStaysComplete(w);
    case LosePublication => LossStaysComplete(w);
    case CommitRow(c) => CommitStaysComplete(w, c);
    case _ =>
      hide SocketOk, RefreshesOk, Covered, Maximum, Newer, Ascend, Page, Overflowed;
      var t := Next(w, action);
      forall c ensures Covered(t.client, c) == Covered(w.client, c) { SameCover(w.client, t.client, c); }
  }

  lemma PublishStaysComplete(w: World)
    requires WorldOk(w) && Enabled(w, PublishRow)
    ensures Complete(Next(w, PublishRow))
  {
    hide SocketOk, RefreshesOk, Covered, TableOk;
    var t := Next(w, PublishRow);
    forall c | c in t.rows && c in t.dropped && c !in w.dropped ensures !Covered(t.client, c) {
      PastCursorIsUncovered(w.client, c);
    }
  }

  lemma LossStaysComplete(w: World)
    requires WorldOk(w) && Enabled(w, LosePublication)
    ensures Complete(Next(w, LosePublication))
  {
    hide SocketOk, RefreshesOk, Covered, TableOk;
    var t := Next(w, LosePublication);
    forall c | c in t.rows && c in t.dropped && c !in w.dropped ensures !Covered(t.client, c) {
      PastCursorIsUncovered(w.client, c);
    }
  }

  lemma CommitStaysComplete(w: World, c: nat)
    requires WorldOk(w) && Enabled(w, CommitRow(c))
    ensures Complete(Next(w, CommitRow(c)))
  {
    hide SocketOk, RefreshesOk, Covered;
    PastCursorIsUncovered(w.client, c);
  }

  lemma PageReadStaysOk(w: World, i: nat)
    requires TableOk(w) && RefreshesOk(w) && Enabled(w, ReadPage(i))
    ensures RefreshesOk(Next(w, ReadPage(i)))
  {
    PageMaximum(w.rows);
    forall c | c in w.rows ensures OnPage(Page(w.rows), c) { RowsAreOnPage(w.rows, c); }
    assert RefreshOk(w.rows, w.top, w.client, w.client.refreshes[i]);
    hide OnPage, Page, Maximum, RefreshesOk;
    StagedStaysOk(w, i, Next(w, ReadPage(i)).client.refreshes[i].stage);
  }

  lemma StagedStaysOk(w: World, i: nat, stage: Stage)
    requires RefreshesOk(w) && i < |w.client.refreshes|
    requires RefreshOk(w.rows, w.top, w.client, w.client.refreshes[i].(stage := stage))
    ensures RefreshesOk(w.(client := Staged(w.client, i, stage)))
  {
    var t := w.(client := Staged(w.client, i, stage));
    var all, next := w.client.refreshes, t.client.refreshes;
    forall k | 0 <= k < |next| ensures RefreshOk(t.rows, t.top, t.client, next[k]) {
      assert RefreshOk(w.rows, w.top, w.client, all[k]);
    }
    hide RefreshOk;
  }

  lemma RemovalStaysOk(w: World, t: World, i: nat)
    requires RefreshesOk(w) && i < |w.client.refreshes| && t.rows == w.rows && t.top == w.top
    requires t.client.refreshes == Without(w.client.refreshes, i) && t.client.generation == w.client.generation
    requires t.client.cursor == w.client.cursor
             || (w.client.refreshes[i].generation == w.client.generation && w.client.cursor <= t.client.cursor)
    ensures RefreshesOk(t)
  {
    var all, rest := w.client.refreshes, t.client.refreshes;
    forall k | 0 <= k < |rest| ensures RefreshOk(t.rows, t.top, t.client, rest[k]) {
      var j := if k < i then k else k + 1;
      assert rest[k] == all[j] && RefreshOk(w.rows, w.top, w.client, all[j]);
    }
  }

  lemma OutdatedStaysOk(w: World, t: World)
    requires TableOk(w) && RefreshesOk(w) && t.rows == w.rows && t.top == w.top
    requires t.client.generation > w.client.generation
    requires t.client.refreshes == w.client.refreshes
             || t.client.refreshes == w.client.refreshes + [Refresh(t.client.generation, Started)]
    ensures RefreshesOk(t)
  {
    var all, more := w.client.refreshes, t.client.refreshes;
    forall k | 0 <= k < |all| ensures RefreshOk(t.rows, t.top, t.client, all[k]) && all[k].generation < t.client.generation {
      assert RefreshOk(w.rows, w.top, w.client, all[k]);
    }
  }

  lemma RefreshesStayOk(w: World, action: Action)
    requires WorldOk(w) && Enabled(w, action)
    ensures RefreshesOk(Next(w, action))
  {
    hide SocketOk, Complete, Increasing, OnPage, Page, Newer, Ascend, Overflowed;
    match action
    case ReadPage(i) => PageReadStaysOk(w, i);
    case FinishRefresh(i) =>
      hide RefreshesOk, RefreshOk;
      RemovalStaysOk(w, Next(w, action), i);
    case FailRefresh(i) =>
      hide RefreshesOk, RefreshOk;
      RemovalStaysOk(w, Next(w, action), i);
    case Receive =>
      hide RefreshesOk, RefreshOk;
      ReceiveKeepsRefreshes(w);
    case BeginRefresh =>
      hide RefreshesOk, RefreshOk;
      OutdatedStaysOk(w, Next(w, action));
    case BeginStateRefresh =>
      hide RefreshesOk, RefreshOk;
      OutdatedStaysOk(w, Next(w, action));
    case _ =>
  }

  lemma ReceiveKeepsRefreshes(w: World)
    requires TableOk(w) && RefreshesOk(w) && Enabled(w, Receive)
    ensures RefreshesOk(Next(w, Receive))
  {
    hide TableOk, RefreshOk;
    var t := Next(w, Receive);
    if t.client != w.client {
      hide RefreshesOk;
      OutdatedStaysOk(w, t);
    }
  }

  // ---------------------------------------------------------------- steps keep the stream

  lemma CommitStaysDelivered(w: World, c: nat)
    requires TableOk(w) && SocketOk(w) && Enabled(w, CommitRow(c))
    ensures SocketOk(Next(w, CommitRow(c)))
  {
    if w.socket.Some? {
      var t := Next(w, CommitRow(c));
      assert Stream(t) == Stream(w) + [Item(c)];
      if w.socket.value.phase.Streaming? {
        DeliversCommitted(w.rows, w.client.cursor, w.dropped, Stream(w), c);
      }
      hide Delivers, Stream;
    }
  }

  lemma OfferedItems(queue: seq<Message>, c: nat)
    ensures forall m :: m in Offer(queue, Item(c)) ==> m in queue || m == Item(c) || m == Gap
  {
  }

  lemma PublishStaysDelivered(w: World)
    requires TableOk(w) && SocketOk(w) && Enabled(w, PublishRow)
    ensures SocketOk(Next(w, PublishRow))
  {
    var t, c := Next(w, PublishRow), w.unpublished.value;
    if Listening(w.socket) {
      var s := w.socket.value;
      OfferedItems(s.queue, c);
      assert Stream(t) == s.wire + Offer(s.queue, Item(c));
      hide Delivers, Overflowed;
      if s.phase.Streaming? {
        if |s.queue| >= CAPACITY {
          DeliversOverflowed(w.rows, w.client.cursor, w.dropped, s.wire, s.queue, c);
        } else {
          assert Stream(t) == Stream(w);
          NothingOverflowed(w.dropped, s.queue, c, w.client.cursor);
        }
      }
    } else if w.socket.Some? {
      assert forall m :: m in Stream(t) ==> m in Stream(w);
    }
  }

  lemma LossStaysDelivered(w: World)
    requires SocketOk(w) && Enabled(w, LosePublication)
    ensures SocketOk(Next(w, LosePublication))
  {
    var t := Next(w, LosePublication);
    if w.socket.Some? {
      var n := |Stream(w)| - 1;
      assert Stream(t) == Stream(w)[..n] + Stream(w)[n + 1..] && Stream(w)[n] == Item(w.unpublished.value);
      assert forall m :: m in Stream(t) ==> m in Stream(w);
      hide Delivers, Stream;
      if w.socket.value.phase.Streaming? {
        DeliversWithout(w.rows, w.client.cursor, w.dropped, Stream(w), n, t.dropped);
      }
    }
  }

  lemma NothingOverflowed(dropped: set<nat>, queue: seq<Message>, c: nat, cursor: nat)
    requires |queue| < CAPACITY
    ensures dropped + Overflowed(queue, c, cursor) == dropped
  {
  }

  lemma ReplayStaysDelivered(w: World)
    requires TableOk(w) && SocketOk(w) && Enabled(w, Replay)
    ensures SocketOk(Next(w, Replay))
  {
    var t, s := Next(w, Replay), w.socket.value;
    var cursors := Ascend(Newer(w.rows, s.last));
    AscendsCompletely(Newer(w.rows, s.last));
    DeliversReplay(w.rows, w.client.cursor, w.dropped, s.last, Stream(w));
    hide Ascend, Delivers;
    assert Stream(t) == Items(cursors) + Stream(w);
    forall m | m in Items(cursors) ensures m.Item? && m.number <= w.top {
      var i :| 0 <= i < |cursors| && Items(cursors)[i] == m;
      assert cursors[i] in cursors;
    }
  }

  lemma CheckStaysDelivered(w: World)
    requires TableOk(w) && SocketOk(w) && Enabled(w, CheckCursor)
    ensures SocketOk(Next(w, CheckCursor))
  {
    var t := Next(w, CheckCursor);
    forall m | m in Stream(t) ensures m in Stream(w) || m == Gap {}
  }

  lemma ReceiveStaysDelivered(w: World)
    requires TableOk(w) && SocketOk(w) && Enabled(w, Receive)
    ensures SocketOk(Next(w, Receive))
  {
    var t := Next(w, Receive);
    assert Stream(t) == Stream(w)[1..] && Stream(w)[0] == w.socket.value.wire[0];
    DeliversHead(w.rows, w.client.cursor, w.dropped, Stream(w));
    if t.dropped != w.dropped {
      DeliversLess(w.rows, t.client.cursor, w.dropped, Stream(t), w.rows, t.client.cursor, t.dropped);
    }
    hide Delivers, Stream;
  }

  /** Steps that leave the stream as it is, with fewer rows, a later cursor or more dropped rows that count. */
  lemma CalmStepsStayDelivered(w: World, t: World)
    requires SocketOk(w) && t.socket.Some? && w.socket.Some? && Stream(t) == Stream(w) && t.top == w.top
    requires t.socket.value.last == w.socket.value.last
    requires t.socket.value.phase == w.socket.value.phase || (w.socket.value.phase.Opening? && t.socket.value.phase.Subscribed?)
    requires w.socket.value.wire == [] ==> t.socket.value.wire == [] || t.socket.value.phase.Streaming?
    requires t.rows <= w.rows && t.client.cursor >= w.client.cursor
    requires forall c :: c in w.dropped && c > t.client.cursor ==> c in t.dropped
    ensures SocketOk(t)
  {
    if w.socket.value.phase.Streaming? {
      DeliversLess(w.rows, w.client.cursor, w.dropped, Stream(w), t.rows, t.client.cursor, t.dropped);
    }
    hide Delivers, Stream;
  }

  lemma SocketStaysOk(w: World, action: Action)
    requires WorldOk(w) && Enabled(w, action)
    ensures SocketOk(Next(w, action))
  {
    hide Complete, Increasing, RefreshesOk, Delivers, Page, Newer, Ascend, Overflowed, Maximum;
    match action
    case CommitRow(c) => CommitStaysDelivered(w, c);
    case PublishRow => PublishStaysDelivered(w);
    case LosePublication => LossStaysDelivered(w);
    case Replay => ReplayStaysDelivered(w);
    case CheckCursor => CheckStaysDelivered(w);
    case Receive => ReceiveStaysDelivered(w);
    case DrainQueue =>
      assert Stream(Next(w, action)) == Stream(w);
      CalmStepsStayDelivered(w, Next(w, action));
    case ServerRestart =>
    case Disconnect =>
    case Connect =>
    case _ =>
      hide SocketOk;
      if w.socket.Some? { CalmStepsStayDelivered(w, Next(w, action)); }
      NoSocketIsFine(Next(w, action));
  }

  lemma NoSocketIsFine(w: World)
    ensures w.socket.None? ==> SocketOk(w)
  {
  }

  lemma StepsKeepWorld(w: World, action: Action)
    requires WorldOk(w) && Enabled(w, action)
    ensures WorldOk(Next(w, action))
  {
    TableStaysOk(w, action);
    SocketStaysOk(w, action);
    StaysComplete(w, action);
    AcceptedStaysIncreasing(w, action);
    RefreshesStayOk(w, action);
    hide TableOk, SocketOk, Complete, Increasing, RefreshesOk, Next;
  }

  // ---------------------------------------------------------------- runs

  const Fresh := World({}, 0, None, None, Client(0, 0, [], [], []), {})

  ghost predicate IsRun(states: seq<World>, actions: seq<Action>) {
    && |states| == |actions| + 1 && states[0] == Fresh
    && forall i :: 0 <= i < |actions| ==> Enabled(states[i], actions[i]) && states[i + 1] == Next(states[i], actions[i])
  }

  lemma {:induction false} ReachableIsOk(states: seq<World>, actions: seq<Action>, i: nat)
    requires IsRun(states, actions) && i < |states|
    ensures WorldOk(states[i])
  {
    if i > 0 {
      ReachableIsOk(states, actions, i - 1);
      StepsKeepWorld(states[i - 1], actions[i - 1]);
      hide WorldOk, Next;
    }
  }

  /** The publication overflows, or fails, and takes row `c` from a client that has not come as far. */
  predicate Takes(w: World, action: Action, c: nat) {
    && w.unpublished.Some? && Listening(w.socket)
    && match action
       case PublishRow => c in Overflowed(w.socket.value.queue, w.unpublished.value, w.client.cursor)
       case LosePublication => c in Past(w.unpublished.value, w.client.cursor)
       case _ => false
  }

  lemma {:induction false} DroppedWasTaken(states: seq<World>, actions: seq<Action>, i: nat, c: nat)
    requires IsRun(states, actions) && i < |states| && c in states[i].dropped
    ensures exists k :: 0 <= k < i && Takes(states[k], actions[k], c)
  {
    if i > 0 {
      hide Maximum, Newer, Ascend, Page;
      if c in states[i - 1].dropped {
        DroppedWasTaken(states, actions, i - 1, c);
      } else {
        assert Takes(states[i - 1], actions[i - 1], c);
      }
    }
  }

  /**
   Over any run, of the rows of the table up to the client's cursor exactly the dropped ones were neither
   accepted from a socket nor lie under the watermark of an applied refresh, on its page or behind it.
   Each of those was taken by an overflow or a failed publication before the client had come as far.
   */
  lemma NoRowIsMissed(states: seq<World>, actions: seq<Action>, i: nat, c: nat)
    requires IsRun(states, actions) && i < |states| && c in states[i].rows && c <= states[i].client.cursor
    ensures Covered(states[i].client, c) <==> c !in states[i].dropped
    ensures !Covered(states[i].client, c) ==> exists k :: 0 <= k < i && Takes(states[k], actions[k], c)
  {
    ReachableIsOk(states, actions, i);
    hide IsRun, Covered, SocketOk, RefreshesOk, Takes;
    if c in states[i].dropped {
      DroppedWasTaken(states, actions, i, c);
    }
  }

  /** What the client accepts only ever grows upwards, so no row is accepted twice. */
  lemma AcceptedOnce(states: seq<World>, actions: seq<Action>, i: nat)
    requires IsRun(states, actions) && i < |states|
    ensures Increasing(states[i].client.accepted, states[i].client.cursor)
  {
    ReachableIsOk(states, actions, i);
    hide IsRun, Increasing;
  }

  /** An applied refresh covers every row at or below the cursor, whatever was dropped before. */
  lemma AppliedRefreshHeals(states: seq<World>, actions: seq<Action>, i: nat, c: nat)
    requires IsRun(states, actions) && i < |actions| && actions[i].FinishRefresh?
    requires states[i].client.refreshes[actions[i].index].generation == states[i].client.generation
    requires c in states[i + 1].rows && c <= states[i + 1].client.cursor
    ensures Covered(states[i + 1].client, c)
  {
    ReachableIsOk(states, actions, i);
    var w, t := states[i], states[i + 1];
    var refresh := w.client.refreshes[actions[i].index];
    assert RefreshOk(w.rows, w.top, w.client, refresh);
    hide SocketOk, Complete, OnPage;
    AppliedIsCovered(t.client, c);
  }

  /** With all messages received, a row of the table is covered, and not past the cursor, exactly when it is not dropped. */
  lemma CaughtUp(states: seq<World>, actions: seq<Action>, i: nat, c: nat)
    requires IsRun(states, actions) && i < |states| && c in states[i].rows
    requires var w := states[i]; w.socket.Some? && w.socket.value.phase.Streaming? && Stream(w) == []
    ensures Covered(states[i].client, c) <==> c !in states[i].dropped
    ensures c !in states[i].dropped ==> c <= states[i].client.cursor
  {
    ReachableIsOk(states, actions, i);
    hide IsRun, Covered, RefreshesOk;
  }

  /**
   After an overflow the marker starts a refresh, but an item that arrives first outdates it, and
   nothing starts another: the dropped row stays below the cursor and uncovered.
   */
  lemma ADiscardedRefreshLeavesAHole(w: World, x: nat, c: nat)
    requires WorldOk(w) && w.socket.Some? && w.socket.value.wire == [Gap, Item(x)]
    requires c in w.rows && w.client.cursor < c < x && c in w.dropped && !Covered(w.client, c)
    requires w.client.refreshes == []
    ensures
      var w1 := Next(w, Receive);
      && Enabled(w1, Receive) && var w2 := Next(w1, Receive);
      && Enabled(w2, ReadMaximum(0)) && var w3 := Next(w2, ReadMaximum(0));
      && Enabled(w3, ReadPage(0)) && var w4 := Next(w3, ReadPage(0));
      && Enabled(w4, FinishRefresh(0)) && var w5 := Next(w4, FinishRefresh(0));
      && c in w5.rows && c < w5.client.cursor == x && !Covered(w5.client, c) && w5.client.refreshes == []
      && w5.socket.Some? && w5.socket.value.wire == [] && w5.socket.value.queue == w.socket.value.queue
  {
    hide SocketOk, Complete, RefreshesOk, TableOk, Maximum, Page, OnPage;
  }
}
