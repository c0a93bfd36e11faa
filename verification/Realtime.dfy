/** The in-process fan-out: one bounded queue per websocket client, with gap markers on overflow. */
module Realtime {

  const CAPACITY := 100

  // `Gap` is the `resync_required` message, which carries no cursor.
  datatype Message = Item(number: nat) | Gap

  /** What a publication leaves in a client's queue: when full, the head and the new message are lost. */
  function Offer(queue: seq<Message>, message: Message): seq<Message> {
    if |queue| >= CAPACITY then queue[1..] + [Gap] else queue + [message]
  }

  // ---------------------------------------------------------------- one client, any mix of steps

  datatype Step = Publish | Drain

  /** What one client has read, what waits for it, and how many messages were published since it subscribed. */
  datatype Feed = Feed(read: seq<Message>, queue: seq<Message>, published: nat, overflows: nat)

  function Taken(feed: Feed, step: Step): Feed {
    match step
    case Publish =>
      feed.(queue := Offer(feed.queue, Item(feed.published)), published := feed.published + 1,
            overflows := feed.overflows + if |feed.queue| >= CAPACITY then 1 else 0)
    case Drain =>
      if feed.queue == [] then feed
      else feed.(read := feed.read + [feed.queue[0]], queue := feed.queue[1..])
  }

  function After(steps: seq<Step>): Feed {
    if |steps| == 0 then Feed([], [], 0, 0)
    else Taken(After(steps[..|steps| - 1]), steps[|steps| - 1])
  }

  /** Everything that was read or still waits, in order. */
  function Kept(feed: Feed): seq<Message> {
    feed.read + feed.queue
  }

  predicate Lost(feed: Feed, n: nat) {
    n < feed.published && Item(n) !in Kept(feed)
  }

  /** The messages stand in the order of publication. */
  ghost predicate InOrder(s: seq<Message>, bound: nat) {
    && (forall i, j :: 0 <= i < j < |s| && s[i].Item? && s[j].Item? ==> s[i].number < s[j].number)
    && (forall i :: 0 <= i < |s| && s[i].Item? ==> s[i].number < bound)
  }

  /** From position `i` on the sequence holds the latest publications without a hole. */
  ghost predicate Unbroken(s: seq<Message>, i: nat, published: nat) {
    forall j :: i <= j < |s| ==> s[j].Item? && s[j].number == published - |s| + j
  }

  /** The last marker was placed after every loss. */
  ghost predicate Marked(s: seq<Message>, published: nat) {
    exists i :: 0 <= i < |s| && s[i] == Gap && Unbroken(s, i + 1, published)
  }

  ghost predicate FeedOk(feed: Feed) {
    && |feed.queue| <= CAPACITY
    && feed.published == |Kept(feed)| + feed.overflows
    && InOrder(Kept(feed), feed.published)
    && (feed.overflows == 0 ==> Unbroken(Kept(feed), 0, feed.published))
    && (feed.overflows > 0 ==> Marked(Kept(feed), feed.published))
  }

  lemma OverflowMarks(s: seq<Message>, r: nat, published: nat)
    requires InOrder(s, published) && r < |s|
    ensures var t := s[..r] + s[r + 1..] + [Gap]; InOrder(t, published + 1) && Marked(t, published + 1)
  {
    var t := s[..r] + s[r + 1..] + [Gap];
    assert t[|t| - 1] == Gap && Unbroken(t, |t|, published + 1);
  }

  lemma AppendExtends(s: seq<Message>, published: nat)
    requires InOrder(s, published)
    ensures var t := s + [Item(published)];
      && InOrder(t, published + 1)
      && (Unbroken(s, 0, published) ==> Unbroken(t, 0, published + 1))
      && (Marked(s, published) ==> Marked(t, published + 1))
  {
    var t := s + [Item(published)];
    if Marked(s, published) {
      var i :| 0 <= i < |s| && s[i] == Gap && Unbroken(s, i + 1, published);
      assert t[i] == Gap && Unbroken(t, i + 1, published + 1);
    }
  }

  lemma KeptAfterPublish(feed: Feed)
    requires |feed.queue| <= CAPACITY
    ensures Kept(Taken(feed, Publish))
            == if |feed.queue| >= CAPACITY then Kept(feed)[..|feed.read|] + Kept(feed)[|feed.read| + 1..] + [Gap]
               else Kept(feed) + [Item(feed.published)]
  {
  }

  lemma PublishKeepsFeed(feed: Feed)
    requires FeedOk(feed)
    ensures FeedOk(Taken(feed, Publish))
  {
    hide InOrder, Unbroken, Marked;
    KeptAfterPublish(feed);
    if |feed.queue| >= CAPACITY {
      OverflowMarks(Kept(feed), |feed.read|, feed.published);
    } else {
      AppendExtends(Kept(feed), feed.published);
    }
    hide Kept;
  }

  lemma DrainKeepsFeed(feed: Feed)
    requires FeedOk(feed)
    ensures FeedOk(Taken(feed, Drain)) && Kept(Taken(feed, Drain)) == Kept(feed)
  {
    assert Kept(Taken(feed, Drain)) == Kept(feed);
    hide InOrder, Unbroken, Marked;
  }

  lemma {:induction false} FeedsAreOk(steps: seq<Step>)
    ensures FeedOk(After(steps))
  {
    if |steps| > 0 {
      var n := |steps| - 1;
      FeedsAreOk(steps[..n]);
      if steps[n].Publish? { PublishKeepsFeed(After(steps[..n])); } else { DrainKeepsFeed(After(steps[..n])); }
      hide FeedOk;
    }
  }

  /**
   Under any mix of publications and reads the queue holds at most 100 messages, what is read and
   queued stands in publication order, and each publication either is kept or is counted as an overflow.
   */
  lemma QueueIsBoundedAndOrdered(steps: seq<Step>)
    ensures var feed := After(steps);
      && |feed.queue| <= 100 && InOrder(Kept(feed), feed.published)
      && feed.published == |Kept(feed)| + feed.overflows
      && feed.overflows <= feed.published && (feed.published <= 100 ==> feed.overflows == 0)
  {
    FeedsAreOk(steps);
    FewNeverOverflow(steps);
  }

  lemma {:induction false} FewNeverOverflow(steps: seq<Step>)
    ensures |After(steps).queue| <= After(steps).published
    ensures After(steps).published <= 100 ==> After(steps).overflows == 0
  {
    if |steps| > 0 { FewNeverOverflow(steps[..|steps| - 1]); }
  }

  /** An overflow happens exactly when a hundred messages wait: the oldest and the new one give way to a marker. */
  lemma OverflowsAtAHundred(steps: seq<Step>)
    ensures var feed, next := After(steps), After(steps + [Publish]);
      && next.published == feed.published + 1 && next.read == feed.read
      && (|feed.queue| < 100 ==> next.queue == feed.queue + [Item(feed.published)] && next.overflows == feed.overflows)
      && (|feed.queue| == 100 ==> next.queue == feed.queue[1..] + [Gap] && next.overflows == feed.overflows + 1)
  {
    assert (steps + [Publish])[..|steps|] == steps;
  }

  /**
   A message that is lost is followed by a marker, still queued or already read, after which only
   later messages stand. Without an overflow there is no loss and no marker.
   */
  lemma NoSilentGap(steps: seq<Step>, n: nat)
    ensures var feed := After(steps); var s := Kept(feed);
      && (Lost(feed, n) ==> exists i :: 0 <= i < |s| && s[i] == Gap
                                        && forall j :: i < j < |s| ==> s[j].Item? && s[j].number > n)
      && (feed.overflows == 0 <==> Gap !in s)
      && (feed.overflows == 0 ==> !Lost(feed, n))
  {
    FeedsAreOk(steps);
    var feed := After(steps);
    var s := Kept(feed);
    hide After, Kept;
    if feed.overflows == 0 {
      if n < feed.published { assert s[n] == Item(n); }
    } else {
      var i :| 0 <= i < |s| && s[i] == Gap && Unbroken(s, i + 1, feed.published);
      assert s[i] in s;
      if n < feed.published && Item(n) !in s { AllAreLater(s, i + 1, feed.published, n); }
    }
  }

  lemma AllAreLater(s: seq<Message>, from: nat, published: nat, n: nat)
    requires Unbroken(s, from, published) && n < published && Item(n) !in s
    ensures forall j :: from <= j < |s| ==> s[j].Item? && s[j].number > n
  {
    forall j | from <= j < |s| && s[j].number <= n ensures false { StillThere(s, from, published, n, j); }
  }

  lemma StillThere(s: seq<Message>, from: nat, published: nat, n: nat, j: nat)
    requires Unbroken(s, from, published) && from <= j < |s| && s[j].number <= n < published
    ensures Item(n) in s
  {
    assert s[n - (published - |s|)] == Item(n);
  }

  // ---------------------------------------------------------------- the manager

  class ClientQueue {
    var items: seq<Message>

    constructor ()
      ensures items == []
    {
      items := [];
    }

    method Get() returns (message: Message)
      requires items != []
      modifies this
      ensures message == old(items[0]) && items == old(items[1..])
    {
      message := items[0];
      items := items[1..];
    }

    /** A full queue loses its oldest message and takes a marker in place of the new one. */
    method PutOrMark(message: Message) returns (overflowed: bool)
      modifies this
      ensures items == Offer(old(items), message) && overflowed == (|old(items)| >= CAPACITY)
    {
      overflowed := |items| >= CAPACITY;
      if overflowed {
        var oldest := Get();
        items := items + [Gap];
      } else {
        items := items + [message];
      }
    }
  }

  class RealtimeManager {
    var clients: set<ClientQueue>
    var overflowCount: nat

    constructor ()
      ensures clients == {} && overflowCount == 0
    {
      clients := {};
      overflowCount := 0;
    }

    method Subscribe() returns (queue: ClientQueue)
      modifies this
      ensures fresh(queue) && queue.items == []
      ensures clients == old(clients) + {queue} && overflowCount == old(overflowCount)
    {
      queue := new ClientQueue();
      clients := clients + {queue};
    }

    method Unsubscribe(queue: ClientQueue)
      modifies this`clients
      ensures clients == old(clients) - {queue}
    {
      clients := clients - {queue};
    }

    /** Each client gets its own offer, and each full queue counts one overflow. */
    method PublishMessage(message: Message)
      modifies this`overflowCount, clients
      ensures forall q :: q in clients ==> q.items == Offer(old(q.items), message)
      ensures overflowCount == old(overflowCount) + |set q | q in clients && old(|q.items|) >= CAPACITY|
    {
      hide Offer;
      var rest := clients;
      ghost var full: set<ClientQueue> := {};
      while rest != {}
        invariant rest <= clients
        invariant forall q :: q in rest ==> q.items == old(q.items)
        invariant forall q :: q in clients - rest ==> q.items == Offer(old(q.items), message)
        invariant forall q :: q in full <==> q in clients - rest && old(|q.items|) >= CAPACITY
        invariant overflowCount == old(overflowCount) + |full|
      {
        var queue :| queue in rest;
        rest := rest - {queue};
        var overflowed := queue.PutOrMark(message);
        if overflowed {
          full := full + {queue};
          overflowCount := overflowCount + 1;
        }
      }
      assert full == set q | q in clients && old(|q.items|) >= CAPACITY;
    }
  }
}
