/** The client of the websocket as the hook keeps it: cursor, generation, timeline list and live state. */
module PulseClient {
  import opened Common
  import opened Realtime
  import Recovery

  const TIMELINE_LIMIT := 100

  // ---------------------------------------------------------------- the live state

  datatype MatchView = MatchView(matchId: nat, version: nat, updatedAt: int)

  datatype Focus = Focus(score: int, reason: nat)

  datatype LiveState = LiveState(view: Option<MatchView>, focus: Focus, attention: int, updatedAt: Option<int>)

  function MatchIdOf(state: LiveState): Option<nat> {
    if state.view.Some? then Some(state.view.value.matchId) else None
  }

  function MergeLiveState(current: LiveState, next: LiveState): LiveState {
    if MatchIdOf(current) == MatchIdOf(next) && current.view.Some?
       && next.view.value.version < current.view.value.version then current
    else next
  }

  function MergeRealtimeState(current: LiveState, next: MatchView, focus: Option<Focus>, attention: Option<int>): LiveState {
    if MatchIdOf(current) != Some(next.matchId) || next.version < current.view.value.version then current
    else LiveState(
           Some(next),
           if focus.Some? then focus.value else current.focus,
           if focus.Some? then focus.value.score else if attention.Some? then attention.value else current.attention,
           Some(next.updatedAt))
  }

  /** An answer replaces what is shown, unless it is an older version of the same match. */
  predicate Answered(before: LiveState, answer: LiveState, after: LiveState) {
    if before.view.Some? && answer.view.Some? && before.view.value.matchId == answer.view.value.matchId
       && answer.view.value.version < before.view.value.version
    then after == before else after == answer
  }

  /**
   A message for the match on screen, if it is no older, replaces the match; without a focus of its own it
   leaves the focus, and the attention is the focus's score, or the message's, or what it was.
   */
  predicate Heard(before: LiveState, update: Update, after: LiveState)
    requires update.FromSocket?
  {
    if before.view.Some? && before.view.value.matchId == update.view.matchId
       && before.view.value.version <= update.view.version
    then
      && after.view == Some(update.view) && after.updatedAt == Some(update.view.updatedAt)
      && after.focus == (if update.focus.Some? then update.focus.value else before.focus)
      && (update.focus.Some? ==> after.attention == update.focus.value.score)
      && (update.focus.None? && update.attention.Some? ==> after.attention == update.attention.value)
      && (update.focus.None? && update.attention.None? ==> after.attention == before.attention)
    else after == before
  }

  // An answer of the REST endpoint, or the match carried by an accepted socket message.
  datatype Update = FromRest(state: LiveState) | FromSocket(view: MatchView, focus: Option<Focus>, attention: Option<int>)

  function Updated(live: LiveState, update: Update): LiveState {
    match update
    case FromRest(state) => MergeLiveState(live, state)
    case FromSocket(view, focus, attention) =>
      if MatchIdOf(live) != Some(view.matchId) then live
      else MergeLiveState(live, MergeRealtimeState(live, view, focus, attention))
  }

  function LiveAfter(live: LiveState, updates: seq<Update>): LiveState {
    if |updates| == 0 then live else Updated(LiveAfter(live, updates[..|updates| - 1]), updates[|updates| - 1])
  }

  predicate Shows(live: LiveState, updates: seq<Update>, k: nat, id: nat) {
    k <= |updates| && MatchIdOf(LiveAfter(live, updates[..k])) == Some(id)
  }

  /** However REST answers and messages interleave, a match that stays on screen never goes back a version. */
  lemma {:induction false} VersionsNeverGoBack(live: LiveState, updates: seq<Update>, id: nat)
    requires forall k :: 0 <= k <= |updates| ==> Shows(live, updates, k, id)
    ensures live.view.Some? && LiveAfter(live, updates).view.Some?
    ensures live.view.value.version <= LiveAfter(live, updates).view.value.version
  {
    var n := |updates|;
    assert updates[..0] == [] && updates[..n] == updates;
    assert Shows(live, updates, 0, id) && Shows(live, updates, n, id);
    if n > 0 {
      var earlier := updates[..n - 1];
      forall k | 0 <= k <= |earlier| ensures Shows(live, earlier, k, id) {
        assert earlier[..k] == updates[..k];
        assert Shows(live, updates, k, id);
      }
      VersionsNeverGoBack(live, earlier, id);
      assert earlier[..|earlier|] == earlier && Shows(live, earlier, |earlier|, id);
    }
  }

  /** Of one match, `live` shows no older version than `other`. */
  predicate NotBehind(live: LiveState, other: LiveState) {
    MatchIdOf(live) == MatchIdOf(other) && live.view.Some? ==> other.view.value.version <= live.view.value.version
  }

  // ---------------------------------------------------------------- the timeline list

  datatype TimelineItem = TimelineItem(cursor: nat, eventId: nat, timestamp: int)

  /** Newest first; one timestamp falls back to the cursor. */
  predicate Ahead(a: TimelineItem, b: TimelineItem) {
    a.timestamp > b.timestamp || (a.timestamp == b.timestamp && a.cursor >= b.cursor)
  }

  predicate NewestFirst(items: seq<TimelineItem>) {
    forall i, j :: 0 <= i < j < |items| ==> Ahead(items[i], items[j])
  }

  predicate OncePerEvent(items: seq<TimelineItem>) {
    forall i, j :: 0 <= i < j < |items| ==> items[i].eventId != items[j].eventId
  }

  function InsertSorted(item: TimelineItem, items: seq<TimelineItem>): seq<TimelineItem> {
    if |items| == 0 || Ahead(item, items[0]) then [item] + items
    else [items[0]] + InsertSorted(item, items[1..])
  }

  function SortItems(items: seq<TimelineItem>): seq<TimelineItem> {
    if |items| == 0 then [] else InsertSorted(items[0], SortItems(items[1..]))
  }

  predicate Shown(items: seq<TimelineItem>, eventId: nat) {
    exists e :: e in items && e.eventId == eventId
  }

  function Upsert(items: seq<TimelineItem>, item: TimelineItem): seq<TimelineItem> {
    if Shown(items, item.eventId) then items
    else
      var sorted := SortItems([item] + items);
      if |sorted| <= TIMELINE_LIMIT then sorted else sorted[..TIMELINE_LIMIT]
  }

  lemma {:induction false} InsertAdds(item: TimelineItem, items: seq<TimelineItem>)
    ensures multiset(InsertSorted(item, items)) == multiset(items) + multiset{item}
    ensures forall x :: x in InsertSorted(item, items) <==> x == item || x in items
  {
    if |items| > 0 {
      assert items == [items[0]] + items[1..];
      if !Ahead(item, items[0]) { InsertAdds(item, items[1..]); }
    }
  }

  lemma {:induction false} InsertKeepsSorted(item: TimelineItem, items: seq<TimelineItem>)
    requires NewestFirst(items)
    ensures NewestFirst(InsertSorted(item, items))
  {
    if |items| > 0 {
      if Ahead(item, items[0]) {
        PrependKeepsSorted(item, items);
      } else {
        InsertKeepsSorted(item, items[1..]);
        InsertAdds(item, items[1..]);
        var rest := InsertSorted(item, items[1..]);
        assert rest[0] in rest;
        PrependKeepsSorted(items[0], rest);
      }
    }
  }

  lemma PrependKeepsSorted(first: TimelineItem, rest: seq<TimelineItem>)
    requires NewestFirst(rest) && (rest != [] ==> Ahead(first, rest[0]))
    ensures NewestFirst([first] + rest)
  {
    forall j | 0 <= j < |rest| ensures Ahead(first, rest[j]) {
    }
  }

  lemma {:induction false} SortItemsSorts(items: seq<TimelineItem>)
    ensures NewestFirst(SortItems(items)) && multiset(SortItems(items)) == multiset(items)
  {
    if |items| > 0 {
      SortItemsSorts(items[1..]);
      InsertKeepsSorted(items[0], SortItems(items[1..]));
      InsertAdds(items[0], SortItems(items[1..]));
      assert items == [items[0]] + items[1..];
    }
  }

  lemma OnceMeansOne(items: seq<TimelineItem>, x: TimelineItem)
    requires OncePerEvent(items) && x in items
    ensures multiset(items)[x] == 1
    ensures forall y :: y in items && y.eventId == x.eventId ==> y == x
  {
    var k :| 0 <= k < |items| && items[k] == x;
    assert items == items[..k] + [items[k]] + items[k + 1..];
    assert items[k] !in items[..k] && items[k] !in items[k + 1..];
  }

  lemma TwiceMeansTwo(items: seq<TimelineItem>, i: nat, j: nat)
    requires i < j < |items| && items[i] == items[j]
    ensures multiset(items)[items[i]] >= 2
  {
    assert items == items[..j] + items[j..];
    assert items[i] == items[..j][i] && items[j] == items[j..][0];
    assert items[i] in items[..j] && items[i] in items[j..];
  }

  lemma DistinctByMultiset(items: seq<TimelineItem>, others: seq<TimelineItem>)
    requires OncePerEvent(items) && multiset(items) == multiset(others)
    ensures OncePerEvent(others)
  {
    forall i, j | 0 <= i < j < |others| ensures others[i].eventId != others[j].eventId {
      var x, y := others[i], others[j];
      assert x in multiset(others) && y in multiset(others);
      assert x in items && y in items;
      OnceMeansOne(items, x);
      hide OncePerEvent;
      if x == y { TwiceMeansTwo(others, i, j); }
    }
  }

  lemma UpsertIsSortedPrefix(items: seq<TimelineItem>, item: TimelineItem)
    requires NewestFirst(items) && OncePerEvent(items) && !Shown(items, item.eventId)
    ensures var sorted := SortItems([item] + items);
      && NewestFirst(sorted) && OncePerEvent(sorted) && Upsert(items, item) <= sorted
      && (forall x :: x in sorted <==> x in [item] + items)
      && |Upsert(items, item)| == Min(|sorted|, TIMELINE_LIMIT)
  {
    var all := [item] + items;
    var sorted := SortItems(all);
    SortItemsSorts(all);
    assert OncePerEvent(all);
    DistinctByMultiset(all, sorted);
    SameMembers(sorted, all);
    hide NewestFirst, OncePerEvent, SortItems;
  }

  lemma SameMembers(items: seq<TimelineItem>, others: seq<TimelineItem>)
    requires multiset(items) == multiset(others)
    ensures |items| == |others| && forall x :: x in items <==> x in others
  {
    assert |multiset(items)| == |multiset(others)|;
    forall x ensures x in items <==> x in others {
      assert x in multiset(items) <==> x in multiset(others);
    }
  }

  lemma BehindPrefix(sorted: seq<TimelineItem>, prefix: seq<TimelineItem>, x: TimelineItem, y: TimelineItem)
    requires NewestFirst(sorted) && prefix <= sorted && x in sorted && x !in prefix && y in prefix
    ensures Ahead(y, x)
  {
    var i :| 0 <= i < |sorted| && sorted[i] == x;
    var j :| 0 <= j < |prefix| && prefix[j] == y;
    assert forall k :: 0 <= k < |prefix| ==> prefix[k] == sorted[k] && prefix[k] != x;
    assert sorted[j] == y;
  }

  /** `a` is later than `b`, or of the same time with a cursor that is no smaller. */
  predicate NoOlder(a: TimelineItem, b: TimelineItem) {
    if a.timestamp == b.timestamp then a.cursor >= b.cursor else a.timestamp > b.timestamp
  }

  predicate LatestFirst(items: seq<TimelineItem>) {
    forall i, j :: 0 <= i < j < |items| ==> NoOlder(items[i], items[j])
  }

  lemma NewestFirstIsLatestFirst(items: seq<TimelineItem>)
    ensures NewestFirst(items) <==> LatestFirst(items)
  {
  }

  /** A refreshed list shows the fetched items, each as often as it was fetched, the latest first. */
  lemma RefreshedIsLatestFirst(items: seq<TimelineItem>)
    ensures LatestFirst(SortItems(items)) && multiset(SortItems(items)) == multiset(items)
  {
    SortItemsSorts(items);
    NewestFirstIsLatestFirst(SortItems(items));
    hide NewestFirst, LatestFirst;
  }

  /**
   An upsert keeps the list with the latest first and free of repeats. It shows the items of before and the
   new one, unless its event was shown; it drops one only from more than 100, and none that is later than a
   kept one. An item later than all that were shown stands first.
   */
  lemma UpsertKeepsNewest(items: seq<TimelineItem>, item: TimelineItem)
    requires LatestFirst(items) && OncePerEvent(items)
    ensures var next := Upsert(items, item);
      && LatestFirst(next) && OncePerEvent(next)
      && (Shown(items, item.eventId) ==> next == items)
      && (forall x :: x in next ==> x in items || x == item)
      && (!Shown(items, item.eventId) ==>
            && (forall x, y :: (x in items || x == item) && x !in next && y in next ==> NoOlder(y, x))
            && (|items| < 100 ==> item in next && forall x :: x in items ==> x in next)
            && |next| == (if |items| < 100 then |items| + 1 else 100)
            && ((forall x :: x in items ==> !NoOlder(x, item)) ==> next[0] == item))
  {
    NewestFirstIsLatestFirst(items);
    if !Shown(items, item.eventId) {
      var sorted, next := SortItems([item] + items), Upsert(items, item);
      UpsertIsSortedPrefix(items, item);
      SortItemsSorts([item] + items);
      NewestFirstIsLatestFirst(next);
      SortedCount(items, item);
      hide SortItems, Shown, LatestFirst, OncePerEvent;
      forall x | x in next ensures x in [item] + items {
        var k :| 0 <= k < |next| && next[k] == x;
        assert sorted[k] == x;
      }
      forall x, y | x in sorted && x !in next && y in next ensures NoOlder(y, x) { BehindPrefix(sorted, next, x, y); }
      if forall x :: x in items ==> !NoOlder(x, item) { LatestStandsFirst(items, item, sorted); }
      PrefixIsSorted(sorted, next);
      hide NoOlder, NewestFirst;
    }
  }

  lemma SortedCount(items: seq<TimelineItem>, item: TimelineItem)
    ensures |SortItems([item] + items)| == |items| + 1
  {
    SortItemsSorts([item] + items);
    SameMembers(SortItems([item] + items), [item] + items);
  }

  lemma PrefixIsSorted(sorted: seq<TimelineItem>, next: seq<TimelineItem>)
    requires NewestFirst(sorted) && next <= sorted
    ensures NewestFirst(next) && (|next| == |sorted| ==> next == sorted)
  {
    hide Ahead;
  }

  lemma LatestStandsFirst(items: seq<TimelineItem>, item: TimelineItem, sorted: seq<TimelineItem>)
    requires NewestFirst(sorted) && (forall x :: x in sorted <==> x in [item] + items) && |sorted| > 0
    requires forall x :: x in items ==> !NoOlder(x, item)
    ensures sorted[0] == item
  {
    assert item in [item] + items && sorted[0] in [item] + items;
    var k :| 0 <= k < |sorted| && sorted[k] == item;
    assert k > 0 ==> Ahead(sorted[0], item);
  }

  // ---------------------------------------------------------------- the hook

  /** The mutable references of the hook; `client` is the state of the recovery protocol they stand for. */
  class PulseHook {
    var cursor: nat
    var snapshotGeneration: nat
    var timeline: seq<TimelineItem>
    var live: LiveState
    ghost var client: Recovery.Client

    ghost predicate Valid()
      reads this
    {
      client.cursor == cursor && client.generation == snapshotGeneration
    }

    constructor (initial: LiveState)
      ensures Valid() && client == Recovery.Fresh.client && timeline == [] && live == initial
    {
      cursor, snapshotGeneration, timeline, live := 0, 0, [], initial;
      client := Recovery.Fresh.client;
    }

    method CommitLive(next: LiveState)
      modifies this`live
      ensures live == Updated(old(live), FromRest(next)) && Answered(old(live), next, live)
    {
      live := MergeLiveState(live, next);
    }

    /** The part of `refresh` before its requests are awaited. */
    method BeginRefresh() returns (generation: nat)
      requires Valid()
      modifies this`snapshotGeneration, this`client
      ensures Valid() && client == Recovery.Begun(old(client)) && generation == snapshotGeneration
    {
      snapshotGeneration := snapshotGeneration + 1;
      generation := snapshotGeneration;
      client := Recovery.Begun(client);
    }

    /** The part after both answers have come. */
    method FinishRefresh(generation: nat, state: LiveState, items: seq<TimelineItem>, latestCursor: nat, ghost index: nat)
      requires Valid() && index < |client.refreshes|
      requires client.refreshes[index]
               == Recovery.Refresh(generation, Recovery.Fetched(set e | e in items :: e.cursor, latestCursor))
      modifies this
      ensures Valid() && client == Recovery.Finished(old(client), index)
      ensures generation == old(snapshotGeneration)
              ==> Answered(old(live), state, live) && LatestFirst(timeline) && multiset(timeline) == multiset(items)
      ensures generation != old(snapshotGeneration) ==> live == old(live) && timeline == old(timeline)
    {
      client := Recovery.Finished(client, index);
      if generation != snapshotGeneration { return; }
      CommitLive(state);
      RefreshedIsLatestFirst(items);
      timeline := SortItems(items);
      cursor := Max(cursor, latestCursor);
    }

    method BeginStateRefresh() returns (generation: nat)
      requires Valid()
      modifies this`snapshotGeneration, this`client
      ensures Valid() && client == Recovery.BegunState(old(client)) && generation == snapshotGeneration
    {
      snapshotGeneration := snapshotGeneration + 1;
      generation := snapshotGeneration;
      client := Recovery.BegunState(client);
    }

    /** An outdated answer is dropped; after a current one the screen is as new as both states were. */
    method FinishStateRefresh(generation: nat, state: LiveState)
      modifies this`live
      ensures generation != snapshotGeneration ==> live == old(live)
      ensures NotBehind(live, old(live))
      ensures generation == snapshotGeneration ==> NotBehind(live, state) && (live == state || live == old(live))
      ensures generation == snapshotGeneration && MatchIdOf(state) != MatchIdOf(old(live)) ==> live == state
    {
      if generation == snapshotGeneration { CommitLive(state); }
    }

    /** A `timeline.item` message: stale ones are ignored, a new one counts once and outdates all refreshes. */
    method OnItem(item: TimelineItem, state: Option<Update>) returns (stateRefresh: Option<nat>)
      requires Valid() && (state.Some? ==> state.value.FromSocket?)
      modifies this
      ensures Valid() && client == Recovery.Received(old(client), Item(item.cursor))
      ensures item.cursor <= old(cursor)
              ==> stateRefresh.None? && timeline == old(timeline) && live == old(live)
      ensures item.cursor > old(cursor)
              ==> stateRefresh == Some(snapshotGeneration) && timeline == Upsert(old(timeline), item)
                  && cursor == item.cursor && snapshotGeneration > old(snapshotGeneration)
                  && if state.Some? then Heard(old(live), state.value, live) else live == old(live)
      ensures LatestFirst(old(timeline)) && OncePerEvent(old(timeline)) ==> LatestFirst(timeline) && OncePerEvent(timeline)
      ensures item.cursor > old(cursor) && LatestFirst(old(timeline)) && OncePerEvent(old(timeline))
              && !Shown(old(timeline), item.eventId) && (forall x :: x in old(timeline) ==> !NoOlder(x, item))
              ==> timeline != [] && timeline[0] == item
    {
      if LatestFirst(timeline) && OncePerEvent(timeline) { UpsertKeepsNewest(timeline, item); }
      hide Upsert, LatestFirst, OncePerEvent, Shown, NoOlder;
      ghost var before := client;
      if item.cursor <= cursor { return None; }
      cursor := item.cursor;
      snapshotGeneration := snapshotGeneration + 1;
      timeline := Upsert(timeline, item);
      client := client.(cursor := item.cursor, generation := client.generation + 1, accepted := client.accepted + [item.cursor]);
      if state.Some? {
        var previous := live;
        if MatchIdOf(previous) == Some(state.value.view.matchId) {
          CommitLive(MergeRealtimeState(previous, state.value.view, state.value.focus, state.value.attention));
        }
      }
      var generation := BeginStateRefresh();
      stateRefresh := Some(generation);
    }

    /** A `resync_required` message starts a refresh. */
    method OnGap() returns (generation: nat)
      requires Valid()
      modifies this`snapshotGeneration, this`client
      ensures Valid() && client == Recovery.Received(old(client), Gap) && generation == snapshotGeneration
    {
      generation := BeginRefresh();
    }
  }
}
