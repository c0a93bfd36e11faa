/** Query results in order: the elements of a finite set by rank, ties broken by the element. */
module Ordering {

  predicate Precedes(a: nat, b: nat, rank: map<nat, int>)
    requires a in rank && b in rank
  {
    rank[a] < rank[b] || (rank[a] == rank[b] && a <= b)
  }

  predicate IsFirst(m: nat, ids: set<nat>, rank: map<nat, int>)
    requires ids <= rank.Keys
  {
    m in ids && forall x :: x in ids ==> Precedes(m, x, rank)
  }

  lemma {:induction false} FirstExists(ids: set<nat>, rank: map<nat, int>)
    requires ids != {} && ids <= rank.Keys
    ensures exists m :: IsFirst(m, ids, rank)
  {
    var x :| x in ids;
    var others := ids - {x};
    assert ids == others + {x};
    if others == {} {
      assert IsFirst(x, ids, rank);
    } else {
      FirstExists(others, rank);
      var m :| IsFirst(m, others, rank);
      if Precedes(x, m, rank) {
        assert IsFirst(x, ids, rank);
      } else {
        assert IsFirst(m, ids, rank);
      }
    }
  }

  function First(ids: set<nat>, rank: map<nat, int>): (m: nat)
    requires ids != {} && ids <= rank.Keys
    ensures m in ids && forall x :: x in ids ==> Precedes(m, x, rank)
  {
    FirstExists(ids, rank);
    var m :| IsFirst(m, ids, rank);
    m
  }

  function Ordered(ids: set<nat>, rank: map<nat, int>): seq<nat>
    requires ids <= rank.Keys
  {
    if ids == {} then [] else
      var m := First(ids, rank);
      [m] + Ordered(ids - {m}, rank)
  }

  function Elements(s: seq<nat>): set<nat> {
    set x | x in s
  }

  predicate NoRepeats(list: seq<nat>) {
    forall i, j :: 0 <= i < j < |list| ==> list[i] != list[j]
  }

  /** Every element once. */
  lemma {:induction false} OrderedIsComplete(ids: set<nat>, rank: map<nat, int>)
    requires ids <= rank.Keys
    ensures Elements(Ordered(ids, rank)) == ids
    ensures |Ordered(ids, rank)| == |ids|
  {
    if ids != {} {
      var m := First(ids, rank);
      OrderedIsComplete(ids - {m}, rank);
      var rest := Ordered(ids - {m}, rank);
      assert Elements([m] + rest) == {m} + Elements(rest);
    }
  }

  /** No element twice, and each before those that it precedes. */
  lemma {:induction false} OrderedIsSorted(ids: set<nat>, rank: map<nat, int>, i: nat, j: nat)
    requires ids <= rank.Keys && i < j < |Ordered(ids, rank)|
    ensures var s := Ordered(ids, rank);
      s[i] in ids && s[j] in ids && s[i] != s[j] && Precedes(s[i], s[j], rank)
  {
    var m := First(ids, rank);
    var rest := Ordered(ids - {m}, rank);
    OrderedIsComplete(ids - {m}, rank);
    assert rest[j - 1] in Elements(rest);
    if i > 0 {
      OrderedIsSorted(ids - {m}, rank, i - 1, j - 1);
    }
  }

  function Preceding(ids: set<nat>, rank: map<nat, int>, m: nat): set<nat>
    requires ids <= rank.Keys && m in ids
  {
    set x | x in ids && x != m && Precedes(x, m, rank)
  }

  /** An element stands behind exactly those that precede it. */
  lemma {:induction false} PositionCounts(ids: set<nat>, rank: map<nat, int>, k: nat)
    requires ids <= rank.Keys && k < |Ordered(ids, rank)|
    ensures Ordered(ids, rank)[k] in ids && |Preceding(ids, rank, Ordered(ids, rank)[k])| == k
  {
    var m := First(ids, rank);
    if k == 0 {
      assert Preceding(ids, rank, m) == {};
    } else {
      var rest := ids - {m};
      PositionCounts(rest, rank, k - 1);
      var x := Ordered(rest, rank)[k - 1];
      assert Ordered(ids, rank)[k] == x;
      assert Preceding(ids, rank, x) == Preceding(rest, rank, x) + {m};
    }
  }

  /** What is left after the first k is ordered as before. */
  lemma {:induction false} OrderedRest(ids: set<nat>, rank: map<nat, int>, k: nat)
    requires ids <= rank.Keys && k <= |Ordered(ids, rank)|
    ensures Ordered(ids - Elements(Ordered(ids, rank)[..k]), rank) == Ordered(ids, rank)[k..]
  {
    var all := Ordered(ids, rank);
    if k == 0 {
      assert ids - Elements(all[..0]) == ids;
    } else {
      var m := First(ids, rank);
      OrderedRest(ids - {m}, rank, k - 1);
      var rest := Ordered(ids - {m}, rank);
      assert all == [m] + rest;
      hide Ordered, Elements;
      TakenFromFront(m, rest, k - 1);
      assert ids - Elements(all[..k]) == (ids - {m}) - Elements(rest[..k - 1]);
    }
  }

  lemma TakenFromFront(m: nat, rest: seq<nat>, k: nat)
    requires k <= |rest|
    ensures Elements(([m] + rest)[..k + 1]) == {m} + Elements(rest[..k]) && ([m] + rest)[k + 1..] == rest[k..]
  {
    assert ([m] + rest)[..k + 1] == [m] + rest[..k];
  }

  /** The order depends only on the ranks of the elements. */
  lemma {:induction false} OrderedByRankOnly(ids: set<nat>, rank: map<nat, int>, other: map<nat, int>)
    requires ids <= rank.Keys && ids <= other.Keys
    requires forall x :: x in ids ==> rank[x] == other[x]
    ensures Ordered(ids, rank) == Ordered(ids, other)
  {
    if ids != {} {
      OrderedByRankOnly(ids - {First(ids, rank)}, rank, other);
    }
  }

  lemma {:induction false} Smaller(a: set<nat>, b: set<nat>)
    requires a <= b
    ensures |a| <= |b|
  {
    if a != {} {
      var x :| x in a;
      Smaller(a - {x}, b - {x});
    }
  }

  lemma {:induction false} ElementsCount(rows: seq<nat>)
    requires NoRepeats(rows)
    ensures |Elements(rows)| == |rows|
  {
    if |rows| > 0 {
      var n := |rows| - 1;
      ElementsCount(rows[..n]);
      assert rows == rows[..n] + [rows[n]];
      assert Elements(rows) == Elements(rows[..n]) + {rows[n]} && rows[n] !in rows[..n];
    }
  }

  /** Of a list without repeats, what is not in the rest is in the front. */
  lemma CutInTwo(all: seq<nat>, n: nat)
    requires NoRepeats(all) && n <= |all|
    ensures NoRepeats(all[..n]) && Elements(all) - Elements(all[n..]) == Elements(all[..n])
  {
    forall c ensures c in Elements(all[n..]) <==> exists k: nat :: n <= k < |all| && all[k] == c { SuffixMembers(all, n, c); }
    hide Elements;
    forall c ensures c in Elements(all) - Elements(all[n..]) <==> c in Elements(all[..n]) { FrontMember(all, n, c); }
  }

  lemma FrontMember(all: seq<nat>, n: nat, c: nat)
    requires NoRepeats(all) && n <= |all|
    ensures c in Elements(all[..n]) <==> c in Elements(all) && !exists k: nat :: n <= k < |all| && all[k] == c
  {
    if k: nat :| k < n && all[k] == c { assert all[..n][k] == c; }
    if k: nat :| k < |all[..n]| && all[..n][k] == c { assert all[k] == c; }
  }

  lemma SuffixMembers(all: seq<nat>, n: nat, c: nat)
    requires n <= |all|
    ensures c in Elements(all[n..]) <==> exists k: nat :: n <= k < |all| && all[k] == c
  {
    if k: nat :| n <= k < |all| && all[k] == c { assert all[n..][k - n] == c; }
    if i: nat :| i < |all[n..]| && all[n..][i] == c { assert all[i + n] == c; }
  }

  function Take(s: seq<nat>, limit: nat): seq<nat> {
    if |s| <= limit then s else s[..limit]
  }
}
