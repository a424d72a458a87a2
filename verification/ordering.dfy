/**
 * The order in which a refresh lays out a game's achievements: ascending by ID
 * (main.go:115-117). The library sort the source calls is modelled by an
 * insertion sort, of which only "sorted and a permutation" is promised.
 */
module Ordering {
  import opened Achievement

  /** Non-decreasing IDs, as the comparator `a.ID - b.ID` orders them. */
  predicate SortedByID(s: seq<GameInfoAchievement>) {
    forall i, j :: 0 <= i < j < |s| ==> s[i].id <= s[j].id
  }

  /** `x` placed into a sorted sequence before the first entry with an ID not below its own. */
  function InsertByID(x: GameInfoAchievement, s: seq<GameInfoAchievement>): (r: seq<GameInfoAchievement>)
    requires SortedByID(s)
    ensures SortedByID(r)
    ensures multiset(r) == multiset(s) + multiset{x}
    ensures |r| == |s| + 1 && (r[0] == x || (s != [] && r[0] == s[0]))
  {
    if s == [] then [x]
    else if x.id <= s[0].id then [x] + s
    else
      var tail := InsertByID(x, s[1..]);
      ConsSorted(s[0], tail);
      ConsMultiset(s, x, tail);
      [s[0]] + tail
  }

  /** A sorted sequence stays sorted under a head whose ID is not above its first entry's. */
  lemma ConsSorted(h: GameInfoAchievement, t: seq<GameInfoAchievement>)
    requires SortedByID(t) && (t != [] ==> h.id <= t[0].id)
    ensures SortedByID([h] + t)
  {
    var r := [h] + t;
    forall i, j | 0 <= i < j < |r| ensures r[i].id <= r[j].id {
      if i > 0 {
        assert r[i] == t[i - 1] && r[j] == t[j - 1];
      } else {
        assert r[j] == t[j - 1];
        assert j - 1 == 0 || t[0].id <= t[j - 1].id;
      }
    }
  }

  lemma ConsMultiset(s: seq<GameInfoAchievement>, x: GameInfoAchievement, tail: seq<GameInfoAchievement>)
    requires s != [] && multiset(tail) == multiset(s[1..]) + multiset{x}
    ensures multiset([s[0]] + tail) == multiset(s) + multiset{x}
  {
    assert s == [s[0]] + s[1..];
  }

  /** The fetched achievements, sorted by ascending ID. */
  function SortByID(s: seq<GameInfoAchievement>): (r: seq<GameInfoAchievement>)
    ensures SortedByID(r)
    ensures multiset(r) == multiset(s)
  {
    if s == [] then []
    else
      assert s == [s[0]] + s[1..];
      InsertByID(s[0], SortByID(s[1..]))
  }

  /** The IDs of a sequence of entries, in order. */
  function Ids(s: seq<GameInfoAchievement>): (r: seq<int>)
    ensures |r| == |s|
  {
    if s == [] then [] else [s[0].id] + Ids(s[1..])
  }

  /** Position `i` of the ID sequence is the ID of entry `i`. */
  lemma {:induction false} IdsAt(s: seq<GameInfoAchievement>)
    ensures forall i :: 0 <= i < |s| ==> Ids(s)[i] == s[i].id
    decreases |s|
  {
    if s != [] {
      IdsAt(s[1..]);
    }
  }

  /** Entries sorted by ID have ascending IDs. */
  lemma SortedIdsAscending(s: seq<GameInfoAchievement>)
    requires SortedByID(s)
    ensures Ascending(Ids(s))
  {
    IdsAt(s);
  }

  /** Non-decreasing integers. */
  predicate Ascending(x: seq<int>) {
    forall i, j :: 0 <= i < j < |x| ==> x[i] <= x[j]
  }

  /** A position at which `x` occurs in `b`. */
  function IndexOf(b: seq<GameInfoAchievement>, x: GameInfoAchievement): (k: nat)
    requires x in multiset(b)
    ensures k < |b| && b[k] == x
  {
    if b[0] == x then 0 else IndexOf(b[1..], x) + 1
  }

  lemma {:induction false} IdsAppend(s: seq<GameInfoAchievement>, t: seq<GameInfoAchievement>)
    ensures Ids(s + t) == Ids(s) + Ids(t)
    decreases |s|
  {
    if s != [] {
      assert (s + t)[1..] == s[1..] + t;
      IdsAppend(s[1..], t);
      assert s + t != [] && (s + t)[0] == s[0];
      assert Ids(s + t) == [s[0].id] + Ids(s[1..] + t);
      assert Ids(s) == [s[0].id] + Ids(s[1..]);
    } else {
      assert s + t == t;
    }
  }

  /** Removing the entry at `k` removes one copy of it, and one copy of its ID. */
  lemma RemoveAt(b: seq<GameInfoAchievement>, k: nat)
    requires k < |b|
    ensures multiset(b[..k] + b[k + 1..]) == multiset(b) - multiset{b[k]}
    ensures multiset(Ids(b)) == multiset(Ids(b[..k] + b[k + 1..])) + multiset{b[k].id}
  {
    var front, back := b[..k], b[k + 1..];
    assert b == front + ([b[k]] + back) by {
      assert b[k..] == [b[k]] + back;
      assert b == front + b[k..];
    }
    MultisetSplit(front, b[k], back);
    IdsSplit(front, b[k], back);
  }

  lemma MultisetSplit(front: seq<GameInfoAchievement>, x: GameInfoAchievement, back: seq<GameInfoAchievement>)
    ensures multiset(front + back) == multiset(front + ([x] + back)) - multiset{x}
  {
    assert multiset(front + ([x] + back)) == multiset(front) + multiset{x} + multiset(back);
    assert multiset(front + back) == multiset(front) + multiset(back);
  }

  lemma IdsSplit(front: seq<GameInfoAchievement>, x: GameInfoAchievement, back: seq<GameInfoAchievement>)
    ensures multiset(Ids(front + ([x] + back))) == multiset(Ids(front + back)) + multiset{x.id}
  {
    IdsAppend(front, back);
    IdsAppend(front, [x] + back);
    IdsAppend([x], back);
    assert Ids([x]) == [x.id];
  }

  /** Removing the first entry removes one copy of it, and one copy of its ID. */
  lemma RemoveFirst(a: seq<GameInfoAchievement>)
    requires a != []
    ensures multiset(a[1..]) == multiset(a) - multiset{a[0]}
    ensures multiset(Ids(a)) == multiset(Ids(a[1..])) + multiset{a[0].id}
  {
    assert a == [a[0]] + a[1..];
  }

  /** Permuting entries permutes their IDs. */
  lemma {:induction false} IdsOfPermutation(a: seq<GameInfoAchievement>, b: seq<GameInfoAchievement>)
    requires multiset(a) == multiset(b)
    ensures multiset(Ids(a)) == multiset(Ids(b))
    decreases |a|
  {
    if a == [] {
      assert |b| == |multiset(b)| == 0;
    } else {
      var k := IndexOf(b, a[0]);
      RemoveAt(b, k);
      RemoveFirst(a);
      IdsOfPermutation(a[1..], b[..k] + b[k + 1..]);
    }
  }

  /** The head of an ascending sequence is its least element. */
  lemma AscendingHeadIsLeast(x: seq<int>, v: int)
    requires Ascending(x) && v in multiset(x)
    ensures x[0] <= v
  {
    var m :| 0 <= m < |x| && x[m] == v;
    assert m == 0 || x[0] <= x[m];
  }

  /** Two ascending permutations of the same integers are equal. */
  lemma {:induction false} AscendingPermutationUnique(x: seq<int>, y: seq<int>)
    requires Ascending(x) && Ascending(y) && multiset(x) == multiset(y)
    ensures x == y
    decreases |x|
  {
    assert |x| == |y| by { assert |x| == |multiset(x)|; assert |y| == |multiset(y)|; }
    if x != [] {
      AscendingHeadIsLeast(x, y[0]);
      AscendingHeadIsLeast(y, x[0]);
      assert x[0] == y[0];
      var xs, ys := x[1..], y[1..];
      assert x == [x[0]] + xs;
      assert y == [y[0]] + ys;
      assert multiset(xs) == multiset(ys) by {
        assert multiset(x) == multiset{x[0]} + multiset(xs);
        assert multiset(y) == multiset{y[0]} + multiset(ys);
        assert multiset(xs) == multiset(x) - multiset{x[0]};
        assert multiset(ys) == multiset(y) - multiset{y[0]};
      }
      AscendingPermutationUnique(xs, ys);
    }
  }

  /**
   * The ID order after a refresh depends only on which achievements were
   * fetched, not on the order in which the copy loop visited them.
   */
  lemma OrderedIdsIndependentOfVisitOrder(s: seq<GameInfoAchievement>, t: seq<GameInfoAchievement>)
    requires multiset(s) == multiset(t)
    ensures Ids(SortByID(s)) == Ids(SortByID(t))
  {
    var a, b := SortByID(s), SortByID(t);
    IdsOfPermutation(a, b);
    SortedIdsAscending(a);
    SortedIdsAscending(b);
    AscendingPermutationUnique(Ids(a), Ids(b));
  }
}
