/** Stable insertion sort, as the meaning of the library's sort functions. */
module Sorting {

  ghost predicate TotalPreorder<T(!new)>(leq: (T, T) -> bool) {
    && (forall x, y :: leq(x, y) || leq(y, x))
    && (forall x, y, z :: leq(x, y) && leq(y, z) ==> leq(x, z))
  }

  ghost predicate SortedBy<T>(leq: (T, T) -> bool, s: seq<T>) {
    forall i, j :: 0 <= i < j < |s| ==> leq(s[i], s[j])
  }

  /** Where `x` belongs among the first `n` elements: after the last one that does not come after it. */
  function Position<T>(leq: (T, T) -> bool, s: seq<T>, n: nat, x: T): (k: nat)
    requires n <= |s|
    ensures k <= n
  {
    if n == 0 || leq(s[n - 1], x) then n else Position(leq, s, n - 1, x)
  }

  /** `s` with `x` put in there. */
  function Place<T>(leq: (T, T) -> bool, s: seq<T>, x: T): seq<T> {
    var k := Position(leq, s, |s|, x);
    s[..k] + [x] + s[k..]
  }

  function StableSort<T>(leq: (T, T) -> bool, s: seq<T>): seq<T> {
    if s == [] then [] else Place(leq, StableSort(leq, s[..|s| - 1]), s[|s| - 1])
  }

  lemma PlaceKeepsElements<T>(leq: (T, T) -> bool, s: seq<T>, x: T)
    ensures multiset(Place(leq, s, x)) == multiset(s) + multiset{x}
    ensures |Place(leq, s, x)| == |s| + 1
  {
    var k := Position(leq, s, |s|, x);
    assert s == s[..k] + s[k..];
  }

  lemma {:induction false} PositionSplits<T(!new)>(leq: (T, T) -> bool, s: seq<T>, n: nat, x: T)
    requires n <= |s|
    ensures var k := Position(leq, s, n, x); (k > 0 ==> leq(s[k - 1], x)) && (k < n ==> !leq(s[k], x))
  {
    if n > 0 && !leq(s[n - 1], x) {
      PositionSplits(leq, s, n - 1, x);
    }
  }

  lemma PlaceSorts<T(!new)>(leq: (T, T) -> bool, s: seq<T>, x: T)
    requires TotalPreorder(leq) && SortedBy(leq, s)
    ensures SortedBy(leq, Place(leq, s, x))
  {
    var k := Position(leq, s, |s|, x);
    PositionSplits(leq, s, |s|, x);
    forall i | 0 <= i < k ensures leq(s[i], x) {
      assert i < k - 1 ==> leq(s[i], s[k - 1]);
    }
    forall i | k <= i < |s| ensures leq(x, s[i]) {
      assert leq(x, s[k]);
      assert k < i ==> leq(s[k], s[i]);
    }
  }

  lemma {:induction false} SortKeepsElements<T>(leq: (T, T) -> bool, s: seq<T>)
    ensures multiset(StableSort(leq, s)) == multiset(s) && |StableSort(leq, s)| == |s|
  {
    if s != [] {
      SortKeepsElements(leq, s[..|s| - 1]);
      PlaceKeepsElements(leq, StableSort(leq, s[..|s| - 1]), s[|s| - 1]);
      assert s == s[..|s| - 1] + [s[|s| - 1]];
    }
  }

  lemma {:induction false} SortSorts<T(!new)>(leq: (T, T) -> bool, s: seq<T>)
    requires TotalPreorder(leq)
    ensures SortedBy(leq, StableSort(leq, s))
  {
    if s != [] {
      SortSorts(leq, s[..|s| - 1]);
      PlaceSorts(leq, StableSort(leq, s[..|s| - 1]), s[|s| - 1]);
    }
  }

  lemma WithoutFirst<T>(s: seq<T>)
    requires s != []
    ensures s == [s[0]] + s[1..] && multiset(s[1..]) == multiset(s) - multiset{s[0]}
  {
    assert s == [s[0]] + s[1..];
  }

  lemma FirstIsLeast<T(!new)>(leq: (T, T) -> bool, s: seq<T>, x: T)
    requires SortedBy(leq, s) && x in s
    ensures x == s[0] || leq(s[0], x)
  {
  }

  /** There is one way to arrange elements of which no two are equivalent. */
  lemma {:induction false} SortedIsUnique<T(!new)>(leq: (T, T) -> bool, s: seq<T>, t: seq<T>)
    requires SortedBy(leq, s) && SortedBy(leq, t) && multiset(s) == multiset(t)
    requires forall x, y :: x in s && y in s && leq(x, y) && leq(y, x) ==> x == y
    ensures s == t
  {
    assert |s| == |multiset(s)| == |multiset(t)| == |t|;
    if s != [] {
      assert s[0] in multiset(t) && t[0] in multiset(s);
      FirstIsLeast(leq, s, t[0]);
      FirstIsLeast(leq, t, s[0]);
      WithoutFirst(s);
      WithoutFirst(t);
      SortedIsUnique(leq, s[1..], t[1..]);
    }
  }

  /** Sorting does not depend on the order in which the elements come. */
  lemma SortOfSameElements<T(!new)>(leq: (T, T) -> bool, s: seq<T>, t: seq<T>)
    requires TotalPreorder(leq) && multiset(s) == multiset(t)
    requires forall x, y :: x in s && y in s && leq(x, y) && leq(y, x) ==> x == y
    ensures StableSort(leq, s) == StableSort(leq, t)
  {
    SortKeepsElements(leq, s);
    SortKeepsElements(leq, t);
    SortSorts(leq, s);
    SortSorts(leq, t);
    forall x | x in StableSort(leq, s) ensures x in s { assert x in multiset(StableSort(leq, s)); }
    SortedIsUnique(leq, StableSort(leq, s), StableSort(leq, t));
  }

  ghost predicate Least<T>(leq: (T, T) -> bool, s: set<T>, r: T) {
    r in s && forall x <- s :: leq(r, x)
  }

  lemma LeastWithOneMore<T(!new)>(leq: (T, T) -> bool, s: set<T>, y: T, x: T)
    requires TotalPreorder(leq) && Least(leq, s, y)
    ensures Least(leq, s + {x}, if leq(x, y) then x else y)
  {
    if leq(x, y) {
      forall n | n in s + {x} ensures leq(x, n) {
        if n in s {
          assert leq(y, n);
        }
      }
    }
  }

  lemma {:induction false} LeastExists<T(!new)>(leq: (T, T) -> bool, s: set<T>)
    requires TotalPreorder(leq) && s != {}
    ensures exists r :: Least(leq, s, r)
  {
    var x :| x in s;
    if s == {x} {
      assert Least(leq, s, x);
    } else {
      LeastExists(leq, s - {x});
      var y :| Least(leq, s - {x}, y);
      LeastWithOneMore(leq, s - {x}, y, x);
      assert s - {x} + {x} == s;
    }
  }

  /** The element at `n` moves to its place among the sorted ones before it, in place. */
  method SinkInto<T>(leq: (T, T) -> bool, a: array<T>, n: nat)
    requires n < a.Length
    modifies a
    ensures a[..n + 1] == Place(leq, old(a[..n]), old(a[n]))
    ensures a[n + 1..] == old(a[n + 1..])
  {
    var x := a[n];
    var j := n;
    ghost var was := a[..n];
    while j > 0 && !leq(a[j - 1], x)
      invariant 0 <= j <= n
      invariant forall k :: 0 <= k < j ==> a[k] == was[k]
      invariant forall k :: j <= k < n ==> a[k + 1] == was[k]
      invariant forall k :: n < k < a.Length ==> a[k] == old(a[k])
      invariant Position(leq, was, n, x) == Position(leq, was, j, x)
    {
      a[j] := a[j - 1];
      j := j - 1;
    }
    a[j] := x;
    assert a[..n + 1] == was[..j] + [x] + was[j..];
  }

  method SortInPlace<T>(leq: (T, T) -> bool, a: array<T>)
    modifies a
    ensures a[..] == StableSort(leq, old(a[..]))
  {
    ghost var was := a[..];
    var n := 0;
    while n < a.Length
      invariant 0 <= n <= a.Length
      invariant a[..n] == StableSort(leq, was[..n])
      invariant a[n..] == was[n..]
    {
      assert was[..n + 1][..n] == was[..n] && was[..n + 1][n] == was[n];
      assert a[n] == a[n..][0] == was[n..][0] == was[n];
      assert was[n + 1..] == was[n..][1..];
      assert a[n + 1..] == a[n..][1..];
      SinkInto(leq, a, n);
      n := n + 1;
    }
    assert was[..n] == was && a[..n] == a[..];
  }
}
