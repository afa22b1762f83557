/**
The immutable view that the API server answers list requests from: all items in
(namespace, name) order, and for namespace, owner and OA an index from value to offsets.
*/
module Snapshot {
  import opened Wrappers
  import opened Text
  import opened Sorting

  /** `rest` stands for the fields that queries do not look at. */
  datatype Item = Item(namespace: string, name: string, owner: string, oa: string, rest: string)

  datatype Field = NamespaceField | OwnerField | OaField

  function ValueOf(f: Field, it: Item): string {
    match f
    case NamespaceField => it.namespace
    case OwnerField => it.owner
    case OaField => it.oa
  }

  datatype View = View(all: seq<Item>,
                       byNamespace: map<string, seq<int>>, byOwner: map<string, seq<int>>, byOa: map<string, seq<int>>)

  const OFFSETS: int := 0x8000_0000

  /** Go's int32: an offset outside the range wraps around. */
  function Int32(x: int): (r: int)
    ensures -OFFSETS <= r < OFFSETS
    ensures -OFFSETS <= x < OFFSETS ==> r == x
  {
    (x + OFFSETS) % (2 * OFFSETS) - OFFSETS
  }

  lemma Int32KeepsLowBits(x: int)
    ensures (Int32(x) - x) % 0x1_0000_0000 == 0
  {
  }

  function Int32s(s: seq<int>): (r: seq<int>)
    ensures |r| == |s| && forall k :: 0 <= k < |s| ==> r[k] == Int32(s[k])
  {
    seq(|s|, k requires 0 <= k < |s| => Int32(s[k]))
  }

  lemma Int32sAppend(s: seq<int>, x: int)
    ensures Int32s(s + [x]) == Int32s(s) + [Int32(x)] && Int32s(s + []) == Int32s(s)
  {
    assert s + [] == s;
  }

  function IndexOf(v: View, f: Field): map<string, seq<int>> {
    match f
    case NamespaceField => v.byNamespace
    case OwnerField => v.byOwner
    case OaField => v.byOa
  }

  // ----- order -----

  predicate NotAfter(a: Item, b: Item) {
    if a.namespace != b.namespace then AtMost(a.namespace, b.namespace) else AtMost(a.name, b.name)
  }

  predicate SameKey(a: Item, b: Item) {
    a.namespace == b.namespace && a.name == b.name
  }

  /** Strictly before in (namespace, name) order. */
  predicate Before(a: Item, b: Item) {
    NotAfter(a, b) && !SameKey(a, b)
  }

  lemma NotAfterIsPreorder()
    ensures TotalPreorder(NotAfter)
  {
    forall a, b ensures NotAfter(a, b) || NotAfter(b, a) {
      AtMostTotal(a.namespace, b.namespace);
      AtMostTotal(a.name, b.name);
    }
    forall a, b, c | NotAfter(a, b) && NotAfter(b, c) ensures NotAfter(a, c) {
      if a.namespace == b.namespace == c.namespace {
        AtMostTransitive(a.name, b.name, c.name);
      } else if a.namespace != b.namespace && b.namespace != c.namespace {
        AtMostTransitive(a.namespace, b.namespace, c.namespace);
        if a.namespace == c.namespace {
          AtMostAntisymmetric(a.namespace, b.namespace);
        }
      }
    }
  }

  lemma EquivalentHaveSameKey(a: Item, b: Item)
    requires NotAfter(a, b) && NotAfter(b, a)
    ensures SameKey(a, b)
  {
    if a.namespace != b.namespace {
      AtMostAntisymmetric(a.namespace, b.namespace);
    } else {
      AtMostAntisymmetric(a.name, b.name);
    }
  }

  /** No two items have the same key, whatever order the items come in. */
  ghost predicate DistinctKeys(items: multiset<Item>) {
    && (forall a, b :: a in items && b in items && SameKey(a, b) ==> a == b)
    && (forall a <- items :: items[a] == 1)
  }

  ghost predicate StrictlyOrdered(s: seq<Item>) {
    forall i, j :: 0 <= i < j < |s| ==> Before(s[i], s[j])
  }

  function Sorted(items: seq<Item>): seq<Item> {
    StableSort(NotAfter, items)
  }

  lemma TwiceCounts(s: seq<Item>, i: nat, j: nat)
    requires i < j < |s| && s[i] == s[j]
    ensures multiset(s)[s[i]] >= 2
  {
    assert s == s[..j] + [s[j]] + s[j + 1..];
    assert s[i] in s[..j];
    assert s[i] in multiset(s[..j]);
  }

  /** Items with distinct keys come out in strict order. */
  lemma SortedIsStrict(items: seq<Item>)
    requires DistinctKeys(multiset(items))
    ensures StrictlyOrdered(Sorted(items)) && multiset(Sorted(items)) == multiset(items)
  {
    NotAfterIsPreorder();
    SortSorts(NotAfter, items);
    SortKeepsElements(NotAfter, items);
    var s := Sorted(items);
    forall i, j | 0 <= i < j < |s| ensures Before(s[i], s[j]) {
      assert s[i] in multiset(s) && s[j] in multiset(s);
      if SameKey(s[i], s[j]) {
        TwiceCounts(s, i, j);
      }
    }
  }

  /** That order: namespaces ascend, and within one namespace the names do, by the smaller character where two texts
      first differ. */
  lemma SortedAscends(items: seq<Item>, i: nat, j: nat)
    requires DistinctKeys(multiset(items)) && i < j < |Sorted(items)|
    ensures var a, b := Sorted(items)[i], Sorted(items)[j];
            var (x, y) := if a.namespace != b.namespace then (a.namespace, b.namespace) else (a.name, b.name);
            x < y || exists k :: 0 <= k < |x| && k < |y| && x[..k] == y[..k] && x[k] < y[k]
  {
    SortedIsStrict(items);
    var a, b := Sorted(items)[i], Sorted(items)[j];
    assert Before(a, b);
    AtMostMeans(a.namespace, b.namespace);
    AtMostMeans(a.name, b.name);
  }

  /** The order in which a map is iterated does not show in the result. */
  lemma SortedIgnoresInputOrder(s: seq<Item>, t: seq<Item>)
    requires DistinctKeys(multiset(s)) && multiset(s) == multiset(t)
    ensures Sorted(s) == Sorted(t)
  {
    NotAfterIsPreorder();
    forall x, y | x in s && y in s && NotAfter(x, y) && NotAfter(y, x) ensures x == y {
      EquivalentHaveSameKey(x, y);
      assert x in multiset(s) && y in multiset(s);
    }
    SortOfSameElements(NotAfter, s, t);
  }

  // ----- selecting by a scan -----

  /** The offsets below `n`, in increasing order, of the items that satisfy `p`: the linear scan. */
  function Scan(all: seq<Item>, n: nat, p: Item -> bool): seq<int>
    requires n <= |all|
  {
    if n == 0 then []
    else Scan(all, n - 1, p) + if p(all[n - 1]) then [n - 1] else []
  }

  lemma {:induction false} ScanMeaning(all: seq<Item>, n: nat, p: Item -> bool)
    requires n <= |all|
    ensures forall k :: 0 <= k < |Scan(all, n, p)| ==> 0 <= Scan(all, n, p)[k] < n && p(all[Scan(all, n, p)[k]])
    ensures forall i: nat :: i < n && p(all[i]) ==> i in Scan(all, n, p)
    ensures forall k, l :: 0 <= k < l < |Scan(all, n, p)| ==> Scan(all, n, p)[k] < Scan(all, n, p)[l]
    ensures |Scan(all, n, p)| <= n
  {
    if n > 0 {
      ScanMeaning(all, n - 1, p);
    }
  }

  function Has(f: Field, value: string): Item -> bool {
    it => ValueOf(f, it) == value
  }

  /** The index of `f` lists, for every value that occurs among the first `n` items and is not
      empty, the offsets that a scan finds, in 32 bits, and it lists nothing else. */
  ghost predicate Indexes(all: seq<Item>, n: nat, f: Field, index: map<string, seq<int>>)
    requires n <= |all|
  {
    && (forall value <- index ::
          value != "" && index[value] == Int32s(Scan(all, n, Has(f, value))) && index[value] != [])
    && (forall i :: 0 <= i < n && ValueOf(f, all[i]) != "" ==> ValueOf(f, all[i]) in index)
  }

  ghost predicate ValidView(v: View) {
    forall f: Field :: Indexes(v.all, |v.all|, f, IndexOf(v, f))
  }

  /** No item to which an index refers stands where 32 bits do not reach. */
  ghost predicate Addressable(all: seq<Item>) {
    forall i, f: Field :: OFFSETS <= i < |all| ==> ValueOf(f, all[i]) == ""
  }

  /** Exactly then the indexes have the offsets of the scan itself. */
  lemma IndexesExactIff(v: View)
    requires ValidView(v)
    ensures Addressable(v.all) <==>
            forall f: Field :: forall value <- IndexOf(v, f) ::
              IndexOf(v, f)[value] == Scan(v.all, |v.all|, Has(f, value))
  {
    forall f: Field ensures Indexes(v.all, |v.all|, f, IndexOf(v, f)) {
    }
    if Addressable(v.all) {
      forall f: Field, value | value in IndexOf(v, f)
        ensures IndexOf(v, f)[value] == Scan(v.all, |v.all|, Has(f, value))
      {
        assert value != "";
        ScanFits(v.all, Has(f, value), f);
      }
    } else {
      var i, f :| OFFSETS <= i < |v.all| && ValueOf(f, v.all[i]) != "";
      var value := ValueOf(f, v.all[i]);
      ScanMeaning(v.all, |v.all|, Has(f, value));
      assert value in IndexOf(v, f) && i in Scan(v.all, |v.all|, Has(f, value));
    }
  }

  /** What a scan for a field that is not empty finds needs no more than 32 bits. */
  lemma ScanFits(all: seq<Item>, p: Item -> bool, f: Field)
    requires Addressable(all) && forall it :: p(it) ==> ValueOf(f, it) != ""
    ensures Int32s(Scan(all, |all|, p)) == Scan(all, |all|, p)
  {
    ScanMeaning(all, |all|, p);
    var s := Scan(all, |all|, p);
    forall k | 0 <= k < |s| ensures Int32s(s)[k] == s[k] {
      assert p(all[s[k]]);
    }
  }

  function AddOffset(index: map<string, seq<int>>, value: string, i: nat): map<string, seq<int>> {
    if value == "" then index
    else index[value := (if value in index then index[value] else []) + [Int32(i)]]
  }

  lemma FoundOccurs(all: seq<Item>, n: nat, f: Field, value: string)
    requires n <= |all| && Scan(all, n, Has(f, value)) != []
    ensures exists i: nat :: i < n && ValueOf(f, all[i]) == value
  {
    ScanMeaning(all, n, Has(f, value));
    var i := Scan(all, n, Has(f, value))[0];
    assert ValueOf(f, all[i]) == value;
  }

  lemma NotIndexedNotFound(all: seq<Item>, n: nat, f: Field, index: map<string, seq<int>>, value: string)
    requires n <= |all| && Indexes(all, n, f, index) && value != "" && value !in index
    ensures Scan(all, n, Has(f, value)) == []
  {
    if Scan(all, n, Has(f, value)) != [] {
      FoundOccurs(all, n, f, value);
    }
  }

  lemma AddOffsetIndexes(all: seq<Item>, n: nat, f: Field, index: map<string, seq<int>>)
    requires n < |all| && Indexes(all, n, f, index)
    ensures Indexes(all, n + 1, f, AddOffset(index, ValueOf(f, all[n]), n))
  {
    var value := ValueOf(f, all[n]);
    if value != "" && value !in index {
      NotIndexedNotFound(all, n, f, index, value);
    }
    var after := AddOffset(index, value, n);
    forall v | v in after ensures v != "" && after[v] == Int32s(Scan(all, n + 1, Has(f, v))) && after[v] != [] {
      assert Has(f, v)(all[n]) <==> v == value;
      Int32sAppend(Scan(all, n, Has(f, v)), n);
    }
  }

  /** Sorts the items in place and builds the three indexes in one pass. */
  method BuildSnapshot(items: array<Item>) returns (v: View)
    modifies items
    ensures v.all == Sorted(old(items[..])) == items[..]
    ensures ValidView(v)
  {
    SortInPlace(NotAfter, items);
    var all := items[..];
    v := BuildIndexes(all);
    IndexedIsValid(all);
  }

  function AddItem(v: View, n: nat): View
    requires n < |v.all|
  {
    View(v.all, AddOffset(v.byNamespace, v.all[n].namespace, n), AddOffset(v.byOwner, v.all[n].owner, n),
         AddOffset(v.byOa, v.all[n].oa, n))
  }

  /** The view after the first `n` items have been indexed. */
  function Indexed(all: seq<Item>, n: nat): (v: View)
    requires n <= |all|
    ensures v.all == all
  {
    if n == 0 then View(all, map[], map[], map[]) else AddItem(Indexed(all, n - 1), n - 1)
  }

  lemma AddItemIndexes(v: View, all: seq<Item>, n: nat, f: Field)
    requires 0 < n <= |all| && v.all == all && Indexes(all, n - 1, f, IndexOf(v, f))
    ensures Indexes(all, n, f, IndexOf(AddItem(v, n - 1), f))
  {
    AddOffsetIndexes(all, n - 1, f, IndexOf(v, f));
  }

  lemma {:induction false} FieldIndexed(all: seq<Item>, n: nat, f: Field)
    requires n <= |all|
    ensures Indexes(all, n, f, IndexOf(Indexed(all, n), f))
  {
    if n > 0 {
      FieldIndexed(all, n - 1, f);
      AddItemIndexes(Indexed(all, n - 1), all, n, f);
    }
  }

  lemma IndexedIsValid(all: seq<Item>)
    ensures ValidView(Indexed(all, |all|))
  {
    forall f: Field ensures Indexes(all, |all|, f, IndexOf(Indexed(all, |all|), f)) {
      FieldIndexed(all, |all|, f);
    }
  }

  method BuildIndexes(all: seq<Item>) returns (v: View)
    ensures v == Indexed(all, |all|)
  {
    v := View(all, map[], map[], map[]);
    for i := 0 to |all|
      invariant v == Indexed(all, i)
    {
      v := AddItem(v, i);
    }
  }

  // ----- queries -----

  predicate IsAllSentinel(namespace: string) {
    namespace == "" || namespace == "all" || namespace == "*" || namespace == "_all"
  }

  datatype Query = Query(namespace: string, owner: string, oa: string)

  predicate Wants(q: Query, it: Item) {
    && (IsAllSentinel(q.namespace) || it.namespace == q.namespace)
    && (q.owner == "" || it.owner == q.owner)
    && (q.oa == "" || it.oa == q.oa)
  }

  function Matching(q: Query): Item -> bool {
    it => Wants(q, it)
  }

  /** Which items match: of the namespace, if that is not left open by one of four texts, and of the owner and the OA
      if those are given. */
  lemma MatchingMeans(q: Query, it: Item)
    ensures Matching(q)(it) <==>
            && (q.namespace in {"", "all", "*", "_all"} || it.namespace == q.namespace)
            && (q.owner != "" ==> it.owner == q.owner)
            && (q.oa != "" ==> it.oa == q.oa)
  {
  }

  predicate Active(q: Query, f: Field) {
    match f
    case NamespaceField => !IsAllSentinel(q.namespace)
    case OwnerField => q.owner != ""
    case OaField => q.oa != ""
  }

  function Wanted(q: Query, f: Field): string {
    match f
    case NamespaceField => q.namespace
    case OwnerField => q.owner
    case OaField => q.oa
  }

  ghost predicate Offsets(all: seq<Item>, offsets: seq<int>) {
    forall k :: 0 <= k < |offsets| ==> 0 <= offsets[k] < |all|
  }

  /** The first `n` offsets of which the item satisfies `p`. */
  function Keep(all: seq<Item>, offsets: seq<int>, n: nat, p: Item -> bool): seq<int>
    requires Offsets(all, offsets) && n <= |offsets|
  {
    if n == 0 then []
    else Keep(all, offsets, n - 1, p) + if p(all[offsets[n - 1]]) then [offsets[n - 1]] else []
  }

  lemma {:induction false} KeepOfPrefix(all: seq<Item>, offsets: seq<int>, more: seq<int>, n: nat, p: Item -> bool)
    requires Offsets(all, offsets) && Offsets(all, more) && offsets <= more && n <= |offsets|
    ensures Keep(all, offsets, n, p) == Keep(all, more, n, p)
  {
    if n > 0 {
      KeepOfPrefix(all, offsets, more, n - 1, p);
    }
  }

  /** Filtering the offsets of a weaker condition gives the scan for the stronger one. */
  lemma {:induction false} KeepOfScan(all: seq<Item>, n: nat, weak: Item -> bool, p: Item -> bool)
    requires n <= |all| && forall it :: p(it) ==> weak(it)
    ensures Offsets(all, Scan(all, n, weak))
    ensures Keep(all, Scan(all, n, weak), |Scan(all, n, weak)|, p) == Scan(all, n, p)
  {
    ScanMeaning(all, n, weak);
    if n > 0 {
      var s := Scan(all, n - 1, weak);
      KeepOfScan(all, n - 1, weak, p);
      assert p(all[n - 1]) ==> weak(all[n - 1]);
      if weak(all[n - 1]) {
        KeepOneMore(all, s, n - 1, p);
        assert Scan(all, n, weak) == s + [n - 1];
      } else {
        assert Scan(all, n, weak) == s;
      }
    }
  }

  lemma KeepOneMore(all: seq<Item>, offsets: seq<int>, i: nat, p: Item -> bool)
    requires Offsets(all, offsets) && i < |all|
    ensures Offsets(all, offsets + [i])
    ensures Keep(all, offsets + [i], |offsets| + 1, p)
            == Keep(all, offsets, |offsets|, p) + if p(all[i]) then [i] else []
  {
    KeepOfPrefix(all, offsets, offsets + [i], |offsets|, p);
  }

  /** A value that no item has is not in the index, and nothing matches. */
  lemma UnknownValue(v: View, q: Query, f: Field)
    requires ValidView(v) && Active(q, f) && Wanted(q, f) !in IndexOf(v, f)
    ensures Scan(v.all, |v.all|, Matching(q)) == []
  {
    assert Indexes(v.all, |v.all|, f, IndexOf(v, f));
    NotIndexedNotFound(v.all, |v.all|, f, IndexOf(v, f), Wanted(q, f));
    KeepOfScan(v.all, |v.all|, Has(f, Wanted(q, f)), Matching(q));
  }

  lemma CandidatesSuffice(v: View, q: Query, f: Field)
    requires ValidView(v) && Active(q, f) && Wanted(q, f) in IndexOf(v, f)
    ensures var list := IndexOf(v, f)[Wanted(q, f)];
            |list| <= |v.all| &&
            (Addressable(v.all) ==>
               Offsets(v.all, list) &&
               Keep(v.all, list, |list|, Matching(q)) == Int32s(Scan(v.all, |v.all|, Matching(q))))
  {
    assert Indexes(v.all, |v.all|, f, IndexOf(v, f));
    ScanMeaning(v.all, |v.all|, Has(f, Wanted(q, f)));
    if Addressable(v.all) {
      KeepOfScan(v.all, |v.all|, Has(f, Wanted(q, f)), Matching(q));
      ScanFits(v.all, Has(f, Wanted(q, f)), f);
      ScanFits(v.all, Matching(q), f);
    }
  }

  /** `candidates` without a value stands for the nil slice: no restriction so far. */
  method Narrow(v: View, q: Query, f: Field, candidates: Option<seq<int>>)
    returns (known: bool, narrowed: Option<seq<int>>)
    ensures known == (Active(q, f) ==> Wanted(q, f) in IndexOf(v, f))
    ensures known && !Active(q, f) ==> narrowed == candidates
    ensures known && Active(q, f) ==>
              var list := IndexOf(v, f)[Wanted(q, f)];
              narrowed == Some(if candidates.None? || |list| < |candidates.value| then list else candidates.value)
  {
    known, narrowed := true, candidates;
    if Active(q, f) {
      var index := IndexOf(v, f);
      if Wanted(q, f) !in index {
        known := false;
        return;
      }
      var list := index[Wanted(q, f)];
      if candidates.None? || |list| < |candidates.value| {
        narrowed := Some(list);
      }
    }
  }

  /** `examined` counts the items the loop looks at. */
  method FilterAll(v: View, q: Query) returns (result: seq<int>, examined: nat)
    ensures result == Int32s(Scan(v.all, |v.all|, Matching(q)))
    ensures examined == |v.all|
  {
    result, examined := [], 0;
    var i := 0;
    while i < |v.all|
      invariant 0 <= i <= |v.all|
      invariant result == Int32s(Scan(v.all, i, Matching(q))) && examined == i
    {
      examined := examined + 1;
      if Wants(q, v.all[i]) {
        Int32sAppend(Scan(v.all, i, Matching(q)), i);
        result := result + [Int32(i)];
      }
      i := i + 1;
    }
  }

  /** No value when an offset is out of range: the handler panics. */
  method FilterCandidates(v: View, q: Query, candidates: seq<int>) returns (result: Option<seq<int>>, examined: nat)
    ensures result.Some? <==> Offsets(v.all, candidates)
    ensures result.Some? ==> result.value == Keep(v.all, candidates, |candidates|, Matching(q))
    ensures examined <= |candidates|
  {
    var kept := [];
    examined := 0;
    var k := 0;
    while k < |candidates|
      invariant 0 <= k <= |candidates| && Offsets(v.all, candidates[..k])
      invariant kept == Keep(v.all, candidates[..k], k, Matching(q)) && examined == k
    {
      examined := examined + 1;
      var i := candidates[k];
      if i < 0 || i >= |v.all| {
        return None, examined;
      }
      assert candidates[..k + 1] == candidates[..k] + [i];
      KeepOneMore(v.all, candidates[..k], i, Matching(q));
      if Wants(q, v.all[i]) {
        kept := kept + [i];
      }
      k := k + 1;
    }
    assert candidates[..k] == candidates;
    result := Some(kept);
  }

  /** How many items the filter with this value lets through by itself. */
  function ListLength(v: View, q: Query, f: Field): nat {
    if Wanted(q, f) in IndexOf(v, f) then |IndexOf(v, f)[Wanted(q, f)]| else 0
  }

  /** The shortest list among those of the active filters; `f` is the filter it belongs to, or
      one whose value no item has. */
  method Candidates(v: View, q: Query) returns (known: bool, candidates: Option<seq<int>>, ghost f: Field)
    ensures !known ==> Active(q, f) && Wanted(q, f) !in IndexOf(v, f)
    ensures known ==> forall g: Field :: Active(q, g) ==> candidates.Some? && |candidates.value| <= ListLength(v, q, g)
    ensures known && candidates.Some? ==>
              Active(q, f) && Wanted(q, f) in IndexOf(v, f) && candidates.value == IndexOf(v, f)[Wanted(q, f)]
  {
    f := NamespaceField;
    known, candidates := Narrow(v, q, NamespaceField, None);
    if !known {
      return;
    }
    var wider := candidates;
    known, candidates := Narrow(v, q, OwnerField, wider);
    if !known || candidates != wider {
      f := OwnerField;
    }
    if !known {
      return;
    }
    wider := candidates;
    known, candidates := Narrow(v, q, OaField, wider);
    if !known || candidates != wider {
      f := OaField;
    }
  }

  /** The offsets that match all filters; no value when it panics. As long as 32 bits suffice for the indexes it is the
      linear scan, and in any case it looks at no more items than any active filter's own list has. */
  method MatchOffsets(v: View, q: Query) returns (result: Option<seq<int>>, examined: nat)
    requires ValidView(v)
    ensures Addressable(v.all) ==> result == Some(Int32s(Scan(v.all, |v.all|, Matching(q))))
    ensures forall f: Field :: Active(q, f) ==> examined <= ListLength(v, q, f)
    ensures examined <= |v.all|
  {
    var known, candidates, f := Candidates(v, q);
    if !known {
      UnknownValue(v, q, f);
      result, examined := Some([]), 0;
    } else if candidates.None? {
      var found, all := FilterAll(v, q);
      result, examined := Some(found), all;
    } else {
      CandidatesSuffice(v, q, f);
      result, examined := FilterCandidates(v, q, candidates.value);
    }
  }
}
