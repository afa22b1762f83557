/**
Answering a list request: the page parameters, the page window in 64-bit arithmetic, and
what the answer means in terms of the items themselves.
*/
module ListQuery {
  import opened Wrappers
  import opened Sorting
  import opened Snapshot
  import opened Text

  const DEFAULT_PAGE_SIZE: int := 50
  const MAX_PAGE: int := 0x4000_0000
  const INT_MAX: int := 0x7fff_ffff_ffff_ffff

  /** Go's int: a result outside the range wraps around. */
  function Wrap(x: int): (r: int)
    ensures -INT_MAX - 1 <= r <= INT_MAX
    ensures -INT_MAX - 1 <= x <= INT_MAX ==> r == x
  {
    var m := x % 0x1_0000_0000_0000_0000;
    if m <= INT_MAX then m else m - 0x1_0000_0000_0000_0000
  }

  lemma WrapKeepsLowBits(x: int)
    ensures (Wrap(x) - x) % 0x1_0000_0000_0000_0000 == 0
  {
    assert (x % 0x1_0000_0000_0000_0000 - x) % 0x1_0000_0000_0000_0000 == 0;
  }

  // ----- parameters -----

  datatype Paging = Paging(page: int, pageSize: int, paginated: bool)

  datatype BadParam = BadPage | BadPageSize

  /** `atoi` is strconv.Atoi: no value when the text is not a number that fits. */
  function ParsePagination(pageStr: string, sizeStr: string, atoi: string -> Option<int>, maxSize: int)
    : (r: Result<Paging, BadParam>)
    requires maxSize > 0
    ensures r.Ok? && r.value.paginated ==> 1 <= r.value.page <= 0x4000_0000 && 1 <= r.value.pageSize
    ensures r.Ok? && r.value.paginated ==>
              && (if pageStr == "" then r.value.page == 1 else atoi(pageStr) == Some(r.value.page))
              && (sizeStr == "" ==> r.value.pageSize == 50)
              && (sizeStr != "" && r.value.pageSize < maxSize ==> atoi(sizeStr) == Some(r.value.pageSize))
              && (sizeStr != "" && r.value.pageSize == maxSize ==> atoi(sizeStr).Some? && atoi(sizeStr).value >= maxSize)
    ensures r.Ok? && r.value.paginated ==>
              (r.value.pageSize <= maxSize || sizeStr == "")
    ensures r.Ok? ==> (r.value.paginated <==> pageStr != "" || sizeStr != "")
    ensures r.Err? <==>
              (pageStr != "" && (atoi(pageStr).None? || !(1 <= atoi(pageStr).value <= MAX_PAGE))) ||
              (sizeStr != "" && (atoi(sizeStr).None? || atoi(sizeStr).value < 1))
    ensures r == Err(BadPage) <==> pageStr != "" && (atoi(pageStr).None? || !(1 <= atoi(pageStr).value <= MAX_PAGE))
  {
    if pageStr == "" && sizeStr == "" then Ok(Paging(1, 0, false))
    else
      var page := if pageStr == "" then Some(1) else atoi(pageStr);
      if page.None? || page.value < 1 || page.value > MAX_PAGE then Err(BadPage)
      else if sizeStr == "" then Ok(Paging(page.value, DEFAULT_PAGE_SIZE, true))
      else
        var size := atoi(sizeStr);
        if size.None? || size.value < 1 then Err(BadPageSize)
        else Ok(Paging(page.value, if size.value > maxSize then maxSize else size.value, true))
  }

  /** Every request that is accepted with page and page size in these bounds. */
  predicate Acceptable(page: int, pageSize: int, maxSize: int) {
    1 <= page <= MAX_PAGE && 1 <= pageSize && (pageSize <= maxSize || pageSize == DEFAULT_PAGE_SIZE)
  }

  /** Those are the bounds: whatever lies in them can be requested, and nothing else is accepted. */
  lemma AcceptableIsAccepted(page: int, pageSize: int, atoi: string -> Option<int>, maxSize: int)
    returns (pageStr: string, sizeStr: string)
    requires 0 < maxSize <= INT_MAX && ReadsNumerals(atoi) && Acceptable(page, pageSize, maxSize)
    ensures ParsePagination(pageStr, sizeStr, atoi, maxSize) == Ok(Paging(page, pageSize, true))
  {
    pageStr, sizeStr := NatToString(page), if pageSize <= maxSize then NatToString(pageSize) else "";
  }

  /** What is assumed of strconv.Atoi: it reads the decimal numeral of every number that fits. */
  ghost predicate ReadsNumerals(atoi: string -> Option<int>) {
    forall n: nat :: n <= INT_MAX ==> atoi(NatToString(n)) == Some(n)
  }

  /** The offset of a page is computed without overflow for every accepted request exactly when
      the configured maximal page size is at most 2^33 + 8. */
  lemma StartOverflowsIff(maxSize: int)
    requires maxSize > 0
    ensures (forall page, size {:trigger Acceptable(page, size, maxSize)} ::
               Acceptable(page, size, maxSize) ==> (page - 1) * size <= INT_MAX)
            <==> maxSize <= 0x2_0000_0008
  {
    if maxSize <= 0x2_0000_0008 {
      forall page, size | Acceptable(page, size, maxSize) ensures (page - 1) * size <= INT_MAX {
        assert size <= 0x2_0000_0008;
        ProductBound(page - 1, size, MAX_PAGE - 1, 0x2_0000_0008);
      }
    } else {
      assert Acceptable(MAX_PAGE, maxSize, maxSize);
      ProductBound(MAX_PAGE - 1, 0x2_0000_0009, MAX_PAGE - 1, maxSize);
    }
  }

  lemma ProductBound(a: int, b: int, c: int, d: int)
    requires 0 <= a <= c && 0 <= b <= d
    ensures 0 <= a * b <= c * d
  {
    assert a * b <= c * b;
    assert c * b <= c * d;
  }

  /** An omitted page size is not subject to the configured cap: with a cap below 50 the cap is
      exceeded, and that is the only way. */
  lemma DefaultIgnoresCap(pageStr: string, sizeStr: string, atoi: string -> Option<int>, maxSize: int)
    requires maxSize > 0 && ParsePagination(pageStr, sizeStr, atoi, maxSize).Ok?
    requires ParsePagination(pageStr, sizeStr, atoi, maxSize).value.paginated
    ensures ParsePagination(pageStr, sizeStr, atoi, maxSize).value.pageSize > maxSize
            <==> sizeStr == "" && maxSize < 50
  {
  }

  // ----- pages -----

  function Min(a: int, b: int): int {
    if a <= b then a else b
  }

  function Page<T>(list: seq<T>, page: int, size: int): seq<T>
    requires page >= 1 && size >= 1
  {
    var start := (page - 1) * size;
    ProductBound(0, 0, page - 1, size);
    if start < |list| then list[start..Min(start + size, |list|)] else []
  }

  function TotalPages(total: nat, size: int): nat
    requires size >= 1
  {
    (total + size - 1) / size
  }

  /** Pages 1 to `k` one after the other. */
  function FirstPages<T>(list: seq<T>, k: nat, size: int): seq<T>
    requires size >= 1
  {
    if k == 0 then [] else FirstPages(list, k - 1, size) + Page(list, k, size)
  }

  lemma {:induction false} FirstPagesArePrefix<T>(list: seq<T>, k: nat, size: int)
    requires size >= 1
    ensures 0 <= k * size && FirstPages(list, k, size) == list[..Min(k * size, |list|)]
  {
    ProductBound(0, 0, k, size);
    if k > 0 {
      FirstPagesArePrefix(list, k - 1, size);
      assert k * size == (k - 1) * size + size;
    }
  }

  lemma TotalPagesBounds(total: nat, size: int)
    requires size >= 1
    ensures TotalPages(total, size) * size >= total
    ensures total > 0 ==> (TotalPages(total, size) - 1) * size < total
    ensures total == 0 ==> TotalPages(total, size) == 0
  {
    var t := TotalPages(total, size);
    var r := (total + size - 1) % size;
    assert total + size - 1 == t * size + r;
    assert (t - 1) * size == t * size - size;
    if total == 0 && t > 0 {
      ProductBound(1, size, t, size);
    }
  }

  /** Pages 1 to totalPages make up the whole list, none of them is empty, none is larger than the
      page size, and every later page is empty. */
  lemma PagesPartition<T>(list: seq<T>, size: int)
    requires size >= 1
    ensures FirstPages(list, TotalPages(|list|, size), size) == list
    ensures forall page {:trigger Page(list, page, size)} :: page >= 1 ==>
              (Page(list, page, size) != [] <==> page <= TotalPages(|list|, size)) && |Page(list, page, size)| <= size
  {
    var t := TotalPages(|list|, size);
    TotalPagesBounds(|list|, size);
    FirstPagesArePrefix(list, t, size);
    assert list[..|list|] == list;
    forall page | page >= 1
      ensures (Page(list, page, size) != [] <==> page <= t) && |Page(list, page, size)| <= size
    {
      ProductBound(0, 0, page - 1, size);
      if page <= t {
        ProductBound(page - 1, size, t - 1, size);
      } else {
        ProductBound(t, size, page - 1, size);
      }
    }
  }

  /** Page `page` is full unless the list ends in it, and has what stands there in the list. */
  lemma PageMeans<T>(list: seq<T>, page: int, size: int)
    requires page >= 1 && size >= 1
    ensures 0 <= (page - 1) * size
    ensures |Page(list, page, size)| == Max(0, Min(size, |list| - (page - 1) * size))
    ensures forall k :: 0 <= k < |Page(list, page, size)| ==>
                          (page - 1) * size + k < |list| && Page(list, page, size)[k] == list[(page - 1) * size + k]
  {
    ProductBound(0, 0, page - 1, size);
  }

  function Max(a: int, b: int): int {
    if a >= b then a else b
  }

  // ----- the answer -----

  datatype Response =
    | Bare(items: seq<Item>)
    | Envelope(items: seq<Item>, total: int, page: int, pageSize: int, totalPages: int)

  function Filter(items: seq<Item>, p: Item -> bool): seq<Item> {
    if items == [] then []
    else Filter(items[..|items| - 1], p) + if p(items[|items| - 1]) then [items[|items| - 1]] else []
  }

  function Pick(all: seq<Item>, offsets: seq<int>): seq<Item>
    requires Offsets(all, offsets)
  {
    seq(|offsets|, k requires 0 <= k < |offsets| => all[offsets[k]])
  }

  lemma {:induction false} PickScanIsFilter(all: seq<Item>, n: nat, p: Item -> bool)
    requires n <= |all|
    ensures Offsets(all, Scan(all, n, p)) && Pick(all, Scan(all, n, p)) == Filter(all[..n], p)
  {
    ScanMeaning(all, n, p);
    if n > 0 {
      PickScanIsFilter(all, n - 1, p);
      assert all[..n][..n - 1] == all[..n - 1] && all[..n][n - 1] == all[n - 1];
      ScanMeaning(all, n - 1, p);
    }
  }

  /** What a request for `q` answers about a list of items: filter, then cut out the page. */
  function Answer(all: seq<Item>, q: Query, paging: Paging): Response
    requires paging.paginated ==> paging.page >= 1 && paging.pageSize >= 1
  {
    var found := Filter(all, Matching(q));
    if !paging.paginated then Bare(found)
    else Envelope(Page(found, paging.page, paging.pageSize), |found|, paging.page, paging.pageSize,
                  TotalPages(|found|, paging.pageSize))
  }

  /** No value when an offset is out of range: the handler panics. */
  method PickAll(all: seq<Item>, offsets: seq<int>) returns (items: Option<seq<Item>>)
    ensures items.Some? <==> Offsets(all, offsets)
    ensures items.Some? ==> items.value == Pick(all, offsets)
  {
    var picked := [];
    var k := 0;
    while k < |offsets|
      invariant 0 <= k <= |offsets| && Offsets(all, offsets[..k])
      invariant picked == Pick(all, offsets[..k])
    {
      var i := offsets[k];
      if i < 0 || i >= |all| {
        return None;
      }
      assert offsets[..k + 1] == offsets[..k] + [i];
      picked := picked + [all[i]];
      k := k + 1;
    }
    assert offsets[..k] == offsets;
    items := Some(picked);
  }

  // The window in the arithmetic of the code.

  function WindowStart(page: int, pageSize: int): int {
    Wrap(Wrap(page - 1) * pageSize)
  }

  function WindowEnd(page: int, pageSize: int, total: nat): int {
    Min(Wrap(WindowStart(page, pageSize) + pageSize), total)
  }

  /** The slice expression is reached with bounds that are out of order or negative. */
  predicate WindowPanics(page: int, pageSize: int, total: nat) {
    WindowStart(page, pageSize) < total && !(0 <= WindowStart(page, pageSize) <= WindowEnd(page, pageSize, total))
  }

  /** Go's division, which truncates. */
  function Quotient(a: int, b: int): int
    requires b > 0
  {
    if a >= 0 then a / b else -(-a / b)
  }

  /** What is left has the sign of the dividend. */
  lemma QuotientTruncates(a: int, b: int)
    requires b > 0
    ensures var rest := a - Quotient(a, b) * b; -b < rest < b && (a >= 0 ==> rest >= 0) && (a <= 0 ==> rest <= 0)
  {
    if a >= 0 {
      assert a == a / b * b + a % b;
    } else {
      assert -a == -a / b * b + -a % b;
      assert -(-a / b) * b == -(-a / b * b);
    }
  }

  /** What a page request that is not refused can have. */
  predicate Parsed(page: int, pageSize: int) {
    1 <= page <= MAX_PAGE && 1 <= pageSize <= INT_MAX
  }

  /** Without overflow in the offset of the page there is none in its end either. */
  lemma WindowIsPage(page: int, pageSize: int, total: nat)
    requires Parsed(page, pageSize) && total <= OFFSETS && (page - 1) * pageSize <= INT_MAX
    ensures WindowStart(page, pageSize) == (page - 1) * pageSize >= 0
    ensures WindowStart(page, pageSize) < total ==>
              WindowEnd(page, pageSize, total) == Min((page - 1) * pageSize + pageSize, total)
    ensures !WindowPanics(page, pageSize, total)
  {
    ProductBound(0, 0, page - 1, pageSize);
    if page > 1 {
      ProductBound(1, pageSize, page - 1, pageSize);
    }
  }

  /** Some accepted request makes the handler panic if and only if the configured maximal page size is above
      2^33 + 8, whatever the number of matching items. */
  lemma PanicsIff(maxSize: int, total: nat)
    requires 0 < maxSize <= INT_MAX && total <= OFFSETS
    ensures (exists page, size {:trigger Acceptable(page, size, maxSize)} ::
               Acceptable(page, size, maxSize) && WindowPanics(page, size, total))
            <==> maxSize > 0x2_0000_0008
  {
    if maxSize > 0x2_0000_0008 {
      assert (MAX_PAGE - 1) * 0x2_0000_0009 == 0x8000_0000_3fff_fff7;
      assert WindowStart(MAX_PAGE, 0x2_0000_0009) == 0x8000_0000_3fff_fff7 - 0x1_0000_0000_0000_0000;
      assert Acceptable(MAX_PAGE, 0x2_0000_0009, maxSize) && WindowPanics(MAX_PAGE, 0x2_0000_0009, total);
    } else {
      StartOverflowsIff(maxSize);
      forall page, size | Acceptable(page, size, maxSize) ensures !WindowPanics(page, size, total) {
        WindowIsPage(page, size, total);
      }
    }
  }

  /** The items from `start` on, with the sum for the end in 64 bits; no value when the slice expression panics. */
  method CutOut(all: seq<Item>, offsets: seq<int>, start: int, pageSize: int) returns (items: Option<seq<Item>>)
    ensures var end := Min(Wrap(start + pageSize), |offsets|);
            Offsets(all, offsets) ==>
              items == if start >= |offsets| then Some([])
                       else if 0 <= start <= end then Some(Pick(all, offsets)[start..end])
                       else None
  {
    if start < |offsets| {
      var end := Min(Wrap(start + pageSize), |offsets|);
      if start < 0 || end < start {
        return None;
      }
      items := PickAll(all, offsets[start..end]);
      assert Offsets(all, offsets) ==> items.value == Pick(all, offsets)[start..end];
      return;
    }
    return Some([]);
  }

  /** The page window; no value when the slice expression panics. */
  method Window(all: seq<Item>, offsets: seq<int>, page: int, pageSize: int) returns (items: Option<seq<Item>>)
    requires Parsed(page, pageSize)
    ensures Offsets(all, offsets) ==> (items.None? <==> WindowPanics(page, pageSize, |offsets|))
    ensures Offsets(all, offsets) && |offsets| <= OFFSETS && (page - 1) * pageSize <= INT_MAX ==>
              items == Some(Page(Pick(all, offsets), page, pageSize))
  {
    if (page - 1) * pageSize <= INT_MAX && |offsets| <= OFFSETS {
      WindowIsPage(page, pageSize, |offsets|);
    }
    var start := Wrap(Wrap(page - 1) * pageSize);
    items := CutOut(all, offsets, start, pageSize);
  }

  method RespondPage(all: seq<Item>, offsets: seq<int>, page: int, pageSize: int) returns (r: Option<Response>)
    requires Parsed(page, pageSize)
    ensures Offsets(all, offsets) ==> (r.None? <==> WindowPanics(page, pageSize, |offsets|))
    ensures Offsets(all, offsets) && |offsets| <= OFFSETS
            && (page - 1) * pageSize <= INT_MAX && |offsets| + pageSize - 1 <= INT_MAX ==>
              r == Some(Envelope(Page(Pick(all, offsets), page, pageSize), |offsets|, page, pageSize,
                                 TotalPages(|offsets|, pageSize)))
  {
    var items := Window(all, offsets, page, pageSize);
    if items.None? {
      return None;
    }
    var total := |offsets|;
    var totalPages := Quotient(Wrap(Wrap(total + pageSize) - 1), pageSize);
    r := Some(Envelope(items.value, total, page, pageSize, totalPages));
  }

  /** The handler of a list request; no value when it panics. As long as 32 bits suffice for all offsets: whenever neither
      the offset of the page nor the sum for the number of pages overflows, the answer is the one
      about the items themselves. */
  method Respond(v: View, q: Query, paging: Paging) returns (r: Option<Response>)
    requires ValidView(v)
    requires paging.paginated ==> Parsed(paging.page, paging.pageSize)
    ensures |v.all| <= OFFSETS ==>
              (r.None? <==> paging.paginated
                            && WindowPanics(paging.page, paging.pageSize, |Filter(v.all, Matching(q))|))
    ensures |v.all| <= OFFSETS && !paging.paginated ==> r == Some(Answer(v.all, q, paging))
    ensures |v.all| <= OFFSETS && paging.paginated && (paging.page - 1) * paging.pageSize <= INT_MAX
            && |Filter(v.all, Matching(q))| + paging.pageSize - 1 <= INT_MAX ==>
              r == Some(Answer(v.all, q, paging))
  {
    if !paging.paginated && q == Query("", "", "") {
      EverythingMatches(v.all, q);
      return Some(Bare(v.all));
    }
    var matched, _ := MatchOffsets(v, q);
    if |v.all| <= OFFSETS {
      FewAreFound(v.all, Matching(q));
    }
    if matched.None? {
      return None;
    }
    var offsets := matched.value;
    if !paging.paginated {
      var items := PickAll(v.all, offsets);
      return if items.None? then None else Some(Bare(items.value));
    }
    r := RespondPage(v.all, offsets, paging.page, paging.pageSize);
  }

  /** Among at most 2^31 items every offset fits, whatever the items are. */
  lemma FewAreFound(all: seq<Item>, p: Item -> bool)
    requires |all| <= OFFSETS
    ensures Addressable(all)
    ensures var found := Int32s(Scan(all, |all|, p));
            Offsets(all, found) && |found| <= |all| && Pick(all, found) == Filter(all, p)
  {
    ScanMeaning(all, |all|, p);
    PickScanIsFilter(all, |all|, p);
    assert all[..|all|] == all;
    assert Int32s(Scan(all, |all|, p)) == Scan(all, |all|, p);
  }

  lemma {:induction false} EverythingMatches(all: seq<Item>, q: Query)
    requires q == Query("", "", "")
    ensures Filter(all, Matching(q)) == all
  {
    if all != [] {
      EverythingMatches(all[..|all| - 1], q);
    }
  }

  /** What is in an unpaged answer, item by item. */
  lemma AnswerMeans(all: seq<Item>, q: Query, paging: Paging, x: Item)
    requires !paging.paginated
    ensures Answer(all, q, paging).Bare?
    ensures multiset(Answer(all, q, paging).items)[x] ==
            if && (q.namespace in {"", "all", "*", "_all"} || x.namespace == q.namespace)
               && (q.owner != "" ==> x.owner == q.owner)
               && (q.oa != "" ==> x.oa == q.oa)
            then multiset(all)[x] else 0
  {
    FilterCounts(all, Matching(q), x);
    MatchingMeans(q, x);
  }

  // ----- filter and sort commute -----

  lemma {:induction false} FilterCounts(items: seq<Item>, p: Item -> bool, x: Item)
    ensures multiset(Filter(items, p))[x] == if p(x) then multiset(items)[x] else 0
  {
    if items != [] {
      FilterCounts(items[..|items| - 1], p, x);
      assert items == items[..|items| - 1] + [items[|items| - 1]];
    }
  }

  lemma FilterKeepsOrder(items: seq<Item>, p: Item -> bool)
    requires SortedBy(NotAfter, items)
    ensures SortedBy(NotAfter, Filter(items, p))
  {
    PickScanIsFilter(items, |items|, p);
    assert items[..|items|] == items;
    ScanMeaning(items, |items|, p);
    var offsets := Scan(items, |items|, p);
    forall i, j | 0 <= i < j < |offsets|
      ensures NotAfter(Pick(items, offsets)[i], Pick(items, offsets)[j])
    {
      assert NotAfter(items[offsets[i]], items[offsets[j]]);
    }
  }

  /** Filtering the sorted items is the same as sorting the filtered ones. */
  lemma FilterThenSort(items: seq<Item>, p: Item -> bool)
    requires DistinctKeys(multiset(items))
    ensures Filter(Sorted(items), p) == Sorted(Filter(items, p))
  {
    var a, b := Filter(Sorted(items), p), Sorted(Filter(items, p));
    NotAfterIsPreorder();
    SortSorts(NotAfter, items);
    SortKeepsElements(NotAfter, items);
    FilterKeepsOrder(Sorted(items), p);
    SortSorts(NotAfter, Filter(items, p));
    SortKeepsElements(NotAfter, Filter(items, p));
    forall x ensures multiset(a)[x] == multiset(b)[x] {
      FilterCounts(Sorted(items), p, x);
      FilterCounts(items, p, x);
    }
    assert multiset(a) == multiset(b);
    forall x, y | x in a && y in a && NotAfter(x, y) && NotAfter(y, x) ensures x == y {
      EquivalentHaveSameKey(x, y);
      FilterCounts(Sorted(items), p, x);
      FilterCounts(Sorted(items), p, y);
      assert x in multiset(a) && y in multiset(a);
      assert x in multiset(items) && y in multiset(items);
    }
    SortedIsUnique(NotAfter, a, b);
  }
}
