/** Ordering and paging of query results: `orderBy`, `latest()` and
    `paginate($perPage)` as the server's queries use them. */
module Sorting {

  /** A total preorder: every two elements compare, and comparison chains. */
  ghost predicate TotalPreorder<T(!new)>(leq: (T, T) -> bool) {
    (forall a, b :: leq(a, b) || leq(b, a))
    && (forall a, b, c :: leq(a, b) && leq(b, c) ==> leq(a, c))
  }

  ghost predicate SortedBy<T>(s: seq<T>, leq: (T, T) -> bool) {
    forall i, j :: 0 <= i < j < |s| ==> leq(s[i], s[j])
  }

  /** Insert `x` before the first element it is less than or equal to. */
  function Insert<T>(x: T, s: seq<T>, leq: (T, T) -> bool): (r: seq<T>)
    ensures multiset(r) == multiset(s) + multiset{x}
    ensures |r| == |s| + 1
  {
    if s == [] then [x]
    else if leq(x, s[0]) then [x] + s
    else
      assert s == [s[0]] + s[1..];
      [s[0]] + Insert(x, s[1..], leq)
  }

  /** Insertion sort; equal elements keep their input order. */
  function SortBy<T>(s: seq<T>, leq: (T, T) -> bool): (r: seq<T>)
    ensures multiset(r) == multiset(s)
    ensures |r| == |s|
  {
    if s == [] then []
    else
      assert s == [s[0]] + s[1..];
      Insert(s[0], SortBy(s[1..], leq), leq)
  }

  lemma {:induction false} InsertSorted<T(!new)>(x: T, s: seq<T>, leq: (T, T) -> bool)
    requires TotalPreorder(leq) && SortedBy(s, leq)
    ensures SortedBy(Insert(x, s, leq), leq)
    decreases |s|
  {
    if s != [] && !leq(x, s[0]) {
      InsertSorted(x, s[1..], leq);
      var r := Insert(x, s, leq);
      var t := Insert(x, s[1..], leq);
      assert r == [s[0]] + t;
      forall j | 0 < j < |r|
        ensures leq(s[0], r[j])
      {
        assert r[j] in multiset(t);
        assert r[j] in multiset(s[1..]) + multiset{x};
        if r[j] != x {
          assert r[j] in multiset(s[1..]);
          assert r[j] in s[1..];
          var k :| 0 <= k < |s[1..]| && s[1..][k] == r[j];
          assert s[k + 1] == r[j];
        }
      }
    }
  }

  /** The sorted result is ordered and is a permutation of the input. */
  lemma {:induction false} SortBySorted<T(!new)>(s: seq<T>, leq: (T, T) -> bool)
    requires TotalPreorder(leq)
    ensures SortedBy(SortBy(s, leq), leq)
    ensures multiset(SortBy(s, leq)) == multiset(s)
    decreases |s|
  {
    if s != [] {
      SortBySorted(s[1..], leq);
      InsertSorted(s[0], SortBy(s[1..], leq), leq);
    }
  }
}

/** Laravel's length-aware paginator over an ordered result. */
module Pagination {
  import opened Wrappers
  import opened JsonValues
  import opened PhpValues

  /** `from` and `to` are null on a page that holds no rows. */
  datatype Meta = Meta(currentPage: nat, from: Option<int>, lastPage: nat, perPage: int, to: Option<int>, total: nat)

  /** Eloquent's page size, used when the requested one is falsy. */
  const ModelPerPage := 15

  /** `Paginator::resolveCurrentPage()`: the `page` input when the integer
      filter accepts it and it is at least 1, else 1. */
  function ResolveCurrentPage(page: Option<Json>): (n: nat)
    ensures n >= 1
    ensures page.Some? && IntegerValue(page.value).Some? && IntegerValue(page.value).value >= 1 ==>
      n == IntegerValue(page.value).value
    ensures page.None? || IntegerValue(page.value).None? || IntegerValue(page.value).value < 1 ==> n == 1
  {
    if page.Some? && IntegerValue(page.value).Some? && IntegerValue(page.value).value >= 1 then IntegerValue(page.value).value
    else 1
  }

  /** The page size `paginate($request->get('per_page', 20))` works with:
      20 when `per_page` is absent; the model's 15 when it is falsy; a
      number, `true` (1) or a numeric integer string as it is. `None` is a
      request that ends in a 500: PHP's arithmetic throws on an array or a
      non-numeric string, and `lastPage` divides by a zero that is not
      falsy (" 0", "00"). */
  function ResolvePerPage(perPage: Option<Json>): (r: Option<int>)
    ensures r.Some? ==> r.value != 0
    ensures perPage.None? ==> r == Some(20)
    ensures perPage.Some? && Falsy(perPage.value) ==> r == Some(ModelPerPage)
    ensures perPage.Some? && perPage.value.JNum? ==> r.Some?
    ensures perPage.Some? && perPage.value.JStr? && !Falsy(perPage.value) ==>
      (r.Some? <==> NumericInteger(perPage.value.s).Some? && NumericInteger(perPage.value.s).value != 0)
  {
    if perPage.None? then Some(20)
    else
      var v := perPage.value;
      if Falsy(v) then Some(ModelPerPage)
      else if v.JNum? then Some(v.n)
      else if v.JBool? then Some(1)
      else if v.JStr? && NumericInteger(v.s).Some? && NumericInteger(v.s).value != 0 then NumericInteger(v.s)
      else None
  }

  /** `lastPage()`: `max(ceil(total / perPage), 1)`, which is 1 whenever
      the page size is negative. */
  function LastPage(total: nat, perPage: int): (n: nat)
    requires perPage != 0
    ensures n >= 1
    ensures perPage > 0 ==> (n - 1) * perPage < total <= n * perPage || (total == 0 && n == 1)
    ensures perPage < 0 ==> n == 1
  {
    if perPage < 0 || total == 0 then 1 else (total + perPage - 1) / perPage
  }

  /** The rows of page `page` (1-based) of `rows`: `forPage` offsets by
      `(page - 1) * perPage` and limits to `perPage` rows. A negative size
      makes the offset 0 (`offset` clamps it) and drops the limit (`limit`
      ignores it), so every row is listed. */
  function Page<T>(rows: seq<T>, page: nat, perPage: int): (r: seq<T>)
    requires page >= 1 && perPage != 0
    ensures perPage < 0 ==> r == rows
    ensures perPage > 0 ==> |r| <= perPage
    ensures perPage > 0 ==> forall i :: 0 <= i < |r| ==> (page - 1) * perPage + i < |rows| && r[i] == rows[(page - 1) * perPage + i]
    ensures perPage > 0 && (page - 1) * perPage < |rows| ==> |r| == if page * perPage <= |rows| then perPage else |rows| - (page - 1) * perPage
  {
    if perPage < 0 then rows
    else
      var start := (page - 1) * perPage;
      if start >= |rows| then []
      else rows[start..if page * perPage <= |rows| then page * perPage else |rows|]
  }

  /** The number of rows on page `page` of `total`. */
  function PageCount(total: nat, page: nat, perPage: int): nat
    requires page >= 1 && perPage != 0
  {
    if perPage < 0 then total
    else if (page - 1) * perPage >= total then 0
    else if page * perPage <= total then perPage
    else total - (page - 1) * perPage
  }

  /** `firstItem()`, `lastItem()` and the rest of the `meta` block: `from`
      is `(page - 1) * perPage + 1` and `to` counts on through the page's
      rows; both are null on an empty page. */
  function MetaFor(total: nat, page: nat, perPage: int): (m: Meta)
    requires page >= 1 && perPage != 0
    ensures m.lastPage == LastPage(total, perPage) && m.total == total && m.perPage == perPage && m.currentPage == page
    ensures m.from.None? <==> (if perPage > 0 then (page - 1) * perPage >= total else total == 0)
    ensures perPage > 0 && m.from.Some? ==>
              && m.to.Some? && 1 <= m.from.value <= m.to.value <= total
              && m.to.value - m.from.value + 1 == (if page * perPage <= total then perPage else total - (page - 1) * perPage)
    ensures perPage < 0 && m.from.Some? ==> m.to.Some? && m.to.value - m.from.value + 1 == total
  {
    var count := PageCount(total, page, perPage);
    if count == 0 then Meta(page, None, LastPage(total, perPage), perPage, None, total)
    else
      var first := (page - 1) * perPage + 1;
      Meta(page, Some(first), LastPage(total, perPage), perPage, Some(first + count - 1), total)
  }

  /** The meta block counts the rows of the page it describes. */
  lemma MetaCountsPage<T>(rows: seq<T>, page: nat, perPage: int)
    requires page >= 1 && perPage != 0
    ensures var m := MetaFor(|rows|, page, perPage);
      && (m.from.None? <==> Page(rows, page, perPage) == [])
      && (m.from.Some? ==> m.to.Some? && m.to.value - m.from.value + 1 == |Page(rows, page, perPage)|)
  {
  }

  /** Pages partition the rows: every row lies on exactly the page its index
      selects, and the last page is the last non-empty one. */
  lemma PagesCover<T>(rows: seq<T>, perPage: nat, i: nat)
    requires perPage > 0 && i < |rows|
    ensures var p := i / perPage + 1;
      p <= LastPage(|rows|, perPage)
      && i - (p - 1) * perPage < |Page(rows, p, perPage)|
      && Page(rows, p, perPage)[i - (p - 1) * perPage] == rows[i]
  {
    var p := i / perPage + 1;
    var q := i / perPage;
    assert q * perPage <= i < q * perPage + perPage;
    assert (p - 1) * perPage == q * perPage && p * perPage == q * perPage + perPage;
    var n := LastPage(|rows|, perPage);
    if p > n {
      MulMonotone(n, p - 1, perPage);
    }
  }

  /** Pages 1 to `n` one after the other, as a list that loads more on
      demand accumulates them. */
  function FirstPages<T>(rows: seq<T>, n: nat, perPage: nat): seq<T>
    requires perPage > 0
  {
    if n == 0 then [] else FirstPages(rows, n - 1, perPage) + Page(rows, n, perPage)
  }

  /** Appending pages 1 to `n` gives exactly the first `n * perPage` rows:
      nothing is skipped or repeated. */
  lemma {:induction false} FirstPagesArePrefix<T>(rows: seq<T>, n: nat, perPage: nat)
    requires perPage > 0
    ensures FirstPages(rows, n, perPage) == rows[..if n * perPage <= |rows| then n * perPage else |rows|]
  {
    if n > 0 {
      FirstPagesArePrefix(rows, n - 1, perPage);
      var start := (n - 1) * perPage;
      var stop := n * perPage;
      PageBounds(rows, n, perPage, start, stop);
      var end := if stop <= |rows| then stop else |rows|;
      if start < |rows| {
        assert rows[..start] + rows[start..end] == rows[..end];
      }
    }
  }

  /** Page `n` as a slice between its first offset `start` and the first
      offset `stop` of the page after it. */
  lemma PageBounds<T>(rows: seq<T>, n: nat, perPage: nat, start: int, stop: int)
    requires n >= 1 && perPage > 0 && start == (n - 1) * perPage && stop == n * perPage
    ensures 0 <= start && stop == start + perPage
    ensures start >= |rows| ==> Page(rows, n, perPage) == []
    ensures start < |rows| ==> Page(rows, n, perPage) == rows[start..if stop <= |rows| then stop else |rows|]
  {
  }

  /** Another page follows page `p` exactly when rows remain after it. */
  lemma MorePagesIffRowsRemain(total: nat, p: nat, perPage: nat)
    requires p >= 1 && perPage > 0
    ensures p < LastPage(total, perPage) <==> p * perPage < total
  {
    var n := LastPage(total, perPage);
    if p < n {
      MulMonotone(p, n - 1, perPage);
    } else {
      MulMonotone(n, p, perPage);
    }
  }

  lemma MulMonotone(a: nat, b: nat, c: nat)
    requires a <= b
    ensures a * c <= b * c
  {
  }
}
