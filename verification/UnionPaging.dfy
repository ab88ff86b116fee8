/** Paging: the clamping every list shares, and the union view that pages over two blocks. */
module UnionPaging {
  import opened Option

  const MAX_PAGE_SIZE := 200
  const DEFAULT_PAGE_SIZE := 20

  /** A query number as it arrives: None stands for a missing value or NaN. */
  type QueryNumber = Option<real>

  datatype Meta = Meta(total: nat, page: int, pageSize: int, totalPages: int, hasNextPage: bool, hasPreviousPage: bool)

  datatype Page<T> = Page(data: seq<T>, meta: Meta)

  function Max(a: int, b: int): int {
    if a < b then b else a
  }

  function Min(a: int, b: int): int {
    if a < b then a else b
  }

  /** `value || fallback`: zero counts as missing. */
  function OrElse(value: QueryNumber, fallback: real): real {
    if value.None? || value.value == 0.0 then fallback else value.value
  }

  function PageNumber(page: QueryNumber): (r: int)
    ensures r >= 1
    ensures page.Some? && page.value >= 1.0 ==> r as real <= page.value < r as real + 1.0
  {
    Max(1, OrElse(page, 1.0).Floor)
  }

  function PageSize(pageSize: QueryNumber): (r: int)
    ensures 1 <= r <= MAX_PAGE_SIZE
    ensures pageSize.Some? && 1.0 <= pageSize.value < MAX_PAGE_SIZE as real + 1.0 ==> r as real <= pageSize.value < r as real + 1.0
  {
    Min(MAX_PAGE_SIZE, Max(1, OrElse(pageSize, DEFAULT_PAGE_SIZE as real).Floor))
  }

  function CeilDiv(n: nat, d: int): int
    requires d > 0
  {
    (n + d - 1) / d
  }

  function BuildPaginationMeta(total: nat, page: int, pageSize: int): Meta
    requires pageSize > 0
  {
    var totalPages := if total == 0 then 1 else CeilDiv(total, pageSize);
    Meta(total, page, pageSize, totalPages, page < totalPages, page > 1)
  }

  /** `slice(skip, skip + take)`, and SKIP/TAKE alike: short or empty past the end. */
  function Window<T>(xs: seq<T>, skip: nat, take: nat): seq<T> {
    xs[Min(skip, |xs|)..Min(skip + take, |xs|)]
  }

  function PaginateInMemory<T>(rows: seq<T>, page: QueryNumber, pageSize: QueryNumber): Page<T> {
    var p, size := PageNumber(page), PageSize(pageSize);
    Offsets(p, size);
    Page(Window(rows, (p - 1) * size, size), BuildPaginationMeta(|rows|, p, size))
  }

  /** One page of the union view, split across the two blocks: `size` rows from `offset` on. */
  function UnionSlice<T>(projected: seq<T>, unprojected: seq<T>, wantsUnprojected: bool, offset: nat, size: nat): seq<T> {
    var takeProjected := Max(0, Min(size, |projected| - offset));
    var takeUnprojected := Max(0, size - takeProjected);
    var skipUnprojected := Max(0, offset - |projected|);
    var projectedRows := if takeProjected > 0 then Window(projected, offset, takeProjected) else [];
    var unprojectedRows := if takeUnprojected > 0 && wantsUnprojected then Window(unprojected, skipUnprojected, takeUnprojected) else [];
    projectedRows + unprojectedRows
  }

  /**
   * The union view: projected rows first, then the unprojected ones. `hasOfficer`
   * leaves the unprojected block out altogether.
   */
  function AllCustomers<T>(projected: seq<T>, unprojected: seq<T>, hasOfficer: Option<bool>, page: QueryNumber, pageSize: QueryNumber): Page<T> {
    var p, size := PageNumber(page), PageSize(pageSize);
    Offsets(p, size);
    var wantsUnprojected := hasOfficer != Some(true);
    var total := |projected| + if wantsUnprojected then |unprojected| else 0;
    Page(UnionSlice(projected, unprojected, wantsUnprojected, (p - 1) * size, size), BuildPaginationMeta(total, p, size))
  }

  /** What the union view pages over. */
  function Union<T>(projected: seq<T>, unprojected: seq<T>, hasOfficer: Option<bool>): seq<T> {
    if hasOfficer == Some(true) then projected else projected + unprojected
  }

  lemma Offsets(page: int, pageSize: int)
    requires page >= 1 && pageSize >= 1
    ensures (page - 1) * pageSize >= 0
  {
  }

  // ---------------------------------------------------------------- laws

  /** Two blocks paged separately are one list paged once: any page, any sizes, any split. */
  lemma UnionPageIsSlice<T>(projected: seq<T>, unprojected: seq<T>, hasOfficer: Option<bool>, page: QueryNumber, pageSize: QueryNumber)
    ensures AllCustomers(projected, unprojected, hasOfficer, page, pageSize) ==
            PaginateInMemory(Union(projected, unprojected, hasOfficer), page, pageSize)
  {
    UnionTotal(projected, unprojected, hasOfficer);
    UnionPageData(projected, unprojected, hasOfficer, page, pageSize);
  }

  lemma UnionPageData<T>(projected: seq<T>, unprojected: seq<T>, hasOfficer: Option<bool>, page: QueryNumber, pageSize: QueryNumber)
    ensures AllCustomers(projected, unprojected, hasOfficer, page, pageSize).data ==
            PaginateInMemory(Union(projected, unprojected, hasOfficer), page, pageSize).data
  {
    var p, size := PageNumber(page), PageSize(pageSize);
    Offsets(p, size);
    UnionSliceIsWindow(projected, unprojected, hasOfficer, (p - 1) * size, size);
  }

  lemma UnionTotal<T>(projected: seq<T>, unprojected: seq<T>, hasOfficer: Option<bool>)
    ensures |Union(projected, unprojected, hasOfficer)| == |projected| + if hasOfficer != Some(true) then |unprojected| else 0
  {
  }

  lemma UnionSliceIsWindow<T>(projected: seq<T>, unprojected: seq<T>, hasOfficer: Option<bool>, offset: nat, size: nat)
    ensures UnionSlice(projected, unprojected, hasOfficer != Some(true), offset, size) ==
            Window(Union(projected, unprojected, hasOfficer), offset, size)
  {
    if hasOfficer == Some(true) {
      ShortWindow(projected, offset, size);
    } else {
      SplitWindow(projected, unprojected, offset, size);
      EmptyWindow(projected, offset);
      EmptyWindow(unprojected, Max(0, offset - |projected|));
    }
  }

  lemma EmptyWindow<T>(xs: seq<T>, skip: nat)
    ensures Window(xs, skip, 0) == []
  {
  }

  lemma ShortWindow<T>(xs: seq<T>, offset: nat, size: nat)
    ensures var take := Max(0, Min(size, |xs| - offset));
            Window(xs, offset, size) == Window(xs, offset, take) && (take == 0 ==> Window(xs, offset, size) == [])
  {
  }

  /** A window over a concatenation is a window over each part. */
  lemma SplitWindow<T>(xs: seq<T>, ys: seq<T>, offset: nat, size: nat)
    ensures var take := Max(0, Min(size, |xs| - offset));
            Window(xs + ys, offset, size) == Window(xs, offset, take) + Window(ys, Max(0, offset - |xs|), Max(0, size - take))
  {
    var n := |xs|;
    var a, b := Min(offset, n + |ys|), Min(offset + size, n + |ys|);
    if b <= n {
      SliceOfFirst(xs, ys, a, b);
      EmptyWindow(ys, 0);
    } else if n <= a {
      SliceOfSecond(xs, ys, a, b);
      EmptyWindow(xs, offset);
    } else {
      SliceOfBoth(xs, ys, a, b);
    }
  }

  lemma SliceOfFirst<T>(xs: seq<T>, ys: seq<T>, a: nat, b: nat)
    requires a <= b <= |xs|
    ensures (xs + ys)[a..b] == xs[a..b]
  {
  }

  lemma SliceOfSecond<T>(xs: seq<T>, ys: seq<T>, a: nat, b: nat)
    requires |xs| <= a <= b <= |xs| + |ys|
    ensures (xs + ys)[a..b] == ys[a - |xs|..b - |xs|]
  {
  }

  lemma SliceOfBoth<T>(xs: seq<T>, ys: seq<T>, a: nat, b: nat)
    requires a <= |xs| <= b <= |xs| + |ys|
    ensures (xs + ys)[a..b] == xs[a..|xs|] + ys[0..b - |xs|]
  {
  }

  /** There is a next page exactly when rows remain beyond this one, whatever page was asked for. */
  lemma NextPageMeansMoreRows(total: nat, page: int, pageSize: int)
    requires page >= 1 && pageSize >= 1
    ensures BuildPaginationMeta(total, page, pageSize).hasNextPage <==> page * pageSize < total
    ensures BuildPaginationMeta(total, page, pageSize).totalPages >= 1
  {
    if total > 0 {
      var q := CeilDiv(total, pageSize);
      CeilBounds(total, pageSize, q);
      if page < q {
        MulMonotone(page, q - 1, pageSize);
      } else {
        MulMonotone(q, page, pageSize);
      }
    } else {
      Offsets(page + 1, pageSize);
    }
  }

  lemma CeilBounds(n: nat, d: int, q: int)
    requires d > 0 && q == (n + d - 1) / d
    ensures (q - 1) * d < n <= q * d || (n == 0 && q == 0)
    ensures n > 0 ==> q >= 1
  {
    var r := (n + d - 1) % d;
    assert n + d - 1 == q * d + r;
    assert (q - 1) * d == q * d - d;
  }

  lemma MulMonotone(a: int, b: int, d: int)
    requires a <= b && d >= 0
    ensures a * d <= b * d
  {
  }

  /** Pages 1 to `n`, one after another. */
  function FirstPages<T>(page: int -> seq<T>, n: nat): seq<T> {
    if n == 0 then [] else FirstPages(page, n - 1) + page(n)
  }

  /** The pages of the union view, by number. */
  function UnionPages<T>(projected: seq<T>, unprojected: seq<T>, hasOfficer: Option<bool>, pageSize: QueryNumber): int -> seq<T> {
    n => AllCustomers(projected, unprojected, hasOfficer, Some(n as real), pageSize).data
  }

  lemma WholePageNumber(n: int)
    requires n >= 1
    ensures PageNumber(Some(n as real)) == n
  {
  }

  lemma PageData<T>(projected: seq<T>, unprojected: seq<T>, hasOfficer: Option<bool>, n: int, pageSize: QueryNumber, skip: nat)
    requires n >= 1 && skip == (n - 1) * PageSize(pageSize)
    ensures AllCustomers(projected, unprojected, hasOfficer, Some(n as real), pageSize).data ==
            Window(Union(projected, unprojected, hasOfficer), skip, PageSize(pageSize))
  {
    UnionPageIsSlice(projected, unprojected, hasOfficer, Some(n as real), pageSize);
    WholePageNumber(n);
  }

  /** `n` pages' worth of rows. */
  function RowsOf(n: nat, size: nat): nat {
    if n == 0 then 0 else RowsOf(n - 1, size) + size
  }

  lemma {:induction false} RowsOfIsProduct(n: nat, size: nat)
    ensures RowsOf(n, size) == n * size
  {
    if n > 0 {
      RowsOfIsProduct(n - 1, size);
      assert n * size == (n - 1) * size + size;
    }
  }

  /** These rows are the window that the page's number says. */
  predicate IsPage<T(==)>(rows: seq<T>, all: seq<T>, n: nat, size: nat) {
    n >= 1 && rows == Window(all, RowsOf(n - 1, size), size)
  }

  ghost predicate ArePagesOf<T>(page: int -> seq<T>, all: seq<T>, size: nat) {
    forall n: nat :: n >= 1 ==> IsPage(page(n), all, n, size)
  }

  lemma {:induction false} FirstPagesArePrefix<T>(all: seq<T>, page: int -> seq<T>, n: nat, size: nat)
    requires ArePagesOf(page, all, size)
    ensures FirstPages(page, n) == all[..Min(RowsOf(n, size), |all|)]
  {
    if n > 0 {
      FirstPagesArePrefix(all, page, n - 1, size);
      assert IsPage(page(n), all, n, size);
      Extend(all, RowsOf(n - 1, size), size);
    }
  }

  lemma Extend<T>(xs: seq<T>, skip: nat, take: nat)
    ensures xs[..Min(skip, |xs|)] + Window(xs, skip, take) == xs[..Min(skip + take, |xs|)]
  {
  }

  lemma {:induction false} RowsOfGrows(n: nat, m: nat, size: nat)
    requires n <= m
    ensures RowsOf(n, size) <= RowsOf(m, size)
    decreases m
  {
    if n < m {
      RowsOfGrows(n, m - 1, size);
    }
  }

  /** The pages of a list up to one that reaches its end hold every row once, in order, and the later ones none. */
  lemma PagesTile<T>(all: seq<T>, page: int -> seq<T>, size: nat, last: nat, beyond: int)
    requires ArePagesOf(page, all, size) && RowsOf(last, size) >= |all|
    ensures FirstPages(page, last) == all
    ensures beyond > last ==> page(beyond) == []
  {
    FirstPagesArePrefix(all, page, last, size);
    if beyond > last {
      assert IsPage(page(beyond), all, beyond, size);
      RowsOfGrows(last, beyond - 1, size);
    }
  }

  lemma UnionPageIsWindow<T>(projected: seq<T>, unprojected: seq<T>, hasOfficer: Option<bool>, pageSize: QueryNumber, n: nat)
    requires n >= 1
    ensures IsPage(
              UnionPages(projected, unprojected, hasOfficer, pageSize)(n), Union(projected, unprojected, hasOfficer), n, PageSize(pageSize))
  {
    RowsOfIsProduct(n - 1, PageSize(pageSize));
    PageData(projected, unprojected, hasOfficer, n, pageSize, RowsOf(n - 1, PageSize(pageSize)));
  }

  lemma UnionPagesAreWindows<T>(projected: seq<T>, unprojected: seq<T>, hasOfficer: Option<bool>, pageSize: QueryNumber)
    ensures ArePagesOf(
              UnionPages(projected, unprojected, hasOfficer, pageSize), Union(projected, unprojected, hasOfficer), PageSize(pageSize))
  {
    var page, all, size := UnionPages(projected, unprojected, hasOfficer, pageSize), Union(projected, unprojected, hasOfficer), PageSize(pageSize);
    forall n: nat | n >= 1
      ensures IsPage(page(n), all, n, size)
    {
      UnionPageIsWindow(projected, unprojected, hasOfficer, pageSize, n);
    }
  }

  /**
   * Walking the union view from page 1 to its last page yields every row once,
   * in order; and every page after that is empty.
   */
  lemma PagesTileTheUnion<T>(projected: seq<T>, unprojected: seq<T>, hasOfficer: Option<bool>, pageSize: QueryNumber, beyond: int)
    ensures var page := UnionPages(projected, unprojected, hasOfficer, pageSize);
            var totalPages := AllCustomers(projected, unprojected, hasOfficer, None, pageSize).meta.totalPages;
            totalPages >= 1 && FirstPages(page, totalPages) == Union(projected, unprojected, hasOfficer) &&
            (beyond > totalPages ==> page(beyond) == [])
  {
    var totalPages := TotalPages(projected, unprojected, hasOfficer, pageSize);
    UnionPagesAreWindows(projected, unprojected, hasOfficer, pageSize);
    PagesTile(
      Union(projected, unprojected, hasOfficer), UnionPages(projected, unprojected, hasOfficer, pageSize), PageSize(pageSize), totalPages, beyond);
  }

  lemma TotalPages<T>(projected: seq<T>, unprojected: seq<T>, hasOfficer: Option<bool>, pageSize: QueryNumber) returns (totalPages: nat)
    ensures totalPages == AllCustomers(projected, unprojected, hasOfficer, None, pageSize).meta.totalPages >= 1
    ensures RowsOf(totalPages, PageSize(pageSize)) >= |Union(projected, unprojected, hasOfficer)|
  {
    var all, size := Union(projected, unprojected, hasOfficer), PageSize(pageSize);
    UnionPageIsSlice(projected, unprojected, hasOfficer, None, pageSize);
    LastPageReachesTheEnd(|all|, size);
    totalPages := BuildPaginationMeta(|all|, 1, size).totalPages;
    RowsOfIsProduct(totalPages, size);
  }

  lemma LastPageReachesTheEnd(total: nat, pageSize: int)
    requires pageSize >= 1
    ensures var totalPages := BuildPaginationMeta(total, 1, pageSize).totalPages;
            totalPages >= 1 && totalPages * pageSize >= total
  {
    if total > 0 {
      CeilBounds(total, pageSize, CeilDiv(total, pageSize));
    }
  }

  /** The union view's own `hasNextPage`, for every page asked for. */
  lemma UnionHasNextPage<T>(projected: seq<T>, unprojected: seq<T>, hasOfficer: Option<bool>, page: QueryNumber, pageSize: QueryNumber)
    ensures AllCustomers(projected, unprojected, hasOfficer, page, pageSize).meta.hasNextPage <==>
            PageNumber(page) * PageSize(pageSize) < |Union(projected, unprojected, hasOfficer)|
  {
    UnionPageIsSlice(projected, unprojected, hasOfficer, page, pageSize);
    NextPageMeansMoreRows(|Union(projected, unprojected, hasOfficer)|, PageNumber(page), PageSize(pageSize));
  }

  /** What the meta block says, and what a missing or extreme page or size is read as. */
  lemma MetaMeans<T>(projected: seq<T>, unprojected: seq<T>, hasOfficer: Option<bool>, page: QueryNumber, pageSize: QueryNumber)
    ensures var m := AllCustomers(projected, unprojected, hasOfficer, page, pageSize).meta;
            m.total == (if hasOfficer == Some(true) then |projected| else |projected| + |unprojected|) &&
            m.page == PageNumber(page) && m.pageSize == PageSize(pageSize) && (m.hasPreviousPage <==> m.page > 1) &&
            m.totalPages >= 1 && m.totalPages * m.pageSize >= m.total && (m.total > 0 ==> (m.totalPages - 1) * m.pageSize < m.total) &&
            (m.total == 0 ==> m.totalPages == 1)
    ensures PageNumber(None) == 1 && PageSize(None) == 20 && PageSize(Some(0.0)) == 20
    ensures page.Some? && page.value < 1.0 ==> PageNumber(page) == 1
    ensures pageSize.Some? && pageSize.value >= 200.0 ==> PageSize(pageSize) == 200
    ensures pageSize.Some? && pageSize.value != 0.0 && pageSize.value < 1.0 ==> PageSize(pageSize) == 1
  {
    var total := |Union(projected, unprojected, hasOfficer)|;
    UnionTotal(projected, unprojected, hasOfficer);
    if total > 0 {
      CeilBounds(total, PageSize(pageSize), CeilDiv(total, PageSize(pageSize)));
    }
  }
}
