// `PagedResult<T>`: one page of a listing, its guards and its page count.
module Paging {
  import opened Wrappers
  import opened Errors

  /** `Math.Ceiling(a / (double)b)` for a positive `b`, on exact integers. */
  function CeilDiv(a: int, b: int): (q: int)
    requires b > 0
    ensures (q - 1) * b < a <= q * b
  {
    -((-a) / b)
  }

  datatype PagedResult<T> = PagedResult(items: seq<T>, page: int, pageSize: int, totalCount: int) {
    /** `TotalPages`: 0 for a non-positive page size, otherwise the number of pages of
        `pageSize` items needed to hold `totalCount` items. */
    function TotalPages(): (n: int)
      ensures pageSize <= 0 ==> n == 0
      ensures pageSize > 0 ==> (n - 1) * pageSize < totalCount <= n * pageSize
    {
      if pageSize <= 0 then 0 else CeilDiv(totalCount, pageSize)
    }
  }

  /** `Create`: the guards on page, page size and total count, checked in that order. */
  function Create<T>(items: seq<T>, page: int, pageSize: int, totalCount: int): (r: Result<PagedResult<T>, Exception>)
    ensures r.Success? <==> page >= 1 && pageSize >= 1 && totalCount >= 0
    ensures r.Success? ==> r.value == PagedResult(items, page, pageSize, totalCount)
  {
    if page < 1 then Failure(ArgumentError(Some("page"), "Page must be >= 1."))
    else if pageSize < 1 then Failure(ArgumentError(Some("pageSize"), "PageSize must be >= 1."))
    else if totalCount < 0 then Failure(ArgumentError(Some("totalCount"), "TotalCount must be >= 0."))
    else Success(PagedResult(items, page, pageSize, totalCount))
  }

  const DefaultPage: int := 1
  const DefaultPageSize: int := 10

  /** `Empty(page, pageSize)`: `Create` with no items and a total count of 0. */
  function Empty<T>(page: int, pageSize: int): Result<PagedResult<T>, Exception> {
    Create([], page, pageSize, 0)
  }

  /** Each guard names its parameter, the page guard winning over the others. */
  lemma CreateGuards<T>(items: seq<T>, page: int, pageSize: int, totalCount: int)
    ensures page < 1 ==> Create(items, page, pageSize, totalCount) == Failure(ArgumentError(Some("page"), "Page must be >= 1."))
    ensures page >= 1 && pageSize < 1 ==>
              Create(items, page, pageSize, totalCount) == Failure(ArgumentError(Some("pageSize"), "PageSize must be >= 1."))
    ensures page >= 1 && pageSize >= 1 && totalCount < 0 ==>
              Create(items, page, pageSize, totalCount) == Failure(ArgumentError(Some("totalCount"), "TotalCount must be >= 0."))
  {
  }

  /** A page built by `Create` has at least one page exactly when its total count is
      positive, and never more pages than items. */
  lemma CreatedPageCount<T>(items: seq<T>, page: int, pageSize: int, totalCount: int)
    requires Create(items, page, pageSize, totalCount).Success?
    ensures var p := Create(items, page, pageSize, totalCount).value;
      && (p.TotalPages() == 0 <==> totalCount == 0)
      && 0 <= p.TotalPages() <= totalCount
  {
    var n := Create(items, page, pageSize, totalCount).value.TotalPages();
    ScaleBounds(n, pageSize);
    ScaleBounds(n - 1, pageSize);
  }

  /** Multiplying by a positive factor moves a number away from zero. */
  lemma ScaleBounds(x: int, b: int)
    requires b >= 1
    ensures x < 0 ==> x * b <= x
    ensures x >= 0 ==> x * b >= x
  {
    assert x * b - x == x * (b - 1);
    if x < 0 {
      assert x * (b - 1) <= 0;
    } else {
      assert x * (b - 1) >= 0;
    }
  }

  /** The default empty page: page 1, ten per page, no items, no pages. */
  lemma EmptyDefaults<T>()
    ensures var e := Empty<T>(DefaultPage, DefaultPageSize);
      e.Success? && e.value.items == [] && e.value.totalCount == 0 && e.value.page == 1
      && e.value.pageSize == 10 && e.value.TotalPages() == 0
  {
  }

  /** An illustration only, not a general property (that is `TotalPages`, with
      `CeilDiv`'s contract): 25 items at 10 a page need 3 pages, 30 need 3, 31 need 4. */
  lemma PageCountExamples<T>(items: seq<T>)
    ensures PagedResult(items, 1, 10, 25).TotalPages() == 3
    ensures PagedResult(items, 1, 10, 30).TotalPages() == 3
    ensures PagedResult(items, 1, 10, 31).TotalPages() == 4
    ensures PagedResult(items, 1, 0, 31).TotalPages() == 0
  {
  }
}
