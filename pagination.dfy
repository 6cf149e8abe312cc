/** The pagination arithmetic of the web API (`web/backend/models/pagination.py`):
  * the offset of a page, and the metadata returned with a page. Python's
  * integers are unbounded, like Dafny's. */
module Pagination {
  import opened Wrappers

  /** `PaginationParams`; pydantic only builds one whose fields pass `Params`. */
  datatype PaginationParams = PaginationParams(page: int, limit: int)

  const MaxLimit: int := 1000

  /** Building `PaginationParams(page=page, limit=limit)`: the page must be at
    * least 1 and the limit between 1 and 1000, or pydantic refuses it. */
  function Params(page: int, limit: int): (r: Result<PaginationParams, PyError>)
    ensures r.Ok? <==> page >= 1 && 1 <= limit <= MaxLimit
    ensures r.Ok? ==> r.value.page == page && r.value.limit == limit
    ensures r.Err? ==> r.error == ValidationError
  {
    if page >= 1 && 1 <= limit <= MaxLimit then Ok(PaginationParams(page, limit)) else Err(ValidationError)
  }

  /** `offset`: the number of items on the pages before this one. */
  function Offset(p: PaginationParams): (r: int)
    ensures p.page >= 1 && p.limit >= 0 ==> r >= 0
  {
    (p.page - 1) * p.limit
  }

  /** Multiplying by a positive number keeps order. */
  lemma MulLess(a: int, b: int, n: int)
    requires n > 0
    ensures a < b <==> a * n < b * n
  {
    if a < b {
      assert b * n - a * n == (b - a) * n;
    } else {
      assert a * n - b * n == (a - b) * n;
    }
  }

  /** The pages of valid parameters cut the items into consecutive runs of
    * `limit`: item `i` (counted from 0) is on exactly one page. */
  lemma PageOfItem(p: PaginationParams, i: nat)
    requires Params(p.page, p.limit).Ok?
    ensures Offset(p) <= i < Offset(p) + p.limit <==> p.page == i / p.limit + 1
  {
    var q := i / p.limit;
    assert i == q * p.limit + i % p.limit;
    assert Offset(p) + p.limit == p.page * p.limit;
    MulLess(p.page - 1, q + 1, p.limit);
    MulLess(q, p.page, p.limit);
  }

  /** `PaginationMeta`. */
  datatype PaginationMeta = PaginationMeta(
    currentPage: int, perPage: int, totalItems: int, totalPages: int, hasNext: bool, hasPrevious: bool)

  /** Python's `a // b`: the quotient rounded down, also for negative
    * operands, where Dafny's `/` would round the other way. */
  function FloorDiv(a: int, b: int): (r: int)
    requires b != 0
    ensures b > 0 ==> r * b <= a < r * b + b
    ensures b < 0 ==> r * b >= a > r * b + b
  {
    if b > 0 then a / b else (-a) / (-b)
  }

  /** `PaginationMeta.create`: the limit is not checked, and a zero limit
    * divides by zero. */
  function Create(page: int, limit: int, totalItems: int): (r: Result<PaginationMeta, PyError>)
    ensures r.Err? <==> limit == 0
    ensures r.Err? ==> r.error == ZeroDivisionError
    ensures r.Ok? ==> r.value.currentPage == page && r.value.perPage == limit && r.value.totalItems == totalItems
    ensures r.Ok? ==> (r.value.hasNext <==> page < r.value.totalPages)
    ensures r.Ok? ==> (r.value.hasPrevious <==> page > 1)
  {
    if limit == 0 then Err(ZeroDivisionError)
    else
      var totalPages := FloorDiv(totalItems + limit - 1, limit);
      Ok(PaginationMeta(page, limit, totalItems, totalPages, page < totalPages, page > 1))
  }

  /** With a positive limit the page count is the ceiling of items over limit:
    * the last page holds between 1 and `limit` items. */
  lemma TotalPagesIsCeiling(page: int, limit: int, totalItems: int)
    requires limit > 0
    ensures var n := Create(page, limit, totalItems).value.totalPages;
      (n - 1) * limit < totalItems <= n * limit
  {
    var n := FloorDiv(totalItems + limit - 1, limit);
    assert n * limit <= totalItems + limit - 1 < n * limit + limit;
    assert (n - 1) * limit == n * limit - limit;
  }

  /** No items give no pages, so no next page for any page from 0 on (only
    * a negative page, which `Params` refuses, would see one). */
  lemma NoItemsNoPages(page: int, limit: int)
    requires limit > 0
    ensures Create(page, limit, 0).value.totalPages == 0
    ensures Create(page, limit, 0).value.hasNext <==> page < 0
  {
    var n := Create(page, limit, 0).value.totalPages;
    TotalPagesIsCeiling(page, limit, 0);
    MulLess(n - 1, 0, limit);
    MulLess(n, 0, limit);
  }

  /** With a positive limit there is a next page exactly when the next page's
    * offset is still before the end of the items. */
  lemma HasNextIffMoreItems(page: int, limit: int, totalItems: int)
    requires limit > 0
    ensures Create(page, limit, totalItems).value.hasNext <==> Offset(PaginationParams(page + 1, limit)) < totalItems
  {
    var n := Create(page, limit, totalItems).value.totalPages;
    TotalPagesIsCeiling(page, limit, totalItems);
    assert Offset(PaginationParams(page + 1, limit)) == page * limit;
    MulLess(page, n, limit);
    MulLess(n - 1, page, limit);
  }
}
