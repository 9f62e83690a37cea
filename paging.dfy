/**
 * The previous/next controls the rules and catalog pages share:
 * `totalPages = Math.ceil(total / pageSize)`, the functional updates
 * `max(1, p - 1)` and `min(totalPages, p + 1)`, and the conditions under
 * which each button is disabled.
 */
module Paging {

  /** `Math.ceil(total / pageSize)`: the least page count whose pages hold `total` rows. */
  function TotalPages(total: int, pageSize: int): (r: int)
    requires pageSize > 0
    ensures (r - 1) * pageSize < total <= r * pageSize
  {
    if total % pageSize == 0 then total / pageSize else total / pageSize + 1
  }

  /** `setPage((p) => Math.max(1, p - 1))` */
  function Prev(p: int): int {
    if p - 1 < 1 then 1 else p - 1
  }

  /** `setPage((p) => Math.min(totalPages, p + 1))` */
  function Next(p: int, totalPages: int): int {
    if totalPages < p + 1 then totalPages else p + 1
  }

  /** The previous button is disabled on page 1 and while a page is loading. */
  predicate PrevEnabled(page: int, loading: bool) {
    !(page == 1 || loading)
  }

  /** The next button is disabled from the last page on and while a page is loading. */
  predicate NextEnabled(page: int, totalPages: int, loading: bool) {
    !(page >= totalPages || loading)
  }

  /**
   * From a page in `[1, totalPages]` both updates stay in that range, and an
   * enabled button moves exactly one page; so the page never leaves the range
   * through these controls.
   */
  lemma StaysInRange(page: int, totalPages: int, loading: bool)
    requires 1 <= page <= totalPages
    ensures 1 <= Prev(page) <= totalPages && 1 <= Next(page, totalPages) <= totalPages
    ensures PrevEnabled(page, loading) ==> Prev(page) == page - 1
    ensures NextEnabled(page, totalPages, loading) ==> Next(page, totalPages) == page + 1
    ensures !PrevEnabled(page, loading) && !loading ==> page == 1
    ensures !NextEnabled(page, totalPages, loading) && !loading ==> page == totalPages
  {
  }

  lemma TotalPagesOfSize(total: int, pageSize: int)
    requires pageSize > 0 && total >= 0
    ensures TotalPages(total, pageSize) >= 0
    ensures TotalPages(total, pageSize) == 0 <==> total == 0
    ensures total > 0 ==> TotalPages(total, pageSize) >= 1
  {
  }

  /**
   * An empty listing has zero pages: on page 1 both buttons are disabled,
   * and the next update, were it applied, would go to page 0.
   */
  lemma EmptyListing(pageSize: int, loading: bool)
    requires pageSize > 0
    ensures TotalPages(0, pageSize) == 0
    ensures !PrevEnabled(1, loading) && !NextEnabled(1, 0, loading)
    ensures Next(1, TotalPages(0, pageSize)) == 0
  {
  }
}
