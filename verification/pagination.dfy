/** The pagination arithmetic repeated in the listing handlers: reading `page` and `limit`,
    `skip = (page - 1) * limit`, `totalPages = Math.ceil(total / limit)`, and the
    `hasNextPage` / `hasPrevPage` flags. */
module Pagination {
  import opened Common

  /** `parseInt(q) || fallback`: an absent or unparsable value (`None`, JavaScript's NaN) and
      0 both fall back. */
  function ParsedOr(parsed: Option<int>, fallback: int): (r: int)
    ensures r == fallback || parsed == Some(r)
    ensures r != 0 || fallback == 0
    ensures parsed.Some? && parsed.value != 0 ==> r == parsed.value
  {
    if parsed.None? || parsed.value == 0 then fallback else parsed.value
  }

  /** A query value read with a destructuring default (`const { page = 1 } = req.query`):
      the default applies only when the value is absent, so 0 is kept. */
  function GivenOr(given: Option<int>, fallback: int): int
  {
    if given.None? then fallback else given.value
  }

  /** `(page - 1) * limit` */
  function Skip(page: int, limit: int): int
  {
    (page - 1) * limit
  }

  /** The JavaScript numbers `Math.ceil(total / limit)` can produce for integer operands. */
  datatype PageCount = Pages(n: int) | Infinity | NaN

  /** `Math.ceil(total / limit)`. For a positive limit the result is the least page count that
      covers `total` items; for a negative one it is the mirror image; dividing by 0 gives
      Infinity, or NaN when there are no items either. */
  function TotalPages(total: nat, limit: int): (r: PageCount)
    ensures limit > 0 ==> r.Pages? && (r.n - 1) * limit < total <= r.n * limit
    ensures limit > 0 ==> r.n >= 0 && (r.n == 0 <==> total == 0)
    ensures limit < 0 ==> r.Pages? && r.n * limit <= total < (r.n - 1) * limit
    ensures limit == 0 ==> r == if total == 0 then NaN else Infinity
  {
    if limit == 0 then (if total == 0 then NaN else Infinity)
    else if limit > 0 then
      var n := (total + limit - 1) / limit;
      CeilBounds(total, limit);
      Pages(n)
    else
      var n := -(total / -limit);
      FloorBounds(total, -limit);
      Pages(n)
  }

  lemma CeilBounds(total: nat, limit: int)
    requires limit > 0
    ensures var n := (total + limit - 1) / limit;
      n >= 0 && (n - 1) * limit < total <= n * limit && (n == 0 <==> total == 0)
  {
    var n := (total + limit - 1) / limit;
    var q := total + limit - 1;
    assert q == n * limit + q % limit;
    assert (n - 1) * limit == n * limit - limit;
  }

  lemma FloorBounds(total: nat, d: int)
    requires d > 0
    ensures var f := total / d; f * d <= total < (f + 1) * d
  {
    var f := total / d;
    assert total == f * d + total % d;
    assert (f + 1) * d == f * d + d;
  }

  /** `page < totalPages`, with JavaScript's comparisons against Infinity and NaN. */
  function HasNextPage(page: int, totalPages: PageCount): bool
  {
    match totalPages
    case Pages(n) => page < n
    case Infinity => true
    case NaN => false
  }

  /** The `pagination` object a listing returns. */
  datatype Meta = Meta(currentPage: int, totalPages: PageCount, totalItems: nat,
                       hasNextPage: bool, hasPrevPage: bool)

  /** One page of a listing: the ids of the documents on it and the pagination object. */
  datatype Listing = Listing(items: seq<Id>, pagination: Meta)

  lemma MultiplyMonotone(a: int, b: int, limit: int)
    requires a <= b && limit > 0
    ensures a * limit <= b * limit
  {
    assert b * limit - a * limit == (b - a) * limit;
  }

  /** With a positive limit, a page has a successor exactly when some item lies beyond it. */
  lemma {:induction false} NextPageIffMoreItems(page: int, limit: int, total: nat)
    requires limit > 0
    ensures HasNextPage(page, TotalPages(total, limit)) <==> Skip(page + 1, limit) < total
  {
    var n := TotalPages(total, limit).n;
    assert Skip(page + 1, limit) == page * limit;
    if page < n {
      MultiplyMonotone(page, n - 1, limit);
    } else {
      MultiplyMonotone(n, page, limit);
    }
  }

  /** Why the listings read `limit` with `parseInt(limit) || 10`: with a non-zero fallback the
      limit is never 0, so `totalPages` is always a number. */
  lemma ParsedLimitPages(parsed: Option<int>, fallback: int, total: nat)
    requires fallback != 0
    ensures TotalPages(total, ParsedOr(parsed, fallback)).Pages?
  {
  }

  /** A query `limit=0`: read with `parseInt(limit) || 10` it becomes 10 and `totalPages` is a
      number; read with a destructuring default it stays 0 and `totalPages` is Infinity, or NaN
      when there are no items. */
  lemma ZeroLimitQuery(total: nat)
    ensures ParsedOr(Some(0), 10) == 10 && TotalPages(total, ParsedOr(Some(0), 10)).Pages?
    ensures GivenOr(Some(0), 10) == 0 && !TotalPages(total, GivenOr(Some(0), 10)).Pages?
  {
  }

  /** The pagination object for `page`, `limit` and a total count. */
  function MetaFor(page: int, limit: int, total: nat): (m: Meta)
    ensures m.currentPage == page && m.totalItems == total
    ensures m.totalPages == TotalPages(total, limit)
    ensures m.hasPrevPage <==> page > 1
    ensures limit > 0 ==> (m.hasNextPage <==> Skip(page + 1, limit) < total)
  {
    var pages := TotalPages(total, limit);
    var m := Meta(page, pages, total, HasNextPage(page, pages), page > 1);
    if limit > 0 then NextPageIffMoreItems(page, limit, total); m else m
  }
}
