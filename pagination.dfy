/** The paging shared by the items, users and posts screens
    (frontend/src/routes/_layout/items.tsx, admin.tsx, blog.tsx) and the
    footer that moves between pages
    (frontend/src/components/Common/PaginationFooter.tsx). */
module Pagination {
  import opened Common

  /** The `page` search parameter after `z.number().catch(1)`: a number is
      kept as it is, anything else (None) reads as page 1. */
  function PageFromSearch(raw: Option<int>): (page: int)
    ensures raw.Some? ==> page == raw.value
    ensures raw.None? ==> page == 1
  {
    ValueOr(raw, 1)
  }

  /** The `skip` and `limit` a screen sends for a page. */
  datatype PageQuery = PageQuery(skip: int, limit: int)

  function QueryFor(page: int, perPage: nat): (q: PageQuery)
    ensures q.limit == perPage
    ensures page >= 1 ==> q.skip >= 0
    ensures q.skip + perPage == page * perPage
  {
    PageQuery((page - 1) * perPage, perPage)
  }

  lemma MulMonotone(a: int, b: int, c: nat)
    requires a <= b
    ensures a * c <= b * c
  {
    assert b * c - a * c == (b - a) * c;
  }

  /** Row `k` of a list served with OFFSET/LIMIT is on page `k / perPage + 1`. */
  lemma RowIsOnItsPage<T>(rows: seq<T>, perPage: nat, k: int)
    requires perPage > 0 && 0 <= k < |rows|
    ensures var q := QueryFor(k / perPage + 1, perPage);
      && q.skip <= k < q.skip + perPage
      && Window(rows, q.skip, perPage)[k - q.skip] == rows[k]
  {
    var p := k / perPage;
    assert p * perPage + k % perPage == k;
    assert QueryFor(p + 1, perPage).skip == p * perPage;
  }

  /** ... and on no other page, so the pages partition the list. */
  lemma RowIsOnNoOtherPage(perPage: nat, k: int, other: int)
    requires perPage > 0 && 0 <= k
    requires other >= 1 && other != k / perPage + 1
    ensures var q := QueryFor(other, perPage); !(q.skip <= k < q.skip + perPage)
  {
    var p := k / perPage;
    assert p * perPage + k % perPage == k;
    var q := QueryFor(other, perPage);
    assert q.skip == (other - 1) * perPage;
    if other - 1 < p {
      MulMonotone(other, p, perPage);
      assert q.skip + perPage == other * perPage;
    } else {
      MulMonotone(p + 1, other - 1, perPage);
      assert (p + 1) * perPage == p * perPage + perPage;
    }
  }

  /** `hasNextPage`: fresh (not placeholder) data whose page is full. A
      missing list (`None`) is never full. */
  predicate HasNextPage(isPlaceholder: bool, length: Option<nat>, perPage: nat)
  {
    !isPlaceholder && length == Some(perPage)
  }

  predicate HasPreviousPage(page: int)
  {
    page > 1
  }

  /** The page prefetched after a render: the next one, only when there is one. */
  function Prefetch(hasNext: bool, page: int): (r: Option<int>)
    ensures r.Some? <==> hasNext
    ensures r.Some? ==> r.value == page + 1
  {
    if hasNext then Some(page + 1) else None
  }

  /** A short page is the last: when fresh data shows no next page, the
      next page's window is empty. */
  lemma ShortPageIsLast<T>(rows: seq<T>, perPage: nat, page: int)
    requires page >= 1
    requires var q := QueryFor(page, perPage);
      !HasNextPage(false, Some(|Window(rows, q.skip, q.limit)|), perPage)
    ensures var next := QueryFor(page + 1, perPage); Window(rows, next.skip, next.limit) == []
  {
  }

  /** A full last page still offers Next, and Next then shows an empty page. */
  lemma FullLastPageOffersEmptyNext<T>(rows: seq<T>, perPage: nat, page: int)
    requires page >= 1 && perPage > 0 && |rows| == page * perPage
    ensures var q := QueryFor(page, perPage);
      HasNextPage(false, Some(|Window(rows, q.skip, q.limit)|), perPage)
    ensures var next := QueryFor(page + 1, perPage); Window(rows, next.skip, next.limit) == []
  {
    var q := QueryFor(page, perPage);
    assert q.skip + perPage == |rows|;
  }

  // ---- PaginationFooter ----

  datatype Button = Previous | Next

  /** What the footer shows: which buttons are enabled and the page number shown. */
  datatype Footer = Footer(previousEnabled: bool, shownPage: int, nextEnabled: bool)

  function FooterFor(page: int, hasNext: bool, hasPrevious: bool): (f: Footer)
    ensures !f.previousEnabled <==> !hasPrevious || page <= 1
    ensures !f.nextEnabled <==> !hasNext
    ensures f.shownPage == page
  {
    Footer(hasPrevious && page > 1, page, hasNext)
  }

  /** The page a click asks `onChangePage` for; a disabled button does
      nothing (None). */
  function Requested(page: int, hasNext: bool, hasPrevious: bool, b: Button): (r: Option<int>)
    ensures b.Previous? ==> (r.Some? <==> FooterFor(page, hasNext, hasPrevious).previousEnabled)
    ensures b.Next? ==> (r.Some? <==> FooterFor(page, hasNext, hasPrevious).nextEnabled)
    ensures r.Some? && b.Previous? ==> r.value == page - 1 && r.value >= 1
    ensures r.Some? && b.Next? ==> r.value == page + 1
  {
    var f := FooterFor(page, hasNext, hasPrevious);
    match b
    case Previous => if f.previousEnabled then Some(page - 1) else None
    case Next => if f.nextEnabled then Some(page + 1) else None
  }

  /** With the screens' own `hasPreviousPage`, Previous is enabled exactly
      past page 1, and Previous undoes Next. */
  lemma PreviousUndoesNext(page: int, hasNext: bool, hasNextThere: bool)
    requires hasNext
    ensures FooterFor(page, hasNext, HasPreviousPage(page)).previousEnabled <==> page > 1
    ensures var there := Requested(page, hasNext, HasPreviousPage(page), Next).value;
      there == page + 1
      && (page >= 1 ==> Requested(there, hasNextThere, HasPreviousPage(there), Previous) == Some(page))
  {
  }

  /** A screen's page, which the footer changes by navigation (the search
      parameters with `page` replaced). */
  class PagedScreen {
    var page: int
    const perPage: nat

    constructor (raw: Option<int>, perPage: nat)
      ensures page == PageFromSearch(raw) && this.perPage == perPage
    {
      page := PageFromSearch(raw);
      this.perPage := perPage;
    }

    /** The query for the page on screen. */
    function Query(): (q: PageQuery)
      reads this
      ensures q == QueryFor(page, perPage)
    {
      QueryFor(page, perPage)
    }

    /** A footer click: an enabled button navigates to the page it asks for. */
    method Click(isPlaceholder: bool, length: Option<nat>, b: Button)
      modifies this`page
      ensures var r := Requested(old(page), HasNextPage(isPlaceholder, length, perPage), HasPreviousPage(old(page)), b);
        page == ValueOr(r, old(page))
      ensures old(page) >= 1 ==> page >= 1
    {
      var hasNext := HasNextPage(isPlaceholder, length, perPage);
      var r := Requested(page, hasNext, HasPreviousPage(page), b);
      if r.Some? {
        page := r.value;
      }
    }
  }
}
