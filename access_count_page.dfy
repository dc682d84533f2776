/**
  The access-count page (app/admin/access-count/page.tsx; app/access_count/page.tsx runs
  the same logic): the pagination bar `renderPaginationItems` draws, the "Showing X - Y of N
  records" range, and the table controls (sort column and order, committed search, page)
  that the handlers change and that decide the query `fetchData` sends.
*/
module AccessCountPage {
  import opened Wrappers
  import Text
  import AccessLogService

  /** `maxVisiblePages`: how many consecutive page links the window shows. */
  const MaxVisiblePages := 5

  /** `limit`: the page size, fixed at 10 (its setter is never used). */
  const PageSize := 10

  function Max(a: int, b: int): int { if a >= b then a else b }
  function Min(a: int, b: int): int { if a <= b then a else b }

  /** One entry of the pagination bar: a page link (marked active or not) or an ellipsis. */
  datatype Item = PageLink(n: int, active: bool) | Ellipsis

  /** `startPage` after the left shift that fills the window when it hits the last page. */
  function WindowStart(page: int, totalPages: int): int {
    var start := Max(1, page - MaxVisiblePages / 2);
    var end := Min(totalPages, start + MaxVisiblePages - 1);
    if end - start + 1 < MaxVisiblePages then Max(1, end - MaxVisiblePages + 1) else start
  }

  /** `endPage`, computed from the unshifted start. */
  function WindowEnd(page: int, totalPages: int): int {
    Min(totalPages, Max(1, page - MaxVisiblePages / 2) + MaxVisiblePages - 1)
  }

  /** The first-page link and the leading ellipsis, drawn before a window starting at `start`. */
  function Leading(start: int): seq<Item> {
    if start > 1 then [PageLink(1, false)] + (if start > 2 then [Ellipsis] else []) else []
  }

  /** The window's links `lo..hi`, each active exactly when it is the current page. */
  function WindowLinks(page: int, lo: int, hi: int): (w: seq<Item>)
    ensures |w| == Max(0, hi - lo + 1)
    ensures forall k :: 0 <= k < |w| ==> w[k] == PageLink(lo + k, page == lo + k)
  {
    seq(Max(0, hi - lo + 1), k requires 0 <= k => PageLink(lo + k, page == lo + k))
  }

  /** The window's links up to `hi + 1` are those up to `hi` and one more link. */
  lemma WindowLinksGrow(page: int, lo: int, hi: int)
    requires lo <= hi + 1
    ensures WindowLinks(page, lo, hi + 1) == WindowLinks(page, lo, hi) + [PageLink(hi + 1, page == hi + 1)]
  {
    var longer, shorter := WindowLinks(page, lo, hi + 1), WindowLinks(page, lo, hi);
    assert |longer| == |shorter| + 1;
    forall k | 0 <= k < |longer|
      ensures longer[k] == (shorter + [PageLink(hi + 1, page == hi + 1)])[k]
    {
    }
  }

  /** The trailing ellipsis and the last-page link, drawn after a window ending at `end`. */
  function Trailing(end: int, totalPages: int): seq<Item> {
    if end < totalPages then (if end < totalPages - 1 then [Ellipsis] else []) + [PageLink(totalPages, false)] else []
  }

  /** The whole pagination bar for the current page. */
  function Items(page: int, totalPages: int): seq<Item> {
    var start, end := WindowStart(page, totalPages), WindowEnd(page, totalPages);
    Leading(start) + WindowLinks(page, start, end) + Trailing(end, totalPages)
  }

  /** The loop of `renderPaginationItems`: the links `lo..hi` pushed one at a time. */
  method PushWindowLinks(items: seq<Item>, page: int, lo: int, hi: int) returns (pushed: seq<Item>)
    ensures pushed == items + WindowLinks(page, lo, hi)
  {
    pushed := items;
    var i := lo;
    while i <= hi
      invariant lo <= i <= Max(lo, hi + 1)
      invariant pushed == items + WindowLinks(page, lo, i - 1)
    {
      WindowLinksGrow(page, lo, i - 1);
      Text.ConcatAssoc(items, WindowLinks(page, lo, i - 1), [PageLink(i, page == i)]);
      pushed := pushed + [PageLink(i, page == i)];
      i := i + 1;
    }
    assert WindowLinks(page, lo, i - 1) == WindowLinks(page, lo, hi);
  }

  /**
    `renderPaginationItems`: the window bounds with their left shift, then the first link,
    the window's links in a loop, and the last link, pushed one after another.
  */
  method RenderPaginationItems(page: int, totalPages: int) returns (items: seq<Item>)
    ensures items == Items(page, totalPages)
  {
    items := [];
    var startPage := Max(1, page - MaxVisiblePages / 2);
    var endPage := Min(totalPages, startPage + MaxVisiblePages - 1);
    if endPage - startPage + 1 < MaxVisiblePages {
      startPage := Max(1, endPage - MaxVisiblePages + 1);
    }
    assert startPage == WindowStart(page, totalPages) && endPage == WindowEnd(page, totalPages);
    if startPage > 1 {
      items := items + [PageLink(1, false)];
      if startPage > 2 {
        items := items + [Ellipsis];
      }
    }
    assert items == Leading(startPage);
    items := PushWindowLinks(items, page, startPage, endPage);
    ghost var shown := items;
    if endPage < totalPages {
      if endPage < totalPages - 1 {
        items := items + [Ellipsis];
      }
      items := items + [PageLink(totalPages, false)];
    }
    assert items == shown + Trailing(endPage, totalPages);
  }

  /**
    Whenever there is at least one page, the window lies within `[1, totalPages]` and
    holds exactly `min(5, totalPages)` pages, wherever the current page is.
  */
  lemma WindowBounds(page: int, totalPages: int)
    requires totalPages >= 1
    ensures 1 <= WindowStart(page, totalPages) <= WindowEnd(page, totalPages) <= totalPages
    ensures WindowEnd(page, totalPages) - WindowStart(page, totalPages) + 1 == Min(MaxVisiblePages, totalPages)
  {
  }

  /** A current page within range is always inside the window. */
  lemma WindowHoldsPage(page: int, totalPages: int)
    requires 1 <= page <= totalPages
    ensures WindowStart(page, totalPages) <= page <= WindowEnd(page, totalPages)
  {
  }

  /**
    How long the bar is: the window, plus one item for each of the first link
    (`startPage > 1`), the leading ellipsis (`startPage > 2`), the last link
    (`endPage < totalPages`) and the trailing ellipsis (`endPage < totalPages - 1`).
  */
  lemma ItemsCount(page: int, totalPages: int)
    requires totalPages >= 1
    ensures var start, end := WindowStart(page, totalPages), WindowEnd(page, totalPages);
      |Items(page, totalPages)| == Min(MaxVisiblePages, totalPages)
        + (if start > 1 then 1 else 0) + (if start > 2 then 1 else 0)
        + (if end < totalPages then 1 else 0) + (if end < totalPages - 1 then 1 else 0)
  {
    WindowBounds(page, totalPages);
  }

  /** Links next to each other in the bar are consecutive page numbers. */
  predicate AdjacentLinksConsecutive(items: seq<Item>) {
    forall i :: 0 <= i < |items| - 1 && items[i].PageLink? && items[i + 1].PageLink? ==> items[i + 1].n == items[i].n + 1
  }

  /** Every ellipsis sits between two links and stands for at least one hidden page. */
  predicate EllipsesMarkGaps(items: seq<Item>) {
    forall i :: 0 <= i < |items| && items[i].Ellipsis? ==>
      0 < i < |items| - 1 && items[i - 1].PageLink? && items[i + 1].PageLink? && items[i + 1].n > items[i - 1].n + 1
  }

  /** Where each item of the bar comes from: the leading part, the window, or the trailing part. */
  lemma ItemAt(page: int, totalPages: int, i: int)
    requires 0 <= i < |Items(page, totalPages)|
    ensures var start, end := WindowStart(page, totalPages), WindowEnd(page, totalPages);
      var lead, w := Leading(start), WindowLinks(page, start, end);
      Items(page, totalPages)[i] ==
        if i < |lead| then lead[i]
        else if i < |lead| + |w| then PageLink(start + (i - |lead|), page == start + (i - |lead|))
        else Trailing(end, totalPages)[i - |lead| - |w|]
  {
  }

  /** The bar starts with the link to page 1 and ends with the link to the last page. */
  lemma ItemsEnds(page: int, totalPages: int)
    requires totalPages >= 1
    ensures var items := Items(page, totalPages);
      && |items| > 0
      && items[0].PageLink? && items[0].n == 1
      && items[|items| - 1].PageLink? && items[|items| - 1].n == totalPages
  {
    var start, end := WindowStart(page, totalPages), WindowEnd(page, totalPages);
    WindowBounds(page, totalPages);
    var items := Items(page, totalPages);
    ItemAt(page, totalPages, 0);
    ItemAt(page, totalPages, |items| - 1);
  }

  /** Links next to each other in the bar are consecutive page numbers. */
  lemma ItemsAdjacent(page: int, totalPages: int)
    requires totalPages >= 1
    ensures AdjacentLinksConsecutive(Items(page, totalPages))
  {
    var start, end := WindowStart(page, totalPages), WindowEnd(page, totalPages);
    WindowBounds(page, totalPages);
    var items := Items(page, totalPages);
    var lead, w := Leading(start), WindowLinks(page, start, end);
    forall i | 0 <= i < |items| - 1 && items[i].PageLink? && items[i + 1].PageLink?
      ensures items[i + 1].n == items[i].n + 1
    {
      ItemAt(page, totalPages, i);
      ItemAt(page, totalPages, i + 1);
    }
  }

  /** An ellipsis appears only between two links, and only where pages are skipped. */
  lemma ItemsGaps(page: int, totalPages: int)
    requires totalPages >= 1
    ensures EllipsesMarkGaps(Items(page, totalPages))
  {
    var start, end := WindowStart(page, totalPages), WindowEnd(page, totalPages);
    WindowBounds(page, totalPages);
    var items := Items(page, totalPages);
    forall i | 0 <= i < |items| && items[i].Ellipsis?
      ensures 0 < i < |items| - 1 && items[i - 1].PageLink? && items[i + 1].PageLink? && items[i + 1].n > items[i - 1].n + 1
    {
      ItemAt(page, totalPages, i);
      if i < |Leading(start)| {
        assert i == 1;
        ItemAt(page, totalPages, 0);
        ItemAt(page, totalPages, 2);
      } else {
        ItemAt(page, totalPages, i - 1);
        ItemAt(page, totalPages, i + 1);
      }
    }
  }

  /**
    Link numbers rise strictly from left to right, so no page (in particular neither page 1
    nor the last page) is linked twice.
  */
  lemma {:induction false} LinksIncrease(items: seq<Item>, i: int, j: int)
    requires AdjacentLinksConsecutive(items) && EllipsesMarkGaps(items)
    requires 0 <= i < j < |items| && items[i].PageLink? && items[j].PageLink?
    ensures items[i].n < items[j].n
    decreases j - i
  {
    if items[i + 1].PageLink? {
      if i + 1 < j {
        LinksIncrease(items, i + 1, j);
      }
    } else {
      assert i + 2 < |items| && items[i + 2].PageLink?;
      if i + 2 < j {
        LinksIncrease(items, i + 2, j);
      }
    }
  }

  /** No page is linked twice in the bar. */
  lemma NoDuplicateLinks(page: int, totalPages: int, i: int, j: int)
    requires totalPages >= 1
    requires 0 <= i < j < |Items(page, totalPages)|
    requires Items(page, totalPages)[i].PageLink? && Items(page, totalPages)[j].PageLink?
    ensures Items(page, totalPages)[i].n != Items(page, totalPages)[j].n
  {
    ItemsAdjacent(page, totalPages);
    ItemsGaps(page, totalPages);
    LinksIncrease(Items(page, totalPages), i, j);
  }

  /**
    For a current page within range, a link is marked active exactly when it is the
    current page, and the current page is among the links: exactly one active item.
  */
  lemma {:induction false} ActiveIsCurrentPage(page: int, totalPages: int)
    requires 1 <= page <= totalPages
    ensures var items := Items(page, totalPages);
      && (forall i :: 0 <= i < |items| && items[i].PageLink? ==> (items[i].active <==> items[i].n == page))
      && (exists i :: 0 <= i < |items| && items[i] == PageLink(page, true))
  {
    var start, end := WindowStart(page, totalPages), WindowEnd(page, totalPages);
    WindowBounds(page, totalPages);
    WindowHoldsPage(page, totalPages);
    var lead, w, trail := Leading(start), WindowLinks(page, start, end), Trailing(end, totalPages);
    var items := lead + w + trail;
    assert items == Items(page, totalPages);
    assert start > 1 ==> page > 1;
    assert end < totalPages ==> page < totalPages;
    forall i | 0 <= i < |items| && items[i].PageLink?
      ensures items[i].active <==> items[i].n == page
    {
      if i < |lead| {
        assert items[i] == lead[i];
      } else if i < |lead| + |w| {
        assert items[i] == w[i - |lead|];
      } else {
        assert items[i] == trail[i - |lead| - |w|];
      }
    }
    var k := |lead| + (page - start);
    assert items[k] == w[page - start];
  }

  /** The first record number on the "Showing X - Y of N records" line. */
  function ShownFrom(page: int, limit: int): int {
    (page - 1) * limit + 1
  }

  /** The last record number on that line: the end of the page, or the total if smaller. */
  function ShownTo(page: int, limit: int, total: int): int {
    Min(page * limit, total)
  }

  /**
    On a page that has records (`(page - 1) * limit < total`), the line names between one
    and `limit` records, all within `1..total`, and a full `limit` unless it is the last page.
  */
  lemma ShownRangeBounds(page: int, limit: int, total: int)
    requires page >= 1 && limit >= 1 && (page - 1) * limit < total
    ensures 1 <= ShownFrom(page, limit) <= ShownTo(page, limit, total) <= total
    ensures ShownTo(page, limit, total) - ShownFrom(page, limit) + 1 <= limit
    ensures page * limit <= total ==> ShownTo(page, limit, total) - ShownFrom(page, limit) + 1 == limit
  {
  }

  /** Consecutive pages show adjacent ranges: nothing is skipped or shown twice. */
  lemma ShownRangesTile(page: int, limit: int, total: int)
    requires page * limit <= total
    ensures ShownTo(page, limit, total) + 1 == ShownFrom(page + 1, limit)
  {
  }

  /** What `handleSort(column)` does to the sort state: flip on the same column, else the new column descending. */
  function SortAfter(sortBy: AccessLogService.SortBy, sortOrder: AccessLogService.SortOrder, column: AccessLogService.SortBy): (AccessLogService.SortBy, AccessLogService.SortOrder) {
    if sortBy == column then (sortBy, if sortOrder == AccessLogService.Asc then AccessLogService.Desc else AccessLogService.Asc)
    else (column, AccessLogService.Desc)
  }

  /**
    Sorting always ends on the clicked column; clicking the current column flips the
    order, so a second click restores it; a new column starts descending.
  */
  lemma SortAfterProperties(sortBy: AccessLogService.SortBy, sortOrder: AccessLogService.SortOrder, column: AccessLogService.SortBy)
    ensures SortAfter(sortBy, sortOrder, column).0 == column
    ensures sortBy == column ==> SortAfter(sortBy, sortOrder, column).1 != sortOrder
    ensures sortBy == column ==> SortAfter(column, SortAfter(sortBy, sortOrder, column).1, column) == (sortBy, sortOrder)
    ensures sortBy != column ==> SortAfter(sortBy, sortOrder, column).1 == AccessLogService.Desc
  {
  }

  /**
    The parameters `fetchData` passes to `getAccessLogs`: page, limit, sort column and
    order always, and the search text only when it is non-empty.
  */
  function FetchParams(page: int, sortBy: AccessLogService.SortBy, sortOrder: AccessLogService.SortOrder, search: string): AccessLogService.Params {
    AccessLogService.Params(Some(page), Some(PageSize), Some(sortBy), Some(sortOrder), if search != "" then Some(search) else None)
  }

  /**
    What reaches the server: the `search` parameter exactly when the committed search is
    non-empty, `page` whenever it is non-zero, and the page size and sort state always.
  */
  lemma FetchQuery(page: int, sortBy: AccessLogService.SortBy, sortOrder: AccessLogService.SortOrder, search: string)
    ensures var q := AccessLogService.SearchParams(FetchParams(page, sortBy, sortOrder, search));
      && AccessLogService.Lookup(q, "search") == (if search != "" then Some(search) else None)
      && AccessLogService.Lookup(q, "page") == (if page != 0 then Some(Text.IntText(page)) else None)
      && AccessLogService.Lookup(q, "limit") == Some(Text.IntText(PageSize))
      && AccessLogService.Lookup(q, "sortBy") == Some(AccessLogService.SortByName(sortBy))
      && AccessLogService.Lookup(q, "sortOrder") == Some(AccessLogService.SortOrderName(sortOrder))
  {
    var params := FetchParams(page, sortBy, sortOrder, search);
    AccessLogService.SearchParamsValues(params, "search");
    AccessLogService.SearchParamsValues(params, "page");
    AccessLogService.SearchParamsValues(params, "limit");
    AccessLogService.SearchParamsValues(params, "sortBy");
    AccessLogService.SearchParamsValues(params, "sortOrder");
  }

  /**
    The visit `recordPageAccess` records: `ipData.ipv4 || undefined` and likewise for
    IPv6, so an address the lookup could not find is left out rather than sent empty.
  */
  function VisitRecord(ipv4: string, ipv6: string): (r: AccessLogService.RecordAccessRequest)
    ensures r.ipv4 == None <==> ipv4 == ""
    ensures r.ipv6 == None <==> ipv6 == ""
    ensures r.ipv4.Some? ==> r.ipv4.value == ipv4
    ensures r.ipv6.Some? ==> r.ipv6.value == ipv6
  {
    AccessLogService.RecordAccessRequest(if ipv4 != "" then Some(ipv4) else None, if ipv6 != "" then Some(ipv6) else None)
  }

  /** The page's table state: the query controls and the totals of the last response. */
  class TableControls {
    var page: int
    var sortBy: AccessLogService.SortBy
    var sortOrder: AccessLogService.SortOrder
    var search: string
    var searchInput: string
    var totalPages: int
    var total: int

    /** The initial state: page 1, newest access first, no search, one empty page. */
    constructor ()
      ensures page == 1 && sortBy == AccessLogService.LastAccessTime && sortOrder == AccessLogService.Desc
      ensures search == "" && searchInput == "" && totalPages == 1 && total == 0
    {
      page := 1;
      sortBy := AccessLogService.LastAccessTime;
      sortOrder := AccessLogService.Desc;
      search := "";
      searchInput := "";
      totalPages := 1;
      total := 0;
    }

    /** The query the current state makes `fetchData` send. */
    function CurrentParams(): AccessLogService.Params
      reads this
    {
      FetchParams(page, sortBy, sortOrder, search)
    }

    /** `handleSort(column)`: the new sort state, and back to page 1. */
    method HandleSort(column: AccessLogService.SortBy)
      modifies this
      ensures (sortBy, sortOrder) == SortAfter(old(sortBy), old(sortOrder), column)
      ensures page == 1
      ensures search == old(search) && searchInput == old(searchInput)
      ensures totalPages == old(totalPages) && total == old(total)
    {
      if sortBy == column {
        sortOrder := if sortOrder == AccessLogService.Asc then AccessLogService.Desc else AccessLogService.Asc;
      } else {
        sortBy := column;
        sortOrder := AccessLogService.Desc;
      }
      page := 1;
    }

    /** Typing in the search box changes only the uncommitted input. */
    method TypeSearch(text: string)
      modifies this
      ensures searchInput == text
      ensures page == old(page) && sortBy == old(sortBy) && sortOrder == old(sortOrder) && search == old(search)
      ensures totalPages == old(totalPages) && total == old(total)
    {
      searchInput := text;
    }

    /** `handleSearch`: commit the typed text as the search and go back to page 1. */
    method HandleSearch()
      modifies this
      ensures search == old(searchInput) && page == 1
      ensures searchInput == old(searchInput) && sortBy == old(sortBy) && sortOrder == old(sortOrder)
      ensures totalPages == old(totalPages) && total == old(total)
    {
      search := searchInput;
      page := 1;
    }

    /** `handleKeyPress`: Enter commits the search, any other key does nothing. */
    method HandleKeyPress(key: string)
      modifies this
      ensures key == "Enter" ==> search == old(searchInput) && page == 1
      ensures key != "Enter" ==> search == old(search) && page == old(page)
      ensures searchInput == old(searchInput) && sortBy == old(sortBy) && sortOrder == old(sortOrder)
      ensures totalPages == old(totalPages) && total == old(total)
    {
      if key == "Enter" {
        HandleSearch();
      }
    }

    /** The Previous button: one page back, unless already on page 1. */
    method Previous()
      modifies this
      ensures page == if old(page) > 1 then old(page) - 1 else old(page)
      ensures 1 <= old(page) <= totalPages ==> 1 <= page <= totalPages
      ensures sortBy == old(sortBy) && sortOrder == old(sortOrder) && search == old(search) && searchInput == old(searchInput)
      ensures totalPages == old(totalPages) && total == old(total)
    {
      if page > 1 {
        page := page - 1;
      }
    }

    /** The Next button: one page on, unless already on the last page. */
    method Next()
      modifies this
      ensures page == if old(page) < totalPages then old(page) + 1 else old(page)
      ensures 1 <= old(page) <= totalPages ==> 1 <= page <= totalPages
      ensures sortBy == old(sortBy) && sortOrder == old(sortOrder) && search == old(search) && searchInput == old(searchInput)
      ensures totalPages == old(totalPages) && total == old(total)
    {
      if page < totalPages {
        page := page + 1;
      }
    }

    /** Clicking a link of the bar: go to its page. */
    method GoToPage(item: Item)
      requires item.PageLink?
      modifies this
      ensures page == item.n
      ensures sortBy == old(sortBy) && sortOrder == old(sortOrder) && search == old(search) && searchInput == old(searchInput)
      ensures totalPages == old(totalPages) && total == old(total)
    {
      page := item.n;
    }

    /** A successful fetch stores the totals the server reports; the controls stay as they are. */
    method Loaded(responseTotalPages: int, responseTotal: int)
      modifies this
      ensures totalPages == responseTotalPages && total == responseTotal
      ensures page == old(page) && sortBy == old(sortBy) && sortOrder == old(sortOrder)
      ensures search == old(search) && searchInput == old(searchInput)
    {
      totalPages := responseTotalPages;
      total := responseTotal;
    }
  }

  /** Any link a click can reach from a page in range leads to a page in range. */
  lemma LinksStayInRange(page: int, totalPages: int, i: int)
    requires totalPages >= 1
    requires 0 <= i < |Items(page, totalPages)| && Items(page, totalPages)[i].PageLink?
    ensures 1 <= Items(page, totalPages)[i].n <= totalPages
  {
    var start, end := WindowStart(page, totalPages), WindowEnd(page, totalPages);
    WindowBounds(page, totalPages);
    var lead, w, trail := Leading(start), WindowLinks(page, start, end), Trailing(end, totalPages);
    assert Items(page, totalPages) == lead + w + trail;
    if i < |lead| {
    } else if i < |lead| + |w| {
      assert Items(page, totalPages)[i] == w[i - |lead|];
    } else {
    }
  }
}
