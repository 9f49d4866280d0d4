/**
 * The product list page's navigation state (frontend/src/pages/ProductListPage.jsx).
 * Pages are fetched by cursor; the cursor that produced each page after the
 * first is remembered by page number so that Prev can go back to it.
 *
 * A fetch is asynchronous: a handler issues a request (returned here) and the
 * answer is applied later by `Loaded`. React state updates made in one handler
 * take effect together, after it returns.
 */
module ProductList {
  import opened Common
  import Client

  const PageSize := 10

  /** The cursor of a page: the expiry date and id of the previous page's last row. */
  datatype Cursor = Cursor(cursor: string, cursorId: string)

  /** The row fields the page uses. */
  datatype Row = Row(id: string, expiryDate: string)

  /** The query parameters of one product request, in the order they are written. */
  function RequestParams(pageIndex: int, cursor: Option<Cursor>, searchTerm: string): (r: seq<(string, Client.Param)>) {
    var term := Trim(searchTerm);
    [("limit", Client.Int(PageSize)),
     ("cursor", if cursor.Some? then Client.Str(cursor.value.cursor) else Client.Undefined),
     ("cursorId", if cursor.Some? then Client.Str(cursor.value.cursorId) else Client.Undefined),
     ("includeTotal", Client.Bool(pageIndex == 1)),
     ("title", if term != "" then Client.Str(term) else Client.Undefined)]
  }

  /** A request the page issues: which page it is for, the cursor it carries, and its parameters. */
  datatype Request = Request(pageIndex: int, cursor: Option<Cursor>, params: seq<(string, Client.Param)>)

  function RequestFor(pageIndex: int, cursor: Option<Cursor>, searchTerm: string): (r: Request) {
    Request(pageIndex, cursor, RequestParams(pageIndex, cursor, searchTerm))
  }

  /** `pageCursors[i] || null`: a hole, an index past the end and a stored null all read as no cursor. */
  function CursorAt(cursors: map<int, Option<Cursor>>, i: int): (r: Option<Cursor>) {
    if i in cursors then cursors[i] else None
  }

  /** `totalCount ? Math.max(1, Math.ceil(totalCount / 10)) : null`. */
  function TotalPages(totalCount: Option<int>): (r: Option<int>) {
    if totalCount.None? || totalCount.value == 0 then None
    else Some(if (totalCount.value + PageSize - 1) / PageSize >= 1 then (totalCount.value + PageSize - 1) / PageSize else 1)
  }

  /**
   * The page index the Refresh button passes: `fetchProducts(true)`. The
   * boolean is not `=== 1`, so the total is not requested, and `true > 1` is
   * false, so no cursor is stored: it acts as an index that is neither 1 nor
   * above 1.
   */
  const RefreshIndex := 0

  /** The answer to a product request, as the page reads it. */
  datatype Answer = Answer(products: seq<Row>, hasNextPage: bool, totalCount: Option<int>)

  class Page {
    const shopId: Option<string>
    var products: seq<Row>
    var searchInput: string
    var searchTerm: string
    var currentPage: int
    /** `pageCursors`, by page number. */
    var pageCursors: map<int, Option<Cursor>>
    var hasNextPage: bool
    var totalCount: Option<int>

    /** The page number never drops below 1, and page 1's entry (no cursor) is always kept. */
    ghost predicate Valid()
      reads this
    {
      currentPage >= 1 && CursorAt(pageCursors, 1) == None && CursorAt(pageCursors, 0) == None
    }

    constructor (shopId: Option<string>)
      ensures Valid()
      ensures this.shopId == shopId
      ensures products == [] && searchInput == "" && searchTerm == "" && currentPage == 1
      ensures pageCursors == map[0 := None] && !hasNextPage && totalCount == None
    {
      this.shopId := shopId;
      products, searchInput, searchTerm, currentPage := [], "", "", 1;
      pageCursors, hasNextPage, totalCount := map[0 := None], false, None;
    }

    /** `fetchProducts(pageIndex, cursorInfo)`: nothing without a shop. */
    function Fetch(pageIndex: int, cursor: Option<Cursor>, term: string): (r: seq<Request>)
      reads this
    {
      if Present(shopId) then [RequestFor(pageIndex, cursor, term)] else []
    }

    /** Whether the page bar is shown. */
    function ShowsBar(): (r: bool)
      reads this
    {
      var t := TotalPages(totalCount);
      if t.None? then hasNextPage || currentPage > 1 else t.value > 1
    }

    /** The answer to a request for `pageIndex` with `cursor` arrives. */
    method Loaded(pageIndex: int, cursor: Option<Cursor>, answer: Answer)
      requires Valid()
      modifies this
      ensures Valid()
      ensures products == answer.products && hasNextPage == answer.hasNextPage
      ensures totalCount == if answer.totalCount.Some? then answer.totalCount else if pageIndex == 1 then None else old(totalCount)
      ensures pageCursors == if pageIndex > 1 then old(pageCursors)[pageIndex := cursor] else old(pageCursors)
      ensures currentPage == old(currentPage) && searchTerm == old(searchTerm) && searchInput == old(searchInput)
    {
      products := answer.products;
      hasNextPage := answer.hasNextPage;
      if answer.totalCount.Some? {
        totalCount := answer.totalCount;
      } else if pageIndex == 1 {
        totalCount := None;
      }
      if pageIndex > 1 {
        pageCursors := pageCursors[pageIndex := cursor];
      }
    }

    /**
     * The Refresh button: `fetchProducts(true)` refetches with no cursor and
     * without the total, whatever page is shown, and changes no state until
     * its answer arrives (`Loaded(RefreshIndex, None, answer)`), which keeps
     * the page number.
     */
    method Refresh() returns (sent: seq<Request>)
      ensures sent == Fetch(RefreshIndex, None, searchTerm)
      ensures |sent| <= 1 && (sent != [] ==> sent[0].cursor == None && sent[0].params[3] == ("includeTotal", Client.Bool(false)))
    {
      sent := Fetch(RefreshIndex, None, searchTerm);
    }

    /** `handleNext`: to the next page, keyed by the last row, when there is one and the page is not empty. */
    method Next() returns (sent: seq<Request>)
      requires Valid()
      modifies this
      ensures Valid()
      ensures !old(hasNextPage) || old(|products|) == 0 ==> sent == [] && currentPage == old(currentPage)
      ensures old(hasNextPage) && old(|products|) > 0 ==>
        var last := old(products[|products| - 1]);
        && currentPage == old(currentPage) + 1
        && sent == Fetch(old(currentPage) + 1, Some(Cursor(last.expiryDate, last.id)), searchTerm)
      ensures products == old(products) && pageCursors == old(pageCursors) && hasNextPage == old(hasNextPage)
      ensures totalCount == old(totalCount) && searchTerm == old(searchTerm) && searchInput == old(searchInput)
    {
      if !hasNextPage || |products| == 0 {
        return [];
      }
      var last := products[|products| - 1];
      var nextCursor := Cursor(last.expiryDate, last.id);
      var nextPage := currentPage + 1;
      currentPage := nextPage;
      sent := Fetch(nextPage, Some(nextCursor), searchTerm);
    }

    /** `handlePrev`: back one page, with the cursor stored for it; nothing on page 1. */
    method Prev() returns (sent: seq<Request>)
      requires Valid()
      modifies this
      ensures Valid()
      ensures old(currentPage) == 1 ==> sent == [] && currentPage == 1
      ensures old(currentPage) != 1 ==>
        && currentPage == old(currentPage) - 1
        && sent == Fetch(currentPage, CursorAt(pageCursors, currentPage), searchTerm)
      ensures products == old(products) && pageCursors == old(pageCursors) && hasNextPage == old(hasNextPage)
      ensures totalCount == old(totalCount) && searchTerm == old(searchTerm) && searchInput == old(searchInput)
    {
      if currentPage == 1 {
        return [];
      }
      var prevPage := currentPage - 1;
      var cursorInfo := CursorAt(pageCursors, prevPage);
      currentPage := prevPage;
      sent := Fetch(prevPage, cursorInfo, searchTerm);
    }

    /**
     * After a delete the user confirmed and the server accepted: reload the
     * current page, or the previous one when the deleted product was the only
     * one on a page after the first.
     */
    method Deleted() returns (sent: seq<Request>)
      requires Valid()
      modifies this
      ensures Valid()
      ensures var back := old(|products|) == 1 && old(currentPage) > 1;
        && currentPage == (if back then old(currentPage) - 1 else old(currentPage))
        && sent == Fetch(currentPage, CursorAt(pageCursors, currentPage), searchTerm)
      ensures products == old(products) && pageCursors == old(pageCursors) && hasNextPage == old(hasNextPage)
      ensures totalCount == old(totalCount) && searchTerm == old(searchTerm) && searchInput == old(searchInput)
    {
      var shouldGoBack := |products| == 1 && currentPage > 1;
      var targetPage := if shouldGoBack then currentPage - 1 else currentPage;
      var cursorInfo := CursorAt(pageCursors, targetPage);
      currentPage := targetPage;
      sent := Fetch(targetPage, cursorInfo, searchTerm);
    }

    /**
     * `handleSearch`: reset to the first page and adopt the trimmed input as
     * the search term. The page-1 request it makes itself still carries the
     * previous term; when the term changed, the page then fetches page 1
     * again with the new one.
     */
    method Search() returns (sent: seq<Request>)
      requires Valid()
      modifies this
      ensures Valid()
      ensures pageCursors == map[0 := None] && currentPage == 1 && !hasNextPage && totalCount == None
      ensures searchTerm == Trim(searchInput) && searchInput == old(searchInput) && products == old(products)
      ensures sent == Fetch(1, None, old(searchTerm)) + (if searchTerm != old(searchTerm) then Fetch(1, None, searchTerm) else [])
    {
      var stale := searchTerm;
      pageCursors := map[0 := None];
      currentPage := 1;
      hasNextPage := false;
      totalCount := None;
      searchTerm := Trim(searchInput);
      sent := Fetch(1, None, stale);
      if searchTerm != stale {
        sent := sent + Fetch(1, None, searchTerm);
      }
    }
  }

  // ---------------------------------------------------------------------------
  // Properties

  /** There are no page numbers without a non-zero count; with one, the count fits the pages exactly (ten per page). */
  lemma TotalPagesSpec(totalCount: Option<int>)
    ensures TotalPages(totalCount).None? <==> totalCount.None? || totalCount.value == 0
    ensures totalCount.Some? && totalCount.value > 0 ==>
      var n := TotalPages(totalCount).value;
      n >= 1 && (n - 1) * PageSize < totalCount.value <= n * PageSize
    ensures totalCount.Some? && totalCount.value < 0 ==> TotalPages(totalCount) == Some(1)
  {
    if totalCount.Some? && totalCount.value > 0 {
      var c := totalCount.value;
      var n := (c + PageSize - 1) / PageSize;
      assert n * PageSize <= c + PageSize - 1 < (n + 1) * PageSize;
    }
  }

  /** The part of a request's query that a string parameter contributes: nothing when it is empty. */
  function StrEntry(k: string, v: string): (r: seq<(string, string)>) {
    if v != "" then [(k, v)] else []
  }

  /**
   * What a request sends: the page size, the cursor when there is one, whether
   * to count (only for page 1) and the trimmed search term when it is not
   * empty, in that order.
   */
  lemma {:induction false} RequestQuery(pageIndex: int, cursor: Option<Cursor>, searchTerm: string)
    ensures Client.Clean(RequestParams(pageIndex, cursor, searchTerm)) ==
      [("limit", "10")]
      + (if cursor.Some? then StrEntry("cursor", cursor.value.cursor) else [])
      + (if cursor.Some? then StrEntry("cursorId", cursor.value.cursorId) else [])
      + [("includeTotal", if pageIndex == 1 then "true" else "false")]
      + StrEntry("title", Trim(searchTerm))
  {
    var ps := RequestParams(pageIndex, cursor, searchTerm);
    CleanFive(ps);
    TenText();
  }

  /** What one entry contributes to the cleaned query. */
  function Entry(x: (string, Client.Param)): (r: seq<(string, string)>) {
    if Client.Kept(x.1) then [(x.0, Client.Text(x.1))] else []
  }

  /** Cleaning five entries cleans each in turn. */
  lemma CleanFive(ps: seq<(string, Client.Param)>)
    requires |ps| == 5
    ensures Client.Clean(ps) == Entry(ps[0]) + Entry(ps[1]) + Entry(ps[2]) + Entry(ps[3]) + Entry(ps[4])
  {
    var e0, e1, e2, e3, e4 := [ps[0]], [ps[1]], [ps[2]], [ps[3]], [ps[4]];
    assert ps == e0 + e1 + e2 + e3 + e4;
    Client.CleanConcat(e0 + e1 + e2 + e3, e4);
    Client.CleanConcat(e0 + e1 + e2, e3);
    Client.CleanConcat(e0 + e1, e2);
    Client.CleanConcat(e0, e1);
    CleanOne(ps[0]);
    CleanOne(ps[1]);
    CleanOne(ps[2]);
    CleanOne(ps[3]);
    CleanOne(ps[4]);
  }

  lemma CleanOne(x: (string, Client.Param))
    ensures Client.Clean([x]) == Entry(x)
  {
    assert [x][..0] == [];
  }

  lemma TenText()
    ensures Client.Text(Client.Int(PageSize)) == "10"
  {
    assert DigitChar(1) == '1' && DigitChar(0) == '0';
    assert IntToString(10) == NatToString(10) == NatToString(1) + [DigitChar(0)] == "10";
  }

  /** The page bar shows, without a page count, when there is a next page or the page is past the first; with one, when there are two pages or more. */
  lemma ShowsBarIff(p: Page)
    ensures p.ShowsBar() <==>
      if p.totalCount.None? || p.totalCount.value == 0 then p.hasNextPage || p.currentPage > 1
      else p.totalCount.value > PageSize
  {
    if p.totalCount.Some? && p.totalCount.value != 0 {
      TotalPagesSpec(p.totalCount);
    }
  }
}
