/**
 * Order history (`orderHistory` in backend/src/controllers/order.controller.js):
 * keyset pagination over a shop's orders, newest first by (createdAt, _id),
 * fetching one row more than the page size to learn whether a next page exists.
 *
 * The database query is modelled by what it returns: the orders that match the
 * filter, sorted descending by key, cut to `limit + 1` rows.
 */
module OrderHistory {
  import opened Common
  import opened Store

  /** The query string. `limit` is `Number(req.query.limit)` when that is a whole number, `None` when it is NaN. */
  datatype HistoryQuery = HistoryQuery(
    shopId: Option<string>,
    limit: Option<int>,
    cursor: Option<string>,
    cursorId: Option<string>,
    includeTotal: Option<string>,
    search: Option<string>)

  /**
   * The conversions between keys and their text: `new Date(s)` (None when its
   * time is NaN), `ObjectId.isValid` with the id it denotes, `toISOString`, and
   * the id's `toString`.
   */
  datatype Codecs = Codecs(
    parseDate: string -> Option<int>,
    parseId: string -> Option<nat>,
    dateText: int -> string,
    idText: nat -> string)

  /** The key of the last row, to be sent back as `cursor` and `cursorId`. */
  datatype Cursor = Cursor(cursor: string, cursorId: string)

  datatype HistoryPage = HistoryPage(
    orders: seq<Order>,
    limit: int,
    hasNextPage: bool,
    nextCursor: Option<Cursor>,
    totalCount: Option<nat>)

  // ---------------------------------------------------------------------------
  // The page size

  /** `Math.min(50, Math.max(1, Number(limit) || 20))`. */
  function ClampLimit(limit: Option<int>): (n: int)
    ensures 1 <= n <= 50
    ensures limit == None || limit == Some(0) ==> n == 20
    ensures limit.Some? && 1 <= limit.value <= 50 ==> n == limit.value
    ensures limit.Some? && limit.value > 50 ==> n == 50
    ensures limit.Some? && limit.value < 0 ==> n == 1
  {
    var l := if limit.None? || limit.value == 0 then 20 else limit.value;
    if l < 1 then 1 else if l > 50 then 50 else l
  }

  // ---------------------------------------------------------------------------
  // Keys, sorting and filtering

  /** Order `a` sorts no later than `b` under `{createdAt: -1, _id: -1}`. */
  predicate KeyAtLeast(a: Order, b: Order) {
    a.createdAt > b.createdAt || (a.createdAt == b.createdAt && a.id >= b.id)
  }

  /** The keyset filter: the key (createdAt, _id) is strictly below (date, id). */
  predicate BeforeKey(o: Order, date: int, id: nat) {
    o.createdAt < date || (o.createdAt == date && o.id < id)
  }

  predicate SortedDesc(s: seq<Order>) {
    forall i, j :: 0 <= i < j < |s| ==> KeyAtLeast(s[i], s[j])
  }

  function Insert(x: Order, s: seq<Order>): (r: seq<Order>) {
    if s == [] || KeyAtLeast(x, s[0]) then [x] + s else [s[0]] + Insert(x, s[1..])
  }

  /** The rows in the order the database returns them. */
  function Sort(xs: seq<Order>): (r: seq<Order>) {
    if xs == [] then [] else Insert(xs[0], Sort(xs[1..]))
  }

  function Filter(p: Order -> bool, xs: seq<Order>): (r: seq<Order>) {
    if xs == [] then [] else (if p(xs[0]) then [xs[0]] else []) + Filter(p, xs[1..])
  }

  /** At most the first `n` rows (`.limit(n)`). */
  function Take(s: seq<Order>, n: nat): (r: seq<Order>)
    ensures |r| <= n && |r| <= |s| && r == s[..|r|]
    ensures |r| == if |s| <= n then |s| else n
  {
    if |s| <= n then s else s[..n]
  }

  /** The base query: the shop's orders, and when a search term is given those whose name, contact or village matches it. */
  predicate InQuery(o: Order, shopId: ShopId, search: string, matches: (string, string) -> bool) {
    o.shopId == shopId && (search == "" || matches(search, o.name) || matches(search, o.contact) || matches(search, o.village))
  }

  /** `(req.query.search || "").trim()`. */
  function SearchTerm(q: HistoryQuery): (r: string) {
    Trim(q.search.GetOr(""))
  }

  function QueryPred(shopId: ShopId, search: string, matches: (string, string) -> bool): (r: Order -> bool) {
    o => InQuery(o, shopId, search, matches)
  }

  /** Every row the base query selects, in the database's order: the listing the pages walk through. */
  function Listing(orders: seq<Order>, q: HistoryQuery, matches: (string, string) -> bool): (r: seq<Order>)
    requires Present(q.shopId)
  {
    Sort(Filter(QueryPred(q.shopId.value, SearchTerm(q), matches), orders))
  }

  /** Both keyset parameters are present, so the keyset filter applies. */
  predicate KeysetMode(q: HistoryQuery) {
    Present(q.cursor) && Present(q.cursorId)
  }

  // ---------------------------------------------------------------------------
  // The handler

  /** The page built from the matching rows: `limit + 1` probe, slice, next cursor. */
  function MakePage(matching: seq<Order>, limit: int, total: Option<nat>, c: Codecs): (r: HistoryPage)
    requires limit >= 1
  {
    var fetched := Take(Sort(matching), limit + 1);
    var hasNext := |fetched| > limit;
    var items := if hasNext then fetched[..limit] else fetched;
    var next := if hasNext then Some(Cursor(c.dateText(items[|items| - 1].createdAt), c.idText(items[|items| - 1].id))) else None;
    HistoryPage(items, limit, hasNext, next, total)
  }

  /** The total sent with a page: every row of the base query, on the first page or when asked for. */
  function TotalOf(orders: seq<Order>, q: HistoryQuery, matches: (string, string) -> bool): (r: Option<nat>)
    requires Present(q.shopId)
  {
    if q.includeTotal == Some("true") || !Present(q.cursor)
    then Some(|Filter(QueryPred(q.shopId.value, SearchTerm(q), matches), orders)|)
    else None
  }

  /** The rows the paged query selects, or the 400 for a cursor that does not parse (the id is checked first). */
  function PagedRows(orders: seq<Order>, q: HistoryQuery, c: Codecs, matches: (string, string) -> bool): (r: Result<seq<Order>>)
    requires Present(q.shopId)
  {
    var inQuery := QueryPred(q.shopId.value, SearchTerm(q), matches);
    if KeysetMode(q) then
      match c.parseId(q.cursorId.value)
      case None => Fail(400, "Invalid cursor id")
      case Some(id) =>
        match c.parseDate(q.cursor.value)
        case None => Fail(400, "Invalid cursor date")
        case Some(date) => Ok(Filter(o => inQuery(o) && BeforeKey(o, date, id), orders))
    else
      Ok(Filter(inQuery, orders))
  }

  function History(orders: seq<Order>, q: HistoryQuery, c: Codecs, matches: (string, string) -> bool): (r: Result<HistoryPage>) {
    if !Present(q.shopId) then Fail(400, "Shop ID is required to get order history")
    else
      match PagedRows(orders, q, c, matches)
      case Err(e) => Err(e)
      case Ok(rows) => Ok(MakePage(rows, ClampLimit(q.limit), TotalOf(orders, q, matches), c))
  }
}
