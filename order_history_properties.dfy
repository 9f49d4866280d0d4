/**
 * What `orderHistory` promises: pages are sorted newest first, come strictly
 * after the cursor, hold at most `limit` rows, and report a next page exactly
 * when there are more rows; following `nextCursor` continues with the very
 * next rows of the full listing.
 */
module OrderHistoryProperties {
  import opened Common
  import opened Store
  import opened OrderHistory

  // ---------------------------------------------------------------------------
  // Sorting

  lemma {:induction false} InsertSpec(x: Order, s: seq<Order>)
    requires SortedDesc(s)
    ensures SortedDesc(Insert(x, s))
    ensures multiset(Insert(x, s)) == multiset(s) + multiset{x}
  {
    InsertPerm(x, s);
    if s == [] || KeyAtLeast(x, s[0]) {
      if s != [] {
        forall j | 0 <= j < |s| ensures KeyAtLeast(x, s[j]) {
          assert j == 0 || KeyAtLeast(s[0], s[j]);
        }
      }
      ConsSorted(x, s);
    } else {
      var r := Insert(x, s[1..]);
      InsertSpec(x, s[1..]);
      forall j | 0 <= j < |r| ensures KeyAtLeast(s[0], r[j]) {
        assert r[j] in multiset(s[1..]) + multiset{x} by {
          assert r[j] in multiset(r);
        }
        if r[j] != x {
          var i :| 0 <= i < |s[1..]| && s[1..][i] == r[j];
          assert s[i + 1] == r[j];
        }
      }
      ConsSorted(s[0], r);
    }
  }

  lemma {:induction false} InsertPerm(x: Order, s: seq<Order>)
    ensures multiset(Insert(x, s)) == multiset(s) + multiset{x}
  {
    if s != [] && !KeyAtLeast(x, s[0]) {
      InsertPerm(x, s[1..]);
      assert s == [s[0]] + s[1..];
    }
  }

  /** The rows come back sorted by key, descending, and are a permutation of the input. */
  lemma {:induction false} SortSpec(xs: seq<Order>)
    ensures SortedDesc(Sort(xs))
    ensures multiset(Sort(xs)) == multiset(xs)
  {
    if xs != [] {
      SortSpec(xs[1..]);
      InsertSpec(xs[0], Sort(xs[1..]));
      assert xs == [xs[0]] + xs[1..];
    }
  }

  // ---------------------------------------------------------------------------
  // Filtering

  /** The filter keeps exactly the rows that satisfy the predicate, in order. */
  lemma {:induction false} FilterSpec(p: Order -> bool, xs: seq<Order>)
    ensures forall o :: o in multiset(Filter(p, xs)) ==> o in multiset(xs) && p(o)
    ensures forall o :: o in xs && p(o) ==> o in Filter(p, xs)
    ensures |Filter(p, xs)| <= |xs|
  {
    if xs != [] {
      FilterSpec(p, xs[1..]);
      assert xs == [xs[0]] + xs[1..];
    }
  }

  lemma {:induction false} FilterSorted(p: Order -> bool, s: seq<Order>)
    requires SortedDesc(s)
    ensures SortedDesc(Filter(p, s))
  {
    if s != [] {
      var f := Filter(p, s[1..]);
      FilterSorted(p, s[1..]);
      FilterFrom(p, s[1..]);
      if p(s[0]) {
        ConsSorted(s[0], f);
      }
    }
  }

  /** Every row a filter keeps comes from its input. */
  lemma FilterFrom(p: Order -> bool, xs: seq<Order>)
    ensures forall j :: 0 <= j < |Filter(p, xs)| ==> Filter(p, xs)[j] in xs
  {
    var f := Filter(p, xs);
    FilterSpec(p, xs);
    forall j | 0 <= j < |f| ensures f[j] in xs {
      assert f[j] in multiset(f);
    }
  }

  /** A row at least as high as every row of a sorted list can go in front of it. */
  lemma ConsSorted(x: Order, s: seq<Order>)
    requires SortedDesc(s) && forall j :: 0 <= j < |s| ==> KeyAtLeast(x, s[j])
    ensures SortedDesc([x] + s)
  {
    var r := [x] + s;
    forall i, j | 0 <= i < j < |r| ensures KeyAtLeast(r[i], r[j]) {
      assert r[j] == s[j - 1];
      if i > 0 {
        assert r[i] == s[i - 1];
      }
    }
  }

  /** A row whose id no row of a list has can go in front of it. */
  lemma ConsUnique(x: Order, s: seq<Order>)
    requires UniqueOrderIds(s) && forall j :: 0 <= j < |s| ==> s[j].id != x.id
    ensures UniqueOrderIds([x] + s)
  {
    var r := [x] + s;
    forall i, j | 0 <= i < j < |r| ensures r[i].id != r[j].id {
      assert r[j] == s[j - 1];
      if i > 0 {
        assert r[i] == s[i - 1];
      }
    }
  }

  lemma FilterCons(p: Order -> bool, x: Order, s: seq<Order>)
    ensures Filter(p, [x] + s) == (if p(x) then [x] else []) + Filter(p, s)
  {
    assert ([x] + s)[1..] == s;
  }

  /** The head of a sorted list is at least every row a filter keeps. */
  lemma FilterBelowHead(p: Order -> bool, x: Order, s: seq<Order>)
    requires SortedDesc(s) && s != [] && KeyAtLeast(x, s[0])
    ensures Filter(p, s) == [] || KeyAtLeast(x, Filter(p, s)[0])
  {
    var f := Filter(p, s);
    if f != [] {
      FilterSpec(p, s);
      assert f[0] in multiset(f);
      var j :| 0 <= j < |s| && s[j] == f[0];
      assert j == 0 || KeyAtLeast(s[0], s[j]);
    }
  }

  /** Filtering a sorted list commutes with inserting into it. */
  lemma {:induction false} FilterInsert(p: Order -> bool, x: Order, s: seq<Order>)
    requires SortedDesc(s)
    ensures Filter(p, Insert(x, s)) == if p(x) then Insert(x, Filter(p, s)) else Filter(p, s)
  {
    if s == [] {
    } else if KeyAtLeast(x, s[0]) {
      assert Insert(x, s) == [x] + s;
      FilterCons(p, x, s);
      FilterBelowHead(p, x, s);
    } else {
      assert Insert(x, s) == [s[0]] + Insert(x, s[1..]);
      FilterCons(p, s[0], Insert(x, s[1..]));
      assert s == [s[0]] + s[1..];
      FilterCons(p, s[0], s[1..]);
      FilterInsert(p, x, s[1..]);
      var f := Filter(p, s[1..]);
      if p(s[0]) {
        assert ([s[0]] + f)[0] == s[0] && ([s[0]] + f)[1..] == f;
        assert Insert(x, [s[0]] + f) == [s[0]] + Insert(x, f);
        assert Filter(p, s) == [s[0]] + f;
        assert Filter(p, Insert(x, s)) == [s[0]] + Filter(p, Insert(x, s[1..]));
      } else {
        assert Filter(p, s) == f;
        assert Filter(p, Insert(x, s)) == Filter(p, Insert(x, s[1..]));
      }
    }
  }

  /** Sorting the matching rows is filtering the sorted rows. */
  lemma {:induction false} SortFilter(p: Order -> bool, xs: seq<Order>)
    ensures Sort(Filter(p, xs)) == Filter(p, Sort(xs))
  {
    if xs != [] {
      SortFilter(p, xs[1..]);
      SortSpec(xs[1..]);
      FilterInsert(p, xs[0], Sort(xs[1..]));
      if p(xs[0]) {
        assert Filter(p, xs) == [xs[0]] + Filter(p, xs[1..]);
        assert ([xs[0]] + Filter(p, xs[1..]))[1..] == Filter(p, xs[1..]);
      } else {
        assert Filter(p, xs) == Filter(p, xs[1..]);
      }
    }
  }

  /** A conjunction filters like two filters in a row. */
  lemma {:induction false} FilterAnd(a: Order -> bool, b: Order -> bool, c: Order -> bool, xs: seq<Order>)
    requires forall o :: c(o) == (a(o) && b(o))
    ensures Filter(c, xs) == Filter(b, Filter(a, xs))
  {
    if xs != [] {
      FilterAnd(a, b, c, xs[1..]);
      if a(xs[0]) {
        assert Filter(a, xs) == [xs[0]] + Filter(a, xs[1..]);
        FilterCons(b, xs[0], Filter(a, xs[1..]));
      } else {
        assert Filter(a, xs) == Filter(a, xs[1..]);
      }
    }
  }

  // ---------------------------------------------------------------------------
  // Unique ids make the order strict

  lemma {:induction false} InsertUnique(x: Order, s: seq<Order>)
    requires UniqueOrderIds(s)
    requires forall j :: 0 <= j < |s| ==> s[j].id != x.id
    ensures UniqueOrderIds(Insert(x, s))
  {
    if s != [] && !KeyAtLeast(x, s[0]) {
      InsertUnique(x, s[1..]);
      var r := Insert(x, s[1..]);
      InsertPerm(x, s[1..]);
      forall j | 0 <= j < |r| ensures r[j].id != s[0].id {
        assert r[j] in multiset(r);
      }
    }
  }

  lemma {:induction false} SortMembers(xs: seq<Order>)
    ensures multiset(Sort(xs)) == multiset(xs)
  {
    if xs != [] {
      SortMembers(xs[1..]);
      InsertPerm(xs[0], Sort(xs[1..]));
      assert xs == [xs[0]] + xs[1..];
    }
  }

  lemma {:induction false} SortUnique(xs: seq<Order>)
    requires UniqueOrderIds(xs)
    ensures UniqueOrderIds(Sort(xs))
  {
    if xs != [] {
      SortUnique(xs[1..]);
      var r := Sort(xs[1..]);
      SortMembers(xs[1..]);
      forall j | 0 <= j < |r| ensures r[j].id != xs[0].id {
        assert r[j] in multiset(xs[1..]);
      }
      InsertUnique(xs[0], r);
    }
  }

  lemma {:induction false} FilterUnique(p: Order -> bool, xs: seq<Order>)
    requires UniqueOrderIds(xs)
    ensures UniqueOrderIds(Filter(p, xs))
  {
    if xs != [] {
      var f := Filter(p, xs[1..]);
      FilterUnique(p, xs[1..]);
      FilterFrom(p, xs[1..]);
      if p(xs[0]) {
        forall j | 0 <= j < |f| ensures f[j].id != xs[0].id {
          var i :| 0 <= i < |xs[1..]| && xs[1..][i] == f[j];
          assert xs[i + 1] == f[j];
        }
        ConsUnique(xs[0], f);
      }
    }
  }

  /**
   * In a sorted listing with unique ids, the rows strictly below row i's key
   * are exactly the rows after it.
   */
  lemma {:induction false} BeforeKeySuffix(s: seq<Order>, i: nat)
    requires SortedDesc(s) && UniqueOrderIds(s) && i < |s|
    ensures Filter(o => BeforeKey(o, s[i].createdAt, s[i].id), s) == s[i + 1..]
  {
    var date, id := s[i].createdAt, s[i].id;
    BeforeKeyFrom(s, date, id, 0, i);
  }

  lemma {:induction false} BeforeKeyFrom(s: seq<Order>, date: int, id: nat, k: nat, i: nat)
    requires SortedDesc(s) && UniqueOrderIds(s) && k <= i < |s|
    requires s[i].createdAt == date && s[i].id == id
    ensures Filter(o => BeforeKey(o, date, id), s[k..]) == s[i + 1..]
    decreases |s| - k
  {
    var p := o => BeforeKey(o, date, id);
    assert s[k..][1..] == s[k + 1..];
    if k < i {
      BeforeKeyFrom(s, date, id, k + 1, i);
      assert !p(s[k]);
    } else {
      if i + 1 < |s| {
        AllBeforeShift(s, date, id, i + 1);
      }
      assert !p(s[k]);
    }
  }

  lemma AllBeforeShift(s: seq<Order>, date: int, id: nat, k: nat)
    requires SortedDesc(s) && UniqueOrderIds(s) && 0 < k < |s|
    requires s[k - 1].createdAt == date && s[k - 1].id == id
    ensures Filter(o => BeforeKey(o, date, id), s[k..]) == s[k..]
  {
    var p := o => BeforeKey(o, date, id);
    forall j | k <= j < |s| ensures p(s[j]) {
      assert KeyAtLeast(s[k - 1], s[j]) && s[k - 1].id != s[j].id;
    }
    AllPass(p, s[k..]);
  }

  lemma {:induction false} AllPass(p: Order -> bool, s: seq<Order>)
    requires forall j :: 0 <= j < |s| ==> p(s[j])
    ensures Filter(p, s) == s
  {
    if s != [] {
      AllPass(p, s[1..]);
      assert s == [s[0]] + s[1..];
    }
  }

  // ---------------------------------------------------------------------------
  // Pages

  lemma {:induction false} FilterMembers(p: Order -> bool, xs: seq<Order>)
    ensures forall o :: o in Filter(p, xs) <==> o in xs && p(o)
  {
    if xs != [] {
      FilterMembers(p, xs[1..]);
      assert xs == [xs[0]] + xs[1..];
    }
  }

  lemma SortMembersSeq(xs: seq<Order>)
    ensures forall o :: o in Sort(xs) <==> o in xs
  {
    SortMembers(xs);
    forall o ensures o in Sort(xs) <==> o in xs {
      assert o in Sort(xs) <==> o in multiset(Sort(xs));
      assert o in xs <==> o in multiset(xs);
    }
  }

  /** The listing is sorted, holds exactly the selected rows, and has unique ids when the store does. */
  lemma ListingSpec(orders: seq<Order>, q: HistoryQuery, matches: (string, string) -> bool)
    requires Present(q.shopId)
    ensures SortedDesc(Listing(orders, q, matches))
    ensures forall o :: o in Listing(orders, q, matches) <==> o in orders && InQuery(o, q.shopId.value, SearchTerm(q), matches)
    ensures UniqueOrderIds(orders) ==> UniqueOrderIds(Listing(orders, q, matches))
  {
    var p := QueryPred(q.shopId.value, SearchTerm(q), matches);
    var f := Filter(p, orders);
    SortSpec(f);
    FilterMembers(p, orders);
    SortMembersSeq(f);
    if UniqueOrderIds(orders) {
      FilterUnique(p, orders);
      SortUnique(f);
    }
  }

  /** The rows of a page: the first `limit` of the sorted matching rows, and a next page when more exist. */
  lemma MakePageRows(matching: seq<Order>, limit: int, total: Option<nat>, c: Codecs)
    requires limit >= 1
    ensures MakePage(matching, limit, total, c).orders == Take(Sort(matching), limit)
    ensures MakePage(matching, limit, total, c).hasNextPage <==> |Sort(matching)| > limit
  {
  }

  /** Without a keyset cursor the page is the first `limit` rows of the listing. */
  lemma FirstPage(orders: seq<Order>, q: HistoryQuery, c: Codecs, matches: (string, string) -> bool)
    requires Present(q.shopId) && !KeysetMode(q)
    ensures History(orders, q, c, matches).Ok?
    ensures var page := History(orders, q, c, matches).value;
            && page.orders == Take(Listing(orders, q, matches), ClampLimit(q.limit))
            && (page.hasNextPage <==> |Listing(orders, q, matches)| > ClampLimit(q.limit))
  {
    var inQuery := QueryPred(q.shopId.value, SearchTerm(q), matches);
    assert PagedRows(orders, q, c, matches) == Ok(Filter(inQuery, orders));
    MakePageRows(Filter(inQuery, orders), ClampLimit(q.limit), TotalOf(orders, q, matches), c);
  }

  /**
   * With a keyset cursor that decodes to (date, id), the page is the first
   * `limit` rows of the listing whose key is strictly below (date, id); a
   * next page is reported exactly when more such rows exist.
   */
  lemma CursorPage(orders: seq<Order>, q: HistoryQuery, c: Codecs, matches: (string, string) -> bool, date: int, id: nat)
    requires Present(q.shopId) && KeysetMode(q)
    requires c.parseId(q.cursorId.value) == Some(id) && c.parseDate(q.cursor.value) == Some(date)
    ensures History(orders, q, c, matches).Ok?
    ensures var page := History(orders, q, c, matches).value;
            var rest := Filter(o => BeforeKey(o, date, id), Listing(orders, q, matches));
            && page.orders == Take(rest, ClampLimit(q.limit))
            && (page.hasNextPage <==> |rest| > ClampLimit(q.limit))
  {
    var inQuery := QueryPred(q.shopId.value, SearchTerm(q), matches);
    var before := o => BeforeKey(o, date, id);
    var both := o => inQuery(o) && BeforeKey(o, date, id);
    assert PagedRows(orders, q, c, matches) == Ok(Filter(both, orders));
    MakePageRows(Filter(both, orders), ClampLimit(q.limit), TotalOf(orders, q, matches), c);
    FilterAnd(inQuery, before, both, orders);
    SortFilter(before, Filter(inQuery, orders));
  }

  /** A bad cursor id, then a bad cursor date, is rejected with 400; a missing shop id before either. */
  lemma HistoryErrors(orders: seq<Order>, q: HistoryQuery, c: Codecs, matches: (string, string) -> bool)
    ensures History(orders, q, c, matches).Err? <==>
              !Present(q.shopId) || (KeysetMode(q) && (c.parseId(q.cursorId.value).None? || c.parseDate(q.cursor.value).None?))
    ensures !Present(q.shopId) ==> History(orders, q, c, matches) == Fail(400, "Shop ID is required to get order history")
    ensures Present(q.shopId) && KeysetMode(q) && c.parseId(q.cursorId.value).None? ==>
              History(orders, q, c, matches) == Fail(400, "Invalid cursor id")
    ensures Present(q.shopId) && KeysetMode(q) && c.parseId(q.cursorId.value).Some? && c.parseDate(q.cursor.value).None? ==>
              History(orders, q, c, matches) == Fail(400, "Invalid cursor date")
  {
    if Present(q.shopId) && !KeysetMode(q) {
      FirstPage(orders, q, c, matches);
    }
  }

  /** The page built from some matching rows: bounded, sorted, drawn from those rows, with the cursor of its last row. */
  lemma MakePageShape(matching: seq<Order>, limit: int, total: Option<nat>, c: Codecs)
    requires limit >= 1
    ensures var page := MakePage(matching, limit, total, c);
            && page.limit == limit
            && |page.orders| <= limit
            && SortedDesc(page.orders)
            && (forall o :: o in page.orders ==> o in matching)
            && (page.hasNextPage ==> |page.orders| == limit)
            && (page.nextCursor.Some? <==> page.hasNextPage)
            && (page.hasNextPage ==>
                  var last := page.orders[|page.orders| - 1];
                  page.nextCursor == Some(Cursor(c.dateText(last.createdAt), c.idText(last.id))))
            && page.totalCount == total
  {
    var sorted := Sort(matching);
    SortSpec(matching);
    SortMembersSeq(matching);
    MakePageRows(matching, limit, total, c);
    var rows := MakePage(matching, limit, total, c).orders;
    assert rows == sorted[..|rows|];
    forall o | o in rows ensures o in matching {
      var j :| 0 <= j < |rows| && rows[j] == o;
      assert o == sorted[j];
    }
  }

  /**
   * Every page: at most `limit` rows (limit clamped to [1, 50]), sorted newest
   * first, each a selected row of the store; `nextCursor` is the key of the
   * last row exactly when there is a next page; the total counts every
   * selected row and is sent on the first page or when asked for.
   */
  lemma PageShape(orders: seq<Order>, q: HistoryQuery, c: Codecs, matches: (string, string) -> bool)
    requires History(orders, q, c, matches).Ok?
    ensures var page := History(orders, q, c, matches).value;
            && page.limit == ClampLimit(q.limit) && 1 <= page.limit <= 50
            && |page.orders| <= page.limit
            && SortedDesc(page.orders)
            && (forall o :: o in page.orders ==> o in orders && InQuery(o, q.shopId.value, SearchTerm(q), matches))
            && (page.hasNextPage ==> |page.orders| == page.limit)
            && (page.nextCursor.Some? <==> page.hasNextPage)
            && (page.hasNextPage ==>
                  var last := page.orders[|page.orders| - 1];
                  page.nextCursor == Some(Cursor(c.dateText(last.createdAt), c.idText(last.id))))
            && (page.totalCount.Some? <==> q.includeTotal == Some("true") || !Present(q.cursor))
            && (page.totalCount.Some? ==> page.totalCount.value == |Filter(QueryPred(q.shopId.value, SearchTerm(q), matches), orders)|)
  {
    var inQuery := QueryPred(q.shopId.value, SearchTerm(q), matches);
    var rows := PagedRows(orders, q, c, matches).value;
    if KeysetMode(q) {
      var id, date := c.parseId(q.cursorId.value).value, c.parseDate(q.cursor.value).value;
      var both := o => inQuery(o) && BeforeKey(o, date, id);
      assert rows == Filter(both, orders);
      FilterMembers(both, orders);
    } else {
      FilterMembers(inQuery, orders);
    }
    MakePageShape(rows, ClampLimit(q.limit), TotalOf(orders, q, matches), c);
  }

  /**
   * Following the cursor: when a page holds the listing's rows from index
   * `start` on and reports a next page, the request that sends back its
   * `nextCursor` (same shop and search, any limit) gets the listing's rows
   * from `start + limit` on, so no row is skipped or repeated. This needs
   * unique order ids and key texts that decode back to the key.
   */
  lemma NextPageContinues(orders: seq<Order>, q: HistoryQuery, q2: HistoryQuery, c: Codecs, matches: (string, string) -> bool, start: nat)
    requires UniqueOrderIds(orders)
    requires forall t :: c.parseDate(c.dateText(t)) == Some(t) && c.dateText(t) != ""
    requires forall n: nat :: c.parseId(c.idText(n)) == Some(n) && c.idText(n) != ""
    requires History(orders, q, c, matches).Ok? && History(orders, q, c, matches).value.hasNextPage
    requires start <= |Listing(orders, q, matches)|
    requires History(orders, q, c, matches).value.orders == Take(Listing(orders, q, matches)[start..], ClampLimit(q.limit))
    requires q2.shopId == q.shopId && q2.search == q.search
    requires History(orders, q, c, matches).value.nextCursor ==
               Some(Cursor(q2.cursor.GetOr(""), q2.cursorId.GetOr("")))
    ensures History(orders, q2, c, matches).Ok?
    ensures start + ClampLimit(q.limit) <= |Listing(orders, q, matches)|
    ensures History(orders, q2, c, matches).value.orders ==
              Take(Listing(orders, q, matches)[start + ClampLimit(q.limit)..], ClampLimit(q2.limit))
  {
    var all := Listing(orders, q, matches);
    var i := start + ClampLimit(q.limit) - 1;
    var nc := History(orders, q, c, matches).value.nextCursor;
    LastRowOfFullPage(orders, q, c, matches, start);
    CursorDecodes(c, all[i], q2);
    ContinueFrom(orders, q, q2, c, matches, i);
    assert all[i + 1..] == all[start + ClampLimit(q.limit)..];
  }

  /** A page with a next page that holds the listing's rows from `start` on ends at row start + limit - 1, whose key is the cursor. */
  lemma LastRowOfFullPage(orders: seq<Order>, q: HistoryQuery, c: Codecs, matches: (string, string) -> bool, start: nat)
    requires History(orders, q, c, matches).Ok? && History(orders, q, c, matches).value.hasNextPage
    requires start <= |Listing(orders, q, matches)|
    requires History(orders, q, c, matches).value.orders == Take(Listing(orders, q, matches)[start..], ClampLimit(q.limit))
    ensures start + ClampLimit(q.limit) <= |Listing(orders, q, matches)|
    ensures var last := Listing(orders, q, matches)[start + ClampLimit(q.limit) - 1];
            History(orders, q, c, matches).value.nextCursor == Some(Cursor(c.dateText(last.createdAt), c.idText(last.id)))
  {
    var page := History(orders, q, c, matches).value;
    var all := Listing(orders, q, matches);
    var limit := ClampLimit(q.limit);
    MakePageShape(PagedRows(orders, q, c, matches).value, limit, TotalOf(orders, q, matches), c);
    assert page.orders == all[start..][..limit];
    assert page.orders[limit - 1] == all[start + limit - 1];
  }

  /** Key texts that decode back to the key are present and decode to it. */
  lemma CursorDecodes(c: Codecs, last: Order, q2: HistoryQuery)
    requires c.parseDate(c.dateText(last.createdAt)) == Some(last.createdAt) && c.dateText(last.createdAt) != ""
    requires c.parseId(c.idText(last.id)) == Some(last.id) && c.idText(last.id) != ""
    requires Cursor(q2.cursor.GetOr(""), q2.cursorId.GetOr("")) == Cursor(c.dateText(last.createdAt), c.idText(last.id))
    ensures Present(q2.cursor) && Present(q2.cursorId)
    ensures c.parseId(q2.cursorId.value) == Some(last.id) && c.parseDate(q2.cursor.value) == Some(last.createdAt)
  {
  }

  /** The request whose cursor is the key of listing row i gets the rows after i. */
  lemma ContinueFrom(orders: seq<Order>, q: HistoryQuery, q2: HistoryQuery, c: Codecs, matches: (string, string) -> bool, i: nat)
    requires UniqueOrderIds(orders)
    requires Present(q.shopId) && q2.shopId == q.shopId && q2.search == q.search
    requires i < |Listing(orders, q, matches)|
    requires Present(q2.cursor) && Present(q2.cursorId)
    requires c.parseId(q2.cursorId.value) == Some(Listing(orders, q, matches)[i].id)
    requires c.parseDate(q2.cursor.value) == Some(Listing(orders, q, matches)[i].createdAt)
    ensures History(orders, q2, c, matches).Ok?
    ensures History(orders, q2, c, matches).value.orders == Take(Listing(orders, q, matches)[i + 1..], ClampLimit(q2.limit))
  {
    var all := Listing(orders, q, matches);
    assert Listing(orders, q2, matches) == all;
    CursorPage(orders, q2, c, matches, all[i].createdAt, all[i].id);
    ListingSpec(orders, q, matches);
    BeforeKeySuffix(all, i);
  }

  /** The first page starts the listing at row 0. */
  lemma FirstPageStartsListing(orders: seq<Order>, q: HistoryQuery, c: Codecs, matches: (string, string) -> bool)
    requires Present(q.shopId) && !KeysetMode(q)
    ensures History(orders, q, c, matches).Ok?
    ensures History(orders, q, c, matches).value.orders == Take(Listing(orders, q, matches)[0..], ClampLimit(q.limit))
  {
    FirstPage(orders, q, c, matches);
    assert Listing(orders, q, matches)[0..] == Listing(orders, q, matches);
  }
}
