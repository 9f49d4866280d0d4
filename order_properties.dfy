/**
 * What `createOrder` promises, proved about the functions that specify it:
 * the shape of the field-error map, the merging of lines, the lookup and stock
 * checks, stock conservation, and when an order is accepted at all.
 */
module OrderProperties {
  import opened Common
  import opened Store
  import opened Orders

  // ---------------------------------------------------------------------------
  // The error map: one key per bad field of each item, `items.<i>.<field>`

  /** Distinct (index, field) pairs give distinct keys. */
  lemma ItemKeyInjective(i: nat, f: string, j: nat, g: string)
    requires ItemKey(i, f) == ItemKey(j, g)
    ensures i == j && f == g
  {
    var a, b := NatToString(i), NatToString(j);
    assert ItemKey(i, f)[6..] == a + "." + f;
    assert ItemKey(j, g)[6..] == b + "." + g;
    DigitsDotSplit(a, f, b, g);
    NatToStringInjective(i, j);
  }

  lemma FieldCases(f: string)
    ensures f in Fields <==> f == "product" || f == "quantity" || f == "price" || f == "productName"
  {
  }

  /** Field names of different lengths give one item different keys (the four names all differ in length). */
  lemma SameIndexKeysDiffer(i: nat, f: string, g: string)
    requires |f| != |g|
    ensures ItemKey(i, f) != ItemKey(i, g)
  {
    assert |ItemKey(i, f)| == 7 + |NatToString(i)| + |f|;
    assert |ItemKey(i, g)| == 7 + |NatToString(i)| + |g|;
  }

  /** One item adds exactly the keys of its bad fields, with their messages, and changes no other key. */
  lemma AddItemErrorsSpec(errors: map<string, string>, index: nat, item: ItemInput)
    ensures forall f :: f in Fields ==>
              (ItemKey(index, f) in AddItemErrors(errors, index, item) <==> ItemKey(index, f) in errors || FieldError(item, f).Some?)
    ensures forall f :: f in Fields && FieldError(item, f).Some? ==>
              AddItemErrors(errors, index, item)[ItemKey(index, f)] == FieldError(item, f).value
    ensures forall k :: k in AddItemErrors(errors, index, item) && (forall f :: f in Fields ==> k != ItemKey(index, f)) ==>
              k in errors && AddItemErrors(errors, index, item)[k] == errors[k]
  {
    forall f | f in Fields
      ensures ItemKey(index, f) in AddItemErrors(errors, index, item) <==> ItemKey(index, f) in errors || FieldError(item, f).Some?
      ensures FieldError(item, f).Some? ==> AddItemErrors(errors, index, item)[ItemKey(index, f)] == FieldError(item, f).value
    {
      AddItemErrorsField(errors, index, item, f);
    }
    forall k | k in AddItemErrors(errors, index, item) && (forall f :: f in Fields ==> k != ItemKey(index, f))
      ensures k in errors && AddItemErrors(errors, index, item)[k] == errors[k]
    {
      assert k != ItemKey(index, Fields[0]) && k != ItemKey(index, Fields[1]);
      assert k != ItemKey(index, Fields[2]) && k != ItemKey(index, Fields[3]);
    }
  }

  /** What one item does to the key of one of its fields. */
  lemma AddItemErrorsField(errors: map<string, string>, index: nat, item: ItemInput, f: string)
    requires f in Fields
    ensures ItemKey(index, f) in AddItemErrors(errors, index, item) <==> ItemKey(index, f) in errors || FieldError(item, f).Some?
    ensures FieldError(item, f).Some? ==> AddItemErrors(errors, index, item)[ItemKey(index, f)] == FieldError(item, f).value
  {
    FieldCases(f);
    if f == "product" {
      ProductKey(errors, index, item);
    } else if f == "quantity" {
      QuantityKey(errors, index, item);
    } else if f == "price" {
      PriceKey(errors, index, item);
    } else {
      NameKey(errors, index, item);
    }
  }

  lemma ProductKey(errors: map<string, string>, index: nat, item: ItemInput)
    ensures ItemKey(index, "product") in AddItemErrors(errors, index, item) <==> ItemKey(index, "product") in errors || FieldError(item, "product").Some?
    ensures FieldError(item, "product").Some? ==> AddItemErrors(errors, index, item)[ItemKey(index, "product")] == FieldError(item, "product").value
  {
    SameIndexKeysDiffer(index, "product", "quantity");
    SameIndexKeysDiffer(index, "product", "price");
    SameIndexKeysDiffer(index, "product", "productName");
  }

  lemma QuantityKey(errors: map<string, string>, index: nat, item: ItemInput)
    ensures ItemKey(index, "quantity") in AddItemErrors(errors, index, item) <==> ItemKey(index, "quantity") in errors || FieldError(item, "quantity").Some?
    ensures FieldError(item, "quantity").Some? ==> AddItemErrors(errors, index, item)[ItemKey(index, "quantity")] == FieldError(item, "quantity").value
  {
    SameIndexKeysDiffer(index, "quantity", "product");
    SameIndexKeysDiffer(index, "quantity", "price");
    SameIndexKeysDiffer(index, "quantity", "productName");
  }

  lemma PriceKey(errors: map<string, string>, index: nat, item: ItemInput)
    ensures ItemKey(index, "price") in AddItemErrors(errors, index, item) <==> ItemKey(index, "price") in errors || FieldError(item, "price").Some?
    ensures FieldError(item, "price").Some? ==> AddItemErrors(errors, index, item)[ItemKey(index, "price")] == FieldError(item, "price").value
  {
    SameIndexKeysDiffer(index, "price", "product");
    SameIndexKeysDiffer(index, "price", "quantity");
    SameIndexKeysDiffer(index, "price", "productName");
  }

  lemma NameKey(errors: map<string, string>, index: nat, item: ItemInput)
    ensures ItemKey(index, "productName") in AddItemErrors(errors, index, item) <==> ItemKey(index, "productName") in errors || FieldError(item, "productName").Some?
    ensures FieldError(item, "productName").Some? ==> AddItemErrors(errors, index, item)[ItemKey(index, "productName")] == FieldError(item, "productName").value
  {
    SameIndexKeysDiffer(index, "productName", "product");
    SameIndexKeysDiffer(index, "productName", "quantity");
    SameIndexKeysDiffer(index, "productName", "price");
  }

  /**
   * After the scan, the key `items.<i>.<field>` is present exactly when that
   * field of item i is in error, it carries that field's message, and there
   * are no other keys.
   */
  lemma {:induction false} ItemErrorsSpec(items: seq<ItemInput>)
    ensures forall k :: k in ItemErrors(items) ==> exists i: nat, f :: i < |items| && f in Fields && k == ItemKey(i, f)
    ensures forall i: nat, f :: i < |items| && f in Fields ==>
              (ItemKey(i, f) in ItemErrors(items) <==> FieldError(items[i], f).Some?)
    ensures forall i: nat, f :: i < |items| && f in Fields && FieldError(items[i], f).Some? ==>
              ItemErrors(items)[ItemKey(i, f)] == FieldError(items[i], f).value
  {
    if items != [] {
      var n := |items| - 1;
      var init, last := items[..n], items[n];
      ItemErrorsSpec(init);
      var before := ItemErrors(init);
      var after := ItemErrors(items);
      assert after == AddItemErrors(before, n, last);
      AddItemErrorsSpec(before, n, last);
      forall k | k in after
        ensures exists i: nat, f :: i < |items| && f in Fields && k == ItemKey(i, f)
      {
        if forall f :: f in Fields ==> k != ItemKey(n, f) {
          assert k in before;
          var i: nat, f :| i < |init| && f in Fields && k == ItemKey(i, f);
          assert i < |items|;
        } else {
          var f :| f in Fields && k == ItemKey(n, f);
          assert n < |items|;
        }
      }
      forall i: nat, f | i < |items| && f in Fields
        ensures ItemKey(i, f) in after <==> FieldError(items[i], f).Some?
        ensures FieldError(items[i], f).Some? ==> after[ItemKey(i, f)] == FieldError(items[i], f).value
      {
        if i < n {
          assert items[i] == init[i];
          forall g | g in Fields ensures ItemKey(i, f) != ItemKey(n, g) {
            if ItemKey(i, f) == ItemKey(n, g) {
              ItemKeyInjective(i, f, n, g);
            }
          }
        } else {
          KeyOfLaterIndexAbsent(init, f);
        }
      }
    }
  }

  /** No key of the map for a prefix names the next index. */
  lemma KeyOfLaterIndexAbsent(init: seq<ItemInput>, f: string)
    requires forall k :: k in ItemErrors(init) ==> exists i: nat, g :: i < |init| && g in Fields && k == ItemKey(i, g)
    ensures ItemKey(|init|, f) !in ItemErrors(init)
  {
    if ItemKey(|init|, f) in ItemErrors(init) {
      var j: nat, g :| j < |init| && g in Fields && ItemKey(|init|, f) == ItemKey(j, g);
      ItemKeyInjective(|init|, f, j, g);
    }
  }

  /** An item is valid exactly when none of its fields is in error. */
  lemma ItemValidIff(item: ItemInput)
    ensures ItemValid(item) <==> forall f :: f in Fields ==> FieldError(item, f).None?
  {
    if ItemValid(item) {
      forall f | f in Fields ensures FieldError(item, f).None? {
        FieldCases(f);
      }
    } else {
      FieldCases("product");
      FieldCases("quantity");
      FieldCases("price");
      FieldCases("productName");
      if !Present(item.product) {
        assert FieldError(item, "product").Some?;
      } else if BadQuantity(item.quantity) {
        assert FieldError(item, "quantity").Some?;
      } else if BadPrice(item.price) {
        assert FieldError(item, "price").Some?;
      } else {
        assert FieldError(item, "productName").Some?;
      }
    }
  }

  /** The request is rejected for its items exactly when some item is invalid. */
  lemma ItemErrorsEmptyIff(items: seq<ItemInput>)
    ensures |ItemErrors(items)| == 0 <==> forall i :: 0 <= i < |items| ==> ItemValid(items[i])
  {
    ItemErrorsSpec(items);
    if |ItemErrors(items)| == 0 {
      forall i | 0 <= i < |items| ensures ItemValid(items[i]) {
        ItemValidIff(items[i]);
        forall f | f in Fields ensures FieldError(items[i], f).None? {
          assert ItemKey(i, f) !in ItemErrors(items);
        }
      }
    } else {
      var k :| k in ItemErrors(items);
      var i: nat, f :| i < |items| && f in Fields && k == ItemKey(i, f);
      ItemValidIff(items[i]);
    }
  }

  // ---------------------------------------------------------------------------
  // Merging: one line per product, first occurrence's fields, summed quantity, first-occurrence order

  lemma {:induction false} SumQtyAbsent(lines: seq<LineItem>, p: ProductId)
    requires IndexOfProduct(lines, p).None?
    ensures SumQty(lines, p) == 0.0
  {
    if lines != [] {
      SumQtyAbsent(lines[..|lines| - 1], p);
    }
  }

  /** The first index of `p` after appending a line. */
  lemma {:induction false} IndexOfAppend(lines: seq<LineItem>, x: LineItem, p: ProductId)
    ensures IndexOfProduct(lines + [x], p) ==
              if IndexOfProduct(lines, p).Some? then IndexOfProduct(lines, p)
              else if x.product == p then Some(|lines|)
              else None
  {
    if lines != [] && lines[0].product != p {
      assert (lines + [x])[1..] == lines[1..] + [x];
      IndexOfAppend(lines[1..], x, p);
    }
  }

  /** Equal products position by position give equal first indices. */
  lemma {:induction false} IndexOfSameProducts(a: seq<LineItem>, b: seq<LineItem>, p: ProductId)
    requires |a| == |b| && forall k :: 0 <= k < |a| ==> a[k].product == b[k].product
    ensures IndexOfProduct(a, p) == IndexOfProduct(b, p)
  {
    if a != [] && a[0].product != p {
      IndexOfSameProducts(a[1..], b[1..], p);
    }
  }

  /** What one merge step does to the merged lines. */
  lemma MergeLineShape(mi: seq<LineItem>, x: LineItem)
    ensures var m := MergeLine(mi, x);
            && |m| == (if IndexOfProduct(mi, x.product).Some? then |mi| else |mi| + 1)
            && (forall k :: 0 <= k < |mi| ==> m[k].product == mi[k].product)
            && (forall k :: 0 <= k < |mi| && mi[k].product != x.product ==> m[k] == mi[k])
            && (IndexOfProduct(mi, x.product).None? ==> m[|mi|] == x)
            && (IndexOfProduct(mi, x.product).Some? ==>
                  var k0 := IndexOfProduct(mi, x.product).value;
                  m[k0] == mi[k0].(quantity := mi[k0].quantity + x.quantity))
            && (forall p :: IndexOfProduct(m, p) ==
                  if IndexOfProduct(mi, p).Some? then IndexOfProduct(mi, p)
                  else if x.product == p then Some(|mi|) else None)
  {
    var m := MergeLine(mi, x);
    match IndexOfProduct(mi, x.product)
    case Some(k0) =>
      forall p ensures IndexOfProduct(m, p) == IndexOfProduct(mi, p) {
        IndexOfSameProducts(m, mi, p);
      }
    case None =>
      forall p ensures IndexOfProduct(m, p) ==
          if IndexOfProduct(mi, p).Some? then IndexOfProduct(mi, p) else if x.product == p then Some(|mi|) else None
      {
        IndexOfAppend(mi, x, p);
      }
  }

  /** Merged lines name distinct products, exactly the products of the input. */
  lemma {:induction false} MergeProducts(ls: seq<LineItem>)
    ensures DistinctProducts(Merge(ls))
    ensures forall p :: IndexOfProduct(Merge(ls), p).Some? <==> IndexOfProduct(ls, p).Some?
  {
    if ls != [] {
      var n := |ls| - 1;
      var init, x := ls[..n], ls[n];
      assert ls == init + [x];
      MergeProducts(init);
      MergeLineShape(Merge(init), x);
      forall p ensures IndexOfProduct(ls, p).Some? <==> IndexOfProduct(init, p).Some? || x.product == p {
        IndexOfAppend(init, x, p);
      }
    }
  }

  /** Each merged line is the first input line for its product with that product's quantities summed. */
  ghost predicate MergedFrom(m: seq<LineItem>, ls: seq<LineItem>) {
    forall k :: 0 <= k < |m| ==>
      && IndexOfProduct(ls, m[k].product).Some?
      && m[k] == ls[IndexOfProduct(ls, m[k].product).value].(quantity := SumQty(ls, m[k].product))
  }

  /** The merged lines come in order of their products' first occurrence. */
  ghost predicate FirstOccurrenceOrder(m: seq<LineItem>, ls: seq<LineItem>)
    requires forall k :: 0 <= k < |m| ==> IndexOfProduct(ls, m[k].product).Some?
  {
    forall k1, k2 :: 0 <= k1 < k2 < |m| ==>
      IndexOfProduct(ls, m[k1].product).value < IndexOfProduct(ls, m[k2].product).value
  }

  /** One merge step keeps a merged line faithful to the grown input. */
  lemma MergeStepAt(mi: seq<LineItem>, init: seq<LineItem>, x: LineItem, k: nat)
    requires MergedFrom(mi, init) && DistinctProducts(mi)
    requires forall p :: IndexOfProduct(mi, p).Some? <==> IndexOfProduct(init, p).Some?
    requires k < |MergeLine(mi, x)|
    ensures var m, ls := MergeLine(mi, x), init + [x];
            && IndexOfProduct(ls, m[k].product).Some?
            && m[k] == ls[IndexOfProduct(ls, m[k].product).value].(quantity := SumQty(ls, m[k].product))
            && IndexOfProduct(ls, m[k].product).value == (if k < |mi| then IndexOfProduct(init, mi[k].product).value else |init|)
  {
    var m, ls := MergeLine(mi, x), init + [x];
    MergeLineShape(mi, x);
    var p := m[k].product;
    IndexOfAppend(init, x, p);
    assert ls[..|init|] == init;
    assert SumQty(ls, p) == SumQty(init, p) + (if x.product == p then x.quantity else 0.0);
    if k < |mi| {
      var j := IndexOfProduct(init, p).value;
      assert ls[j] == init[j];
      if p == x.product {
        assert k == IndexOfProduct(mi, x.product).value;
      }
    } else {
      SumQtyAbsent(init, x.product);
    }
  }

  lemma {:induction false} MergeLines(ls: seq<LineItem>)
    ensures MergedFrom(Merge(ls), ls)
    ensures FirstOccurrenceOrder(Merge(ls), ls)
  {
    if ls != [] {
      var n := |ls| - 1;
      var init, x := ls[..n], ls[n];
      assert ls == init + [x];
      MergeLines(init);
      MergeProducts(init);
      var mi := Merge(init);
      var m := Merge(ls);
      assert m == MergeLine(mi, x);
      forall k | 0 <= k < |m|
        ensures IndexOfProduct(ls, m[k].product).Some?
        ensures m[k] == ls[IndexOfProduct(ls, m[k].product).value].(quantity := SumQty(ls, m[k].product))
        ensures IndexOfProduct(ls, m[k].product).value == (if k < |mi| then IndexOfProduct(init, mi[k].product).value else n)
      {
        MergeStepAt(mi, init, x, k);
      }
      MergeLineShape(mi, x);
    }
  }

  /** The merge's full contract. */
  lemma MergeSpec(ls: seq<LineItem>)
    ensures DistinctProducts(Merge(ls))
    ensures forall p :: IndexOfProduct(Merge(ls), p).Some? <==> IndexOfProduct(ls, p).Some?
    ensures forall k :: 0 <= k < |Merge(ls)| ==> IndexOfProduct(ls, Merge(ls)[k].product).Some?
    ensures forall k :: 0 <= k < |Merge(ls)| ==>
              Merge(ls)[k] == ls[IndexOfProduct(ls, Merge(ls)[k].product).value].(quantity := SumQty(ls, Merge(ls)[k].product))
    ensures forall k1, k2 :: 0 <= k1 < k2 < |Merge(ls)| ==>
              IndexOfProduct(ls, Merge(ls)[k1].product).value < IndexOfProduct(ls, Merge(ls)[k2].product).value
  {
    MergeProducts(ls);
    MergeLines(ls);
  }
  // ---------------------------------------------------------------------------
  // Looking up and decrementing stock

  /** The set of product ids named by the lines. */
  ghost function ProductIds(lines: seq<LineItem>): (ids: set<ProductId>)
    ensures forall p :: p in ids <==> IndexOfProduct(lines, p).Some?
  {
    if lines == [] then {}
    else
      var n := |lines| - 1;
      var ids := ProductIds(lines[..n]) + {lines[n].product};
      assert forall p :: IndexOfProduct(lines, p).Some? <==> IndexOfProduct(lines[..n], p).Some? || lines[n].product == p by {
        assert lines == lines[..n] + [lines[n]];
        forall p { IndexOfAppend(lines[..n], lines[n], p); }
      }
      ids
  }

  lemma {:induction false} ProductIdsCard(lines: seq<LineItem>)
    requires DistinctProducts(lines)
    ensures |ProductIds(lines)| == |lines|
  {
    if lines != [] {
      var n := |lines| - 1;
      ProductIdsCard(lines[..n]);
      assert lines[n].product !in ProductIds(lines[..n]);
    }
  }

  /** Every line names a product of the shop. */
  ghost predicate AllInShop(products: map<ProductId, Product>, lines: seq<LineItem>, shopId: ShopId) {
    forall k :: 0 <= k < |lines| ==> lines[k].product in products && products[lines[k].product].shopId == shopId
  }

  lemma ProperSubsetCard<T>(a: set<T>, b: set<T>, x: T)
    requires a <= b && x in b && x !in a
    ensures |a| < |b|
  {
    assert b == a + (b - a);
    assert x in b - a;
  }

  /**
   * The handler compares the number of documents found with the number of
   * merged lines; with distinct product ids that is the same as asking that
   * every merged product exists and belongs to the shop.
   */
  lemma FoundAllIff(products: map<ProductId, Product>, lines: seq<LineItem>, shopId: ShopId)
    requires DistinctProducts(lines)
    ensures |FoundProducts(products, lines, shopId)| == |lines| <==> AllInShop(products, lines, shopId)
  {
    var found := FoundProducts(products, lines, shopId);
    var ids := ProductIds(lines);
    ProductIdsCard(lines);
    assert found.Keys <= ids;
    if AllInShop(products, lines, shopId) {
      forall p | p in ids ensures p in found.Keys {
        var k := IndexOfProduct(lines, p).value;
        assert lines[k].product == p;
      }
      assert found.Keys == ids;
    } else {
      var k :| 0 <= k < |lines| && !(lines[k].product in products && products[lines[k].product].shopId == shopId);
      assert IndexOfProduct(lines, lines[k].product).Some?;
      ProperSubsetCard(found.Keys, ids, lines[k].product);
    }
  }

  /** The check passes exactly when every line has enough stock; a line that is found but short gives 409. */
  lemma {:induction false} StockCheckSpec(found: map<ProductId, Product>, lines: seq<LineItem>)
    ensures StockCheck(found, lines).None? <==> EnoughStock(found, lines)
    ensures (forall k :: 0 <= k < |lines| ==> lines[k].product in found) && StockCheck(found, lines).Some? ==>
              StockCheck(found, lines).value.statusCode == 409
  {
    if lines != [] {
      StockCheckSpec(found, lines[1..]);
      assert forall k :: 1 <= k < |lines| ==> lines[k] == lines[1..][k - 1];
      if EnoughStock(found, lines[1..]) && lines[0].product in found && found[lines[0].product].quantity >= lines[0].quantity {
        forall k | 0 <= k < |lines| ensures lines[k].product in found && found[lines[k].product].quantity >= lines[k].quantity {
          if k > 0 {
            assert lines[k] == lines[1..][k - 1];
          }
        }
      }
    }
  }

  /** A product after the decrement: less its line's quantity when it is ordered, otherwise as before. */
  ghost predicate DeductedFrom(after: map<ProductId, Product>, products: map<ProductId, Product>, lines: seq<LineItem>) {
    && after.Keys == products.Keys
    && forall id :: id in products ==>
         after[id] == match IndexOfProduct(lines, id)
                      case Some(k) => products[id].(quantity := products[id].quantity - lines[k].quantity)
                      case None => products[id]
  }

  lemma DeductStep(products: map<ProductId, Product>, init: seq<LineItem>, x: LineItem)
    requires DeductedFrom(Deduct(products, init), products, init)
    requires IndexOfProduct(init, x.product).None?
    ensures DeductedFrom(Deduct(products, init + [x]), products, init + [x])
  {
    var lines := init + [x];
    assert lines[..|init|] == init;
    var m := Deduct(products, init);
    var after := Deduct(products, lines);
    forall id | id in products
      ensures after[id] == match IndexOfProduct(lines, id)
                           case Some(k) => products[id].(quantity := products[id].quantity - lines[k].quantity)
                           case None => products[id]
    {
      IndexOfAppend(init, x, id);
      if id != x.product && IndexOfProduct(init, id).Some? {
        assert lines[IndexOfProduct(init, id).value] == init[IndexOfProduct(init, id).value];
      }
    }
  }

  /**
   * The bulk decrement: each ordered product loses exactly its line's quantity,
   * every other product is unchanged, and no product appears or disappears.
   */
  lemma {:induction false} DeductSpec(products: map<ProductId, Product>, lines: seq<LineItem>)
    requires DistinctProducts(lines)
    ensures DeductedFrom(Deduct(products, lines), products, lines)
  {
    if lines != [] {
      var n := |lines| - 1;
      var init, x := lines[..n], lines[n];
      assert lines == init + [x];
      DeductSpec(products, init);
      DeductStep(products, init, x);
    }
  }

  /** With distinct products, each line is the first line for its product. */
  lemma DistinctIndex(lines: seq<LineItem>, k: nat)
    requires DistinctProducts(lines) && k < |lines|
    ensures IndexOfProduct(lines, lines[k].product) == Some(k)
  {
  }

  // ---------------------------------------------------------------------------
  // The handler as a whole

  /** The lines an accepted request produces. */
  function RequestLines(req: OrderRequest): (r: seq<LineItem>)
    requires req.items.Some?
  {
    Merge(ValidLines(req.items.value))
  }

  /** Every item of the request passes validation. */
  ghost predicate AllItemsValid(items: seq<ItemInput>) {
    forall i :: 0 <= i < |items| ==> ItemValid(items[i])
  }

  /** Every line's product has at least the line's quantity in stock. */
  ghost predicate EnoughStock(stock: map<ProductId, Product>, lines: seq<LineItem>) {
    forall k :: 0 <= k < |lines| ==> lines[k].product in stock && stock[lines[k].product].quantity >= lines[k].quantity
  }

  /** For lines that all belong to the shop, the found documents and the whole store agree on stock. */
  lemma FoundStockIsStoreStock(products: map<ProductId, Product>, lines: seq<LineItem>, shopId: ShopId)
    requires AllInShop(products, lines, shopId)
    ensures EnoughStock(FoundProducts(products, lines, shopId), lines) <==> EnoughStock(products, lines)
  {
    var found := FoundProducts(products, lines, shopId);
    forall k | 0 <= k < |lines| ensures lines[k].product in found && found[lines[k].product] == products[lines[k].product] {
      assert IndexOfProduct(lines, lines[k].product).Some?;
    }
  }

  /**
   * An order is accepted exactly when the required fields are there, every
   * item is valid, every merged product belongs to the shop, and every merged
   * product has at least the merged quantity in stock.
   */
  lemma PlaceOrderSucceedsIff(products: map<ProductId, Product>, req: OrderRequest, orderId: nat, now: int)
    ensures PlaceOrder(products, req, orderId, now).Ok? <==>
              && MissingField(req).None?
              && AllItemsValid(req.items.value)
              && AllInShop(products, RequestLines(req), req.shopId.value)
              && EnoughStock(products, RequestLines(req))
  {
    if MissingField(req).None? {
      var items := req.items.value;
      ItemErrorsEmptyIff(items);
      var lines := RequestLines(req);
      MergeProducts(ValidLines(items));
      FoundAllIff(products, lines, req.shopId.value);
      var found := FoundProducts(products, lines, req.shopId.value);
      StockCheckSpec(found, lines);
      if AllInShop(products, lines, req.shopId.value) {
        FoundStockIsStoreStock(products, lines, req.shopId.value);
      }
    }
  }

  /**
   * The required fields are checked first, in the order name, contact, items,
   * shop id, whatever the items hold; then any item error gives one 400
   * carrying the whole error map. A rejection leaves the stock as it was.
   */
  lemma EarlyRejections(products: map<ProductId, Product>, req: OrderRequest, orderId: nat, now: int)
    ensures var r := PlaceOrder(products, req, orderId, now);
      && (!Present(req.name) ==> r == Fail(400, "Customer's name is required !"))
      && (Present(req.name) && !Present(req.contact) ==> r == Fail(400, "Customer's contact is required !"))
      && (Present(req.name) && Present(req.contact) && (req.items.None? || req.items.value == []) ==>
            r == Fail(400, "Product are required to set order"))
      && (Present(req.name) && Present(req.contact) && req.items.Some? && req.items.value != [] && !Present(req.shopId) ==>
            r == Fail(400, "Shop ID is required to set order"))
      && (MissingField(req).None? && ItemErrors(req.items.value) != map[] ==>
            r == Err(ApiError(400, "Invalid order items", Some(ItemErrors(req.items.value)))))
      && (r.Err? ==> StockAfter(products, r) == products)
  {
  }

  /** Once the fields and items are valid, a merged product missing from the shop gives 404. */
  lemma MissingProductIsNotFound(products: map<ProductId, Product>, req: OrderRequest, orderId: nat, now: int)
    requires MissingField(req).None? && AllItemsValid(req.items.value)
    requires !AllInShop(products, RequestLines(req), req.shopId.value)
    ensures PlaceOrder(products, req, orderId, now) == Fail(404, "One or more products not found for this shop")
  {
    ItemErrorsEmptyIff(req.items.value);
    MergeProducts(ValidLines(req.items.value));
    FoundAllIff(products, RequestLines(req), req.shopId.value);
  }

  /** Once every merged product is found, a product with less stock than its merged quantity gives 409. */
  lemma ShortStockIsConflict(products: map<ProductId, Product>, req: OrderRequest, orderId: nat, now: int)
    requires MissingField(req).None? && AllItemsValid(req.items.value)
    requires AllInShop(products, RequestLines(req), req.shopId.value)
    requires !EnoughStock(products, RequestLines(req))
    ensures PlaceOrder(products, req, orderId, now).Err?
    ensures PlaceOrder(products, req, orderId, now).error.statusCode == 409
  {
    var lines := RequestLines(req);
    ItemErrorsEmptyIff(req.items.value);
    MergeProducts(ValidLines(req.items.value));
    FoundAllIff(products, lines, req.shopId.value);
    var found := FoundProducts(products, lines, req.shopId.value);
    FoundStockIsStoreStock(products, lines, req.shopId.value);
    StockCheckSpec(found, lines);
  }

  /**
   * Stock conservation for a request that is accepted (see PlaceOrderSucceedsIff): each ordered product's
   * quantity has dropped by exactly its merged quantity, which is the sum of
   * the quantities requested for that product, and is still non-negative;
   * every other product is unchanged; no product appears or disappears.
   */
  lemma OrderConservesStock(products: map<ProductId, Product>, req: OrderRequest)
    requires MissingField(req).None? && AllItemsValid(req.items.value)
    requires AllInShop(products, RequestLines(req), req.shopId.value) && EnoughStock(products, RequestLines(req))
    ensures var lines := RequestLines(req);
            var after := Deduct(products, lines);
            && after.Keys == products.Keys
            && (forall k :: 0 <= k < |lines| ==>
                  && after[lines[k].product].quantity == products[lines[k].product].quantity - lines[k].quantity
                  && after[lines[k].product].quantity >= 0.0
                  && lines[k].quantity == SumQty(ValidLines(req.items.value), lines[k].product))
            && (forall id :: id in products && IndexOfProduct(lines, id).None? ==> after[id] == products[id])
  {
    MergeProducts(ValidLines(req.items.value));
    MergedQuantities(ValidLines(req.items.value));
    DeductConserves(products, RequestLines(req));
  }

  /** Each merged line carries the total quantity requested for its product. */
  lemma MergedQuantities(ls: seq<LineItem>)
    ensures forall k :: 0 <= k < |Merge(ls)| ==> Merge(ls)[k].quantity == SumQty(ls, Merge(ls)[k].product)
  {
    MergeLines(ls);
  }

  /** Decrementing distinct lines that all have enough stock: exact drops, nothing negative, nothing else touched. */
  lemma DeductConserves(products: map<ProductId, Product>, lines: seq<LineItem>)
    requires DistinctProducts(lines) && EnoughStock(products, lines)
    ensures var after := Deduct(products, lines);
            && after.Keys == products.Keys
            && (forall k :: 0 <= k < |lines| ==>
                  && after[lines[k].product].quantity == products[lines[k].product].quantity - lines[k].quantity
                  && after[lines[k].product].quantity >= 0.0)
            && (forall id :: id in products && IndexOfProduct(lines, id).None? ==> after[id] == products[id])
  {
    DeductSpec(products, lines);
    forall k | 0 <= k < |lines| ensures IndexOfProduct(lines, lines[k].product) == Some(k) {
      DistinctIndex(lines, k);
    }
  }

  /** Accepting an order never makes any quantity negative. */
  lemma OrderKeepsStockNonNegative(products: map<ProductId, Product>, req: OrderRequest, orderId: nat, now: int)
    requires StockNonNegative(products)
    ensures StockNonNegative(StockAfter(products, PlaceOrder(products, req, orderId, now)))
  {
    var r := PlaceOrder(products, req, orderId, now);
    if r.Ok? {
      StoredOrder(products, req, orderId, now);
      PlaceOrderSucceedsIff(products, req, orderId, now);
      OrderConservesStock(products, req);
      var lines := RequestLines(req);
      var after := Deduct(products, lines);
      forall id | id in after ensures after[id].quantity >= 0.0 {
        if IndexOfProduct(lines, id).Some? {
          var k := IndexOfProduct(lines, id).value;
          assert lines[k].product == id;
        }
      }
    }
  }

  /**
   * The stored order: the merged lines (one per product), the client's total
   * when it is a finite number and otherwise the sum of quantity times price,
   * and village "N/A" when none is given.
   */
  lemma StoredOrder(products: map<ProductId, Product>, req: OrderRequest, orderId: nat, now: int)
    requires PlaceOrder(products, req, orderId, now).Ok?
    ensures var o := PlaceOrder(products, req, orderId, now).value;
            && o.items == RequestLines(req)
            && DistinctProducts(o.items)
            && o.totalAmount == (if req.totalAmount.Finite? then req.totalAmount.v else LinesTotal(o.items))
            && o.village == (if Present(req.village) then req.village.value else "N/A")
            && o.name == req.name.value && o.contact == req.contact.value
            && o.shopId == req.shopId.value && o.id == orderId && o.createdAt == now
    ensures StockAfter(products, PlaceOrder(products, req, orderId, now)) == Deduct(products, RequestLines(req))
  {
    MergeProducts(ValidLines(req.items.value));
  }

  /**
   * Two lines of 2 and 3 units of one product against a stock of 4 merge
   * into one line of 5, which the stock check rejects with 409.
   */
  lemma MergedLinesAgainstStock(p: Product)
    requires p.quantity == 4.0 && p.shopId == "shop"
    ensures var req := OrderRequest(Some("A"), Some("555"), None,
                                    Some([ItemInput(Some("seed"), Some("Seed"), Finite(2.0), Finite(10.0), None),
                                          ItemInput(Some("seed"), Some("Seed"), Finite(3.0), Finite(10.0), None)]),
                                    NotFinite, Some("shop"));
            && PlaceOrder(map["seed" := p], req, 1, 0).Err?
            && PlaceOrder(map["seed" := p], req, 1, 0).error.statusCode == 409
  {
    var i1 := ItemInput(Some("seed"), Some("Seed"), Finite(2.0), Finite(10.0), None);
    var i2 := ItemInput(Some("seed"), Some("Seed"), Finite(3.0), Finite(10.0), None);
    var req := OrderRequest(Some("A"), Some("555"), None, Some([i1, i2]), NotFinite, Some("shop"));
    var items := [i1, i2];
    assert items[..1] == [i1] && [i1][..0] == [];
    var l1, l2 := LineOf(i1), LineOf(i2);
    assert ValidLines([i1]) == [l1];
    assert ValidLines(items) == [l1, l2];
    assert [l1, l2][..1] == [l1] && [l1][..0] == [];
    assert Merge([l1]) == [l1];
    assert RequestLines(req) == [l1.(quantity := 5.0)];
    assert RequestLines(req)[0].product == "seed" && RequestLines(req)[0].quantity == 5.0;
    ShortStockIsConflict(map["seed" := p], req, 1, 0);
  }

  /**
   * createOrder keeps the tables consistent: the stock stays non-negative and,
   * since the new order's id is fresh, order ids stay unique; users and shops
   * are not written.
   */
  lemma CreateOrderKeepsConsistent(users: map<UserId, User>, shops: map<ShopId, Shop>, products: map<ProductId, Product>,
                                   orders: seq<Order>, req: OrderRequest, orderId: nat, now: int)
    requires Consistent(users, shops, products, orders)
    requires forall k :: 0 <= k < |orders| ==> orders[k].id != orderId
    ensures var r := PlaceOrder(products, req, orderId, now);
      Consistent(users, shops, StockAfter(products, r), if r.Ok? then orders + [r.value] else orders)
  {
    var r := PlaceOrder(products, req, orderId, now);
    OrderKeepsStockNonNegative(products, req, orderId, now);
    if r.Ok? {
      StoredOrder(products, req, orderId, now);
      AppendFreshId(orders, r.value);
    }
  }

  lemma AppendFreshId(orders: seq<Order>, o: Order)
    requires UniqueOrderIds(orders)
    requires forall k :: 0 <= k < |orders| ==> orders[k].id != o.id
    ensures UniqueOrderIds(orders + [o])
  {
    var after := orders + [o];
    forall i, j | 0 <= i < j < |after| ensures after[i].id != after[j].id {
      if j == |orders| {
        assert after[i] == orders[i];
      } else {
        assert after[i] == orders[i] && after[j] == orders[j];
      }
    }
  }
}
