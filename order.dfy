/**
 * Order placement (`createOrder` in backend/src/controllers/order.controller.js).
 *
 * The handler rejects a request that lacks the customer's name or contact, a
 * non-empty item list or a shop id; validates every line item without stopping
 * at the first bad one; merges lines that name the same product; checks that
 * every merged product exists in the shop and has enough stock; decrements the
 * stock; and stores the order. All of it runs in one transaction, so a rejected
 * order leaves the store as it was.
 */
module Orders {
  import opened Common
  import opened Store

  /** The value of JavaScript's `Number(x)`: a finite number, or NaN / an infinity. */
  datatype Num = Finite(v: real) | NotFinite

  /** One element of `req.body.items`; a null element has every field missing. */
  datatype ItemInput = ItemInput(
    product: Option<string>,
    productName: Option<string>,
    quantity: Num,
    price: Num,
    category: Option<string>)

  /** The request body; `items` is `None` when it is not an array. */
  datatype OrderRequest = OrderRequest(
    name: Option<string>,
    contact: Option<string>,
    village: Option<string>,
    items: Option<seq<ItemInput>>,
    totalAmount: Num,
    shopId: Option<string>)

  // ---------------------------------------------------------------------------
  // Required fields, checked in order before any item is looked at

  function MissingField(req: OrderRequest): (r: Option<ApiError>) {
    if !Present(req.name) then Some(ApiError(400, "Customer's name is required !", None))
    else if !Present(req.contact) then Some(ApiError(400, "Customer's contact is required !", None))
    else if req.items.None? || |req.items.value| == 0 then Some(ApiError(400, "Product are required to set order", None))
    else if !Present(req.shopId) then Some(ApiError(400, "Shop ID is required to set order", None))
    else None
  }

  // ---------------------------------------------------------------------------
  // Per-item validation: every error of every item is collected under `items.<i>.<field>`

  predicate BadQuantity(n: Num) {
    !(n.Finite? && n.v > 0.0)
  }

  predicate BadPrice(n: Num) {
    !(n.Finite? && n.v >= 0.0)
  }

  predicate ItemValid(item: ItemInput) {
    Present(item.product) && !BadQuantity(item.quantity) && !BadPrice(item.price) && Present(item.productName)
  }

  const Fields: seq<string> := ["product", "quantity", "price", "productName"]

  function ItemKey(index: nat, field: string): (r: string) {
    "items." + NatToString(index) + "." + field
  }

  /** The message recorded for one field of one item, if that field is in error. */
  function FieldError(item: ItemInput, field: string): (r: Option<string>) {
    if field == "product" then
      if !Present(item.product) then Some("Product id is required") else None
    else if !Present(item.product) then None
    else if field == "quantity" then
      if BadQuantity(item.quantity) then Some("Quantity must be greater than 0") else None
    else if field == "price" then
      if BadPrice(item.price) then Some("Price must be a valid number") else None
    else if field == "productName" then
      if !Present(item.productName) then Some("Product name is required") else None
    else None
  }

  /** The error map after one more item: a missing product id stops the checks of that item. */
  function AddItemErrors(errors: map<string, string>, index: nat, item: ItemInput): (r: map<string, string>) {
    if !Present(item.product) then errors[ItemKey(index, "product") := "Product id is required"]
    else
      var e1 := if BadQuantity(item.quantity) then errors[ItemKey(index, "quantity") := "Quantity must be greater than 0"] else errors;
      var e2 := if BadPrice(item.price) then e1[ItemKey(index, "price") := "Price must be a valid number"] else e1;
      if !Present(item.productName) then e2[ItemKey(index, "productName") := "Product name is required"] else e2
  }

  /** The error map after the scan of `items` (accumulated from the left, as the loop does). */
  function ItemErrors(items: seq<ItemInput>): (r: map<string, string>) {
    if items == [] then map[]
    else AddItemErrors(ItemErrors(items[..|items| - 1]), |items| - 1, items[|items| - 1])
  }

  /** The line an item contributes when it is valid; the category defaults to "uncategorized". */
  function LineOf(item: ItemInput): (r: LineItem)
    requires ItemValid(item)
  {
    LineItem(item.product.value, item.productName.value, item.quantity.v, item.price.v,
             if Present(item.category) then item.category.value else "uncategorized")
  }

  function ValidLines(items: seq<ItemInput>): (r: seq<LineItem>) {
    if items == [] then []
    else
      var last := items[|items| - 1];
      ValidLines(items[..|items| - 1]) + (if ItemValid(last) then [LineOf(last)] else [])
  }

  // ---------------------------------------------------------------------------
  // Merging lines that name the same product

  /** The first index of a line for product `p`. */
  function IndexOfProduct(lines: seq<LineItem>, p: ProductId): (r: Option<nat>)
    ensures r.Some? ==> r.value < |lines| && lines[r.value].product == p
    ensures r.Some? ==> forall i :: 0 <= i < r.value ==> lines[i].product != p
    ensures r.None? ==> forall i :: 0 <= i < |lines| ==> lines[i].product != p
  {
    if lines == [] then None
    else if lines[0].product == p then Some(0)
    else
      match IndexOfProduct(lines[1..], p)
      case Some(k) => Some(k + 1)
      case None => None
  }

  /** `normalizedMap` after one more valid line: add to the existing line, or append. */
  function MergeLine(lines: seq<LineItem>, line: LineItem): (r: seq<LineItem>) {
    match IndexOfProduct(lines, line.product)
    case Some(k) => lines[k := lines[k].(quantity := lines[k].quantity + line.quantity)]
    case None => lines + [line]
  }

  function Merge(lines: seq<LineItem>): (r: seq<LineItem>) {
    if lines == [] then []
    else MergeLine(Merge(lines[..|lines| - 1]), lines[|lines| - 1])
  }

  /** The quantity requested for product `p` over all lines. */
  function SumQty(lines: seq<LineItem>, p: ProductId): (r: real) {
    if lines == [] then 0.0
    else
      var last := lines[|lines| - 1];
      SumQty(lines[..|lines| - 1], p) + (if last.product == p then last.quantity else 0.0)
  }

  predicate DistinctProducts(lines: seq<LineItem>) {
    forall i, j :: 0 <= i < j < |lines| ==> lines[i].product != lines[j].product
  }

  // ---------------------------------------------------------------------------
  // Looking the products up in the shop and checking stock

  /** `Product.find({_id: {$in: ids}, shopId})`: the requested products that belong to the shop. */
  function FoundProducts(products: map<ProductId, Product>, lines: seq<LineItem>, shopId: ShopId): (found: map<ProductId, Product>)
    ensures forall id :: id in found <==> id in products && products[id].shopId == shopId && IndexOfProduct(lines, id).Some?
    ensures forall id :: id in found ==> found[id] == products[id]
  {
    map id | id in products && products[id].shopId == shopId && IndexOfProduct(lines, id).Some? :: products[id]
  }

  /** Renders a JavaScript number in a message (whole numbers exactly). */
  function NumberText(x: real): (r: string) {
    IntToString(x.Floor)
  }

  /** The per-line check after the lookup; it throws at the first line that fails. */
  function StockCheck(found: map<ProductId, Product>, lines: seq<LineItem>): (r: Option<ApiError>) {
    if lines == [] then None
    else
      var line := lines[0];
      if line.product !in found then Some(ApiError(404, "Product not found", None))
      else if found[line.product].quantity < line.quantity then
        Some(ApiError(409, "Only " + NumberText(found[line.product].quantity) + " available for " + found[line.product].title, None))
      else StockCheck(found, lines[1..])
  }

  /** The stock after the bulk `$inc` of every line. */
  function Deduct(products: map<ProductId, Product>, lines: seq<LineItem>): (r: map<ProductId, Product>) {
    if lines == [] then products
    else
      var m := Deduct(products, lines[..|lines| - 1]);
      var line := lines[|lines| - 1];
      if line.product in m then m[line.product := m[line.product].(quantity := m[line.product].quantity - line.quantity)]
      else m
  }

  /** Σ quantity × price over the merged lines. */
  function LinesTotal(lines: seq<LineItem>): (r: real) {
    if lines == [] then 0.0
    else
      var last := lines[|lines| - 1];
      LinesTotal(lines[..|lines| - 1]) + last.quantity * last.price
  }

  /** The client's total when it converts to a finite number, otherwise the computed one. */
  function OrderTotal(totalAmount: Num, lines: seq<LineItem>): (r: real) {
    if totalAmount.Finite? then totalAmount.v else LinesTotal(lines)
  }

  /** The whole handler as a function of the products before the call. */
  function PlaceOrder(products: map<ProductId, Product>, req: OrderRequest, orderId: nat, now: int): (r: Result<Order>) {
    match MissingField(req)
    case Some(e) => Err(e)
    case None =>
      var items := req.items.value;
      var errors := ItemErrors(items);
      if |errors| > 0 then Err(ApiError(400, "Invalid order items", Some(errors)))
      else
        var lines := Merge(ValidLines(items));
        var shopId := req.shopId.value;
        var found := FoundProducts(products, lines, shopId);
        if |found| != |lines| then Fail(404, "One or more products not found for this shop")
        else
          match StockCheck(found, lines)
          case Some(e) => Err(e)
          case None =>
            Ok(Order(orderId, shopId, req.name.value, req.contact.value,
                     if Present(req.village) then req.village.value else "N/A",
                     lines, OrderTotal(req.totalAmount, lines), now))
  }

  /** The products after the handler: decremented on success, untouched otherwise. */
  function StockAfter(products: map<ProductId, Product>, r: Result<Order>): (res: map<ProductId, Product>) {
    if r.Ok? then Deduct(products, r.value.items) else products
  }

  // ---------------------------------------------------------------------------
  // The handler

  /** One step of the scan extends the error map and the merged lines by one item. */
  lemma ScanStep(items: seq<ItemInput>, index: nat)
    requires index < |items|
    ensures ItemErrors(items[..index + 1]) == AddItemErrors(ItemErrors(items[..index]), index, items[index])
    ensures Merge(ValidLines(items[..index + 1])) ==
              if ItemValid(items[index]) then MergeLine(Merge(ValidLines(items[..index])), LineOf(items[index]))
              else Merge(ValidLines(items[..index]))
  {
    var prefix := items[..index + 1];
    assert prefix[..index] == items[..index];
    var before := ValidLines(items[..index]);
    if ItemValid(items[index]) {
      var grown := before + [LineOf(items[index])];
      assert ValidLines(prefix) == grown;
      assert grown[..|grown| - 1] == before;
    } else {
      assert ValidLines(prefix) == before + [];
      assert before + [] == before;
    }
  }

  /** The `items.forEach` scan: collects the error map and the merged lines. */
  method NormalizeItems(items: seq<ItemInput>) returns (errors: map<string, string>, lines: seq<LineItem>)
    ensures errors == ItemErrors(items)
    ensures lines == Merge(ValidLines(items))
  {
    errors, lines := map[], [];
    var index := 0;
    while index < |items|
      invariant 0 <= index <= |items|
      invariant errors == ItemErrors(items[..index])
      invariant lines == Merge(ValidLines(items[..index]))
    {
      var item := items[index];
      ScanStep(items, index);
      if !Present(item.product) {
        errors := errors[ItemKey(index, "product") := "Product id is required"];
      } else {
        var invalid := false;
        if BadQuantity(item.quantity) {
          errors := errors[ItemKey(index, "quantity") := "Quantity must be greater than 0"];
          invalid := true;
        }
        if BadPrice(item.price) {
          errors := errors[ItemKey(index, "price") := "Price must be a valid number"];
          invalid := true;
        }
        if !Present(item.productName) {
          errors := errors[ItemKey(index, "productName") := "Product name is required"];
          invalid := true;
        }
        if !invalid {
          lines := MergeLine(lines, LineOf(item));
        }
      }
      index := index + 1;
    }
    assert items[..|items|] == items;
  }

  /** The `normalizedItems.forEach` check: the first missing product or short stock, if any. */
  method CheckStock(found: map<ProductId, Product>, lines: seq<LineItem>) returns (e: Option<ApiError>)
    ensures e == StockCheck(found, lines)
  {
    var i := 0;
    while i < |lines|
      invariant 0 <= i <= |lines|
      invariant StockCheck(found, lines) == StockCheck(found, lines[i..])
    {
      var line := lines[i];
      assert lines[i..][1..] == lines[i + 1..];
      if line.product !in found {
        return Some(ApiError(404, "Product not found", None));
      }
      if found[line.product].quantity < line.quantity {
        return Some(ApiError(409, "Only " + NumberText(found[line.product].quantity) + " available for " + found[line.product].title, None));
      }
      i := i + 1;
    }
    return None;
  }

  /** The bulk write: one `$inc` of minus the line's quantity per merged line. */
  method ApplyDecrements(products: map<ProductId, Product>, lines: seq<LineItem>) returns (stock: map<ProductId, Product>)
    ensures stock == Deduct(products, lines)
  {
    stock := products;
    var i := 0;
    while i < |lines|
      invariant 0 <= i <= |lines|
      invariant stock == Deduct(products, lines[..i])
    {
      var line := lines[i];
      assert lines[..i + 1][..i] == lines[..i];
      if line.product in stock {
        stock := stock[line.product := stock[line.product].(quantity := stock[line.product].quantity - line.quantity)];
      }
      i := i + 1;
    }
    assert lines[..|lines|] == lines;
  }

  method CreateOrder(db: Database, req: OrderRequest, orderId: nat, now: int) returns (r: Result<Order>)
    requires forall k :: 0 <= k < |db.orders| ==> db.orders[k].id != orderId
    modifies db`products, db`orders
    ensures r == PlaceOrder(old(db.products), req, orderId, now)
    ensures db.products == StockAfter(old(db.products), r)
    ensures db.orders == if r.Ok? then old(db.orders) + [r.value] else old(db.orders)
  {
    if !Present(req.name) { return Fail(400, "Customer's name is required !"); }
    if !Present(req.contact) { return Fail(400, "Customer's contact is required !"); }
    if req.items.None? || |req.items.value| == 0 { return Fail(400, "Product are required to set order"); }
    if !Present(req.shopId) { return Fail(400, "Shop ID is required to set order"); }

    var items := req.items.value;
    var errors, lines := NormalizeItems(items);
    if |errors| > 0 {
      return Err(ApiError(400, "Invalid order items", Some(errors)));
    }

    // The transaction: nothing below writes to the store until every check has passed.
    var shopId := req.shopId.value;
    var found := FoundProducts(db.products, lines, shopId);
    if |found| != |lines| {
      return Fail(404, "One or more products not found for this shop");
    }
    var shortfall := CheckStock(found, lines);
    if shortfall.Some? {
      return Err(shortfall.value);
    }
    var stock := ApplyDecrements(db.products, lines);
    var village := if Present(req.village) then req.village.value else "N/A";
    var order := Order(orderId, shopId, req.name.value, req.contact.value, village, lines, OrderTotal(req.totalAmount, lines), now);
    db.products := stock;
    db.orders := db.orders + [order];
    r := Ok(order);
  }
}
