/**
 * Product creation and listing for one shop
 * (backend/src/controllers/product.controller.js). Both handlers run the same
 * authorization chain before doing anything else.
 */
module Products {
  import opened Common
  import opened Store

  /** The request body of `addProduct`; an absent field is `None`. */
  datatype ProductBody = ProductBody(
    title: Option<string>,
    description: Option<string>,
    costPrice: Option<string>,
    sellingPrice: Option<real>,
    expiryDate: Option<string>,
    quantity: Option<real>,
    category: Option<string>,
    img: Option<string>,
    sprayCount: Option<real>,
    tags: Option<seq<string>>,
    shopId: Option<ShopId>)

  /** A number is truthy when present and not zero. */
  predicate Truthy(n: Option<real>) {
    n.Some? && n.value != 0.0
  }

  /** The checks both handlers make, in order: 401, 400, 404, 403. */
  function AuthorizeShop(shops: map<ShopId, Shop>, userId: Option<UserId>, shopId: Option<ShopId>): (r: Result<ShopId>) {
    if !Present(userId) then Fail(401, "Unauthorized user!")
    else if !Present(shopId) then Fail(400, "Required Shop-ID")
    else if shopId.value !in shops then Fail(404, "Shop not found !")
    else if userId.value !in shops[shopId.value].owners then Fail(403, "Forbidden")
    else Ok(shopId.value)
  }

  /** Records `msg` under `k` when the field is missing. */
  function AddIf(e: map<string, string>, missing: bool, k: string, msg: string): (r: map<string, string>)
    ensures r.Keys == if missing then e.Keys + {k} else e.Keys
  {
    if missing then e[k := msg] else e
  }

  /** One entry per falsy required field; a zero quantity or selling price counts as missing. */
  function ProductErrors(b: ProductBody): (r: map<string, string>) {
    var e1 := AddIf(map[], !Present(b.title), "title", "Title of product is required !");
    var e2 := AddIf(e1, !Present(b.description), "description", "Description of product is required !");
    var e3 := AddIf(e2, !Present(b.costPrice), "costPrice", "Cost Price  of product is required !");
    var e4 := AddIf(e3, !Truthy(b.sellingPrice), "sellingPrice", "Selling Price of product is required !");
    var e5 := AddIf(e4, !Present(b.expiryDate), "expiryDate", "Expiry date of product is required !");
    AddIf(e5, !Truthy(b.quantity), "quantity", "Quantity of product is required !")
  }

  /** The stored document: the body's fields, with the route's shop id in place of any the body carries. */
  function NewProduct(b: ProductBody, shopId: ShopId): (r: Product)
    requires b.title.Some? && b.description.Some? && b.costPrice.Some? && b.sellingPrice.Some? && b.expiryDate.Some? && b.quantity.Some?
  {
    Product(shopId, b.title.value, b.description.value, b.costPrice.value, b.sellingPrice.value, b.expiryDate.value,
            b.quantity.value, b.category, b.img, b.sprayCount, b.tags.GetOr([]))
  }

  /** The answer of `addProduct` and the product table after it; `newId` is the new product's id. */
  function AddProductSpec(shops: map<ShopId, Shop>, products: map<ProductId, Product>, userId: Option<UserId>, shopId: Option<ShopId>,
                          b: ProductBody, newId: ProductId): (r: (Result<ProductId>, map<ProductId, Product>))
  {
    match AuthorizeShop(shops, userId, shopId)
    case Err(e) => (Err(e), products)
    case Ok(sid) =>
      var errors := ProductErrors(b);
      if errors != map[] then (Err(ApiError(400, "All fields are required!", Some(errors))), products)
      else (Ok(newId), products[newId := NewProduct(b, sid)])
  }

  method AddProduct(db: Database, userId: Option<UserId>, shopId: Option<ShopId>, b: ProductBody, newId: ProductId)
    returns (r: Result<ProductId>)
    requires newId !in db.products
    modifies db`products
    ensures (r, db.products) == AddProductSpec(db.shops, old(db.products), userId, shopId, b, newId)
    ensures old(db.Valid()) ==> (db.Valid() <==> r.Err? || b.quantity.value >= 0.0)
  {
    if db.Valid() {
      AddProductKeepsConsistent(db.users, db.shops, db.products, db.orders, userId, shopId, b, newId);
    }
    var auth := AuthorizeShop(db.shops, userId, shopId);
    if auth.Err? {
      return Err(auth.error);
    }
    var errors := ProductErrors(b);
    if errors != map[] {
      return Err(ApiError(400, "All fields are required!", Some(errors)));
    }
    db.products := db.products[newId := NewProduct(b, auth.value)];
    r := Ok(newId);
  }

  /** `Product.find({shopId})`: the products of one shop. */
  function ProductsOf(products: map<ProductId, Product>, shopId: ShopId): (r: map<ProductId, Product>) {
    map id | id in products && products[id].shopId == shopId :: products[id]
  }

  /** The answer of `getProducts`. */
  function GetProductsSpec(shops: map<ShopId, Shop>, products: map<ProductId, Product>, userId: Option<UserId>, shopId: Option<ShopId>)
    : (r: Result<map<ProductId, Product>>)
  {
    match AuthorizeShop(shops, userId, shopId)
    case Err(e) => Err(e)
    case Ok(sid) => Ok(ProductsOf(products, sid))
  }

  // ---------------------------------------------------------------------------
  // Properties

  /** The authorization chain: a missing user, then a missing shop id, then an unknown shop, then a non-owner. */
  lemma AuthorizeOrder(shops: map<ShopId, Shop>, userId: Option<UserId>, shopId: Option<ShopId>)
    ensures var r := AuthorizeShop(shops, userId, shopId);
      && (r.Err? ==> r.error.errors.None?)
      && (r.Err? && r.error.statusCode == 401 <==> !Present(userId))
      && (r.Err? && r.error.statusCode == 400 <==> Present(userId) && !Present(shopId))
      && (r.Err? && r.error.statusCode == 404 <==> Present(userId) && Present(shopId) && shopId.value !in shops)
      && (r.Err? && r.error.statusCode == 403 <==>
            Present(userId) && Present(shopId) && shopId.value in shops && !OwnsShop(shops, userId.value, shopId.value))
      && (r.Ok? <==> Present(userId) && Present(shopId) && OwnsShop(shops, userId.value, shopId.value))
      && (r.Ok? ==> r.value == shopId.value)
  {
  }

  /** The 400 lists every falsy required field and nothing else. */
  lemma ProductErrorsExact(b: ProductBody)
    ensures ProductErrors(b).Keys ==
      (if !Present(b.title) then {"title"} else {})
      + (if !Present(b.description) then {"description"} else {})
      + (if !Present(b.costPrice) then {"costPrice"} else {})
      + (if b.sellingPrice.None? || b.sellingPrice.value == 0.0 then {"sellingPrice"} else {})
      + (if !Present(b.expiryDate) then {"expiryDate"} else {})
      + (if b.quantity.None? || b.quantity.value == 0.0 then {"quantity"} else {})
  {
  }

  /**
   * addProduct succeeds exactly when the requester owns the shop and no
   * required field is falsy; a refusal stores nothing, and past the
   * authorization chain it is the 400 listing the falsy fields.
   */
  lemma AddProductOutcome(shops: map<ShopId, Shop>, products: map<ProductId, Product>, userId: Option<UserId>, shopId: Option<ShopId>,
                          b: ProductBody, newId: ProductId)
    ensures var (r, after) := AddProductSpec(shops, products, userId, shopId, b, newId);
      && (r.Ok? <==> AuthorizeShop(shops, userId, shopId).Ok? && Complete(b))
      && (r.Err? ==> after == products)
      && (r.Err? && AuthorizeShop(shops, userId, shopId).Ok? ==>
            r.error == ApiError(400, "All fields are required!", Some(ProductErrors(b))))
  {
    ErrorsIffIncomplete(b);
  }

  /** Every required field is present and neither number is zero. */
  predicate Complete(b: ProductBody) {
    Present(b.title) && Present(b.description) && Present(b.costPrice) && Present(b.expiryDate)
    && Truthy(b.sellingPrice) && Truthy(b.quantity)
  }

  /** There is an error exactly when the body is incomplete. */
  lemma ErrorsIffIncomplete(b: ProductBody)
    ensures ProductErrors(b) == map[] <==> Complete(b)
  {
    if ProductErrors(b) == map[] {
      NoErrorsAllPresent(b);
    } else {
      var k :| k in ProductErrors(b);
      ProductErrorsExact(b);
    }
  }

  /**
   * An accepted product is inserted under the new id, with the route's shop
   * whatever shop id the body names; every other product stays as it was.
   */
  lemma AddProductAccepted(shops: map<ShopId, Shop>, products: map<ProductId, Product>, userId: Option<UserId>, shopId: Option<ShopId>,
                           b: ProductBody, newId: ProductId)
    requires newId !in products && AuthorizeShop(shops, userId, shopId).Ok? && Complete(b)
    ensures var (r, after) := AddProductSpec(shops, products, userId, shopId, b, newId);
      && r == Ok(newId)
      && after.Keys == products.Keys + {newId} && |after| == |products| + 1
      && (forall id :: id in products ==> after[id] == products[id])
      && after[newId].shopId == shopId.value
      && after[newId].title == b.title.value && after[newId].quantity == b.quantity.value
      && after[newId].sellingPrice == b.sellingPrice.value && after[newId].quantity != 0.0
  {
    ErrorsIffIncomplete(b);
    var after := products[newId := NewProduct(b, shopId.value)];
    assert AddProductSpec(shops, products, userId, shopId, b, newId) == (Ok(newId), after);
  }

  /** No error means every required field is present and both numbers are non-zero. */
  lemma NoErrorsAllPresent(b: ProductBody)
    requires ProductErrors(b) == map[]
    ensures Present(b.title) && Present(b.description) && Present(b.costPrice) && Present(b.expiryDate)
    ensures Truthy(b.sellingPrice) && Truthy(b.quantity)
  {
    ProductErrorsExact(b);
    assert ProductErrors(b).Keys == {};
  }

  /** addProduct keeps every quantity non-negative when the new quantity is; it does not reject a negative one. */
  lemma AddProductStock(shops: map<ShopId, Shop>, products: map<ProductId, Product>, userId: Option<UserId>, shopId: Option<ShopId>,
                        b: ProductBody, newId: ProductId)
    requires newId !in products && StockNonNegative(products)
    ensures var (r, after) := AddProductSpec(shops, products, userId, shopId, b, newId);
      StockNonNegative(after) <==> r.Err? || b.quantity.value >= 0.0
  {
    AddProductOutcome(shops, products, userId, shopId, b, newId);
    if AuthorizeShop(shops, userId, shopId).Ok? && Complete(b) {
      AddProductAccepted(shops, products, userId, shopId, b, newId);
      InsertStock(products, newId, NewProduct(b, shopId.value));
    }
  }

  lemma InsertStock(products: map<ProductId, Product>, id: ProductId, p: Product)
    requires StockNonNegative(products)
    ensures StockNonNegative(products[id := p]) <==> p.quantity >= 0.0
  {
    assert products[id := p][id] == p;
  }

  /** getProducts answers, for an owner, exactly the products whose shop is the route's shop. */
  lemma GetProductsExact(shops: map<ShopId, Shop>, products: map<ProductId, Product>, userId: Option<UserId>, shopId: Option<ShopId>)
    ensures var r := GetProductsSpec(shops, products, userId, shopId);
      && (r.Err? <==> AuthorizeShop(shops, userId, shopId).Err?)
      && (r.Err? ==> r.error == AuthorizeShop(shops, userId, shopId).error)
      && (r.Ok? ==> forall id :: (id in r.value <==> id in products && products[id].shopId == shopId.value)
                             && (id in r.value ==> r.value[id] == products[id]))
  {
  }

  /** addProduct keeps the tables consistent exactly when it refuses the product or the new quantity is non-negative. */
  lemma AddProductKeepsConsistent(users: map<UserId, User>, shops: map<ShopId, Shop>, products: map<ProductId, Product>,
                                  orders: seq<Order>, userId: Option<UserId>, shopId: Option<ShopId>, b: ProductBody, newId: ProductId)
    requires newId !in products
    requires Consistent(users, shops, products, orders)
    ensures var (r, after) := AddProductSpec(shops, products, userId, shopId, b, newId);
      Consistent(users, shops, after, orders) <==> r.Err? || b.quantity.value >= 0.0
  {
    AddProductStock(shops, products, userId, shopId, b, newId);
  }
}
