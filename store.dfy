/**
 * The records the backend keeps (users, sessions, shops, products, orders) and
 * the document store that holds them. The store is one object whose collections
 * the handlers replace as a whole, so each handler is one atomic step: a
 * transaction either commits all of its writes or none of them.
 */
module Store {
  import opened Common

  type UserId = string
  type ShopId = string
  type ProductId = string

  datatype Role = UserRole | OwnerRole

  /** A registered user; `password` is the bcrypt hash, never the plaintext. */
  datatype User = User(name: string, email: string, password: string, role: Role)

  /** A refresh-token session: the SHA-256 digest of the token and its expiry (milliseconds). */
  datatype Session = Session(userId: UserId, token: string, expiresAt: int)

  datatype Shop = Shop(name: string, owners: seq<UserId>)

  datatype Product = Product(
    shopId: ShopId,
    title: string,
    description: string,
    costPrice: string,
    sellingPrice: real,
    expiryDate: string,
    quantity: real,
    category: Option<string>,
    img: Option<string>,
    sprayCount: Option<real>,
    tags: seq<string>)

  /** One order line: a snapshot of the product at order time. */
  datatype LineItem = LineItem(product: ProductId, productName: string, quantity: real, price: real, category: string)

  /** A stored order; `id` is the ObjectId read as a number, `createdAt` a timestamp in milliseconds. */
  datatype Order = Order(
    id: nat,
    shopId: ShopId,
    name: string,
    contact: string,
    village: string,
    items: seq<LineItem>,
    totalAmount: real,
    createdAt: int)

  /** No product's quantity on hand is negative. */
  ghost predicate StockNonNegative(products: map<ProductId, Product>) {
    forall id :: id in products ==> products[id].quantity >= 0.0
  }

  /** No two orders share an id. */
  ghost predicate UniqueOrderIds(orders: seq<Order>) {
    forall i, j :: 0 <= i < j < |orders| ==> orders[i].id != orders[j].id
  }

  /** No two users share an email address. */
  ghost predicate UniqueEmails(users: map<UserId, User>) {
    forall u, v :: u in users && v in users && users[u].email == users[v].email ==> u == v
  }

  /** User `u` is listed among the owners of shop `s`. */
  predicate OwnsShop(shops: map<ShopId, Shop>, u: UserId, s: ShopId) {
    s in shops && u in shops[s].owners
  }

  /** Each user appears in at most one shop's owner list, and at most once in it. */
  ghost predicate SoleOwnership(shops: map<ShopId, Shop>) {
    && (forall u, a, b :: OwnsShop(shops, u, a) && OwnsShop(shops, u, b) ==> a == b)
    && (forall s, i, j :: s in shops && 0 <= i < j < |shops[s].owners| ==> shops[s].owners[i] != shops[s].owners[j])
  }

  /** Every listed owner is a registered user whose role is `owner`. */
  ghost predicate OwnersHaveRole(shops: map<ShopId, Shop>, users: map<UserId, User>) {
    forall u, s :: OwnsShop(shops, u, s) ==> u in users && users[u].role == OwnerRole
  }

  /** Some user has this email address. */
  predicate EmailTaken(users: map<UserId, User>, email: string) {
    exists id :: id in users && users[id].email == email
  }

  /** `User.findOne({email})`. */
  ghost function UserWithEmail(users: map<UserId, User>, email: string): (r: Option<UserId>)
    ensures r.Some? ==> r.value in users && users[r.value].email == email
    ensures r.None? <==> !EmailTaken(users, email)
  {
    if EmailTaken(users, email) then Some(var id :| id in users && users[id].email == email; id) else None
  }

  /** With unique emails, the user found by an email is the one holding it. */
  lemma UserWithEmailIs(users: map<UserId, User>, id: UserId)
    requires UniqueEmails(users) && id in users
    ensures UserWithEmail(users, users[id].email) == Some(id)
  {
    var found := UserWithEmail(users, users[id].email);
    assert found.Some? && users[found.value].email == users[id].email;
  }

  /**
   * The invariants the tables are meant to keep; the sessions carry none.
   * Which handler keeps them is proved handler by handler: createOrder,
   * signup and addOwner keep all of them (`CreateOrderKeepsConsistent`,
   * `SignupKeepsConsistent`, `AddOwnerKeepsConsistent`), and login, logout
   * and refresh write only the sessions. Two handlers do not always keep them:
   * createShop keeps them only when the requester is a registered user
   * (`CreateShopKeepsConsistent`, `UnregisteredCreator`), and addProduct
   * exactly when the new quantity is non-negative (`AddProductKeepsConsistent`).
   */
  ghost predicate Consistent(users: map<UserId, User>, shops: map<ShopId, Shop>, products: map<ProductId, Product>, orders: seq<Order>) {
    && StockNonNegative(products)
    && UniqueOrderIds(orders)
    && UniqueEmails(users)
    && SoleOwnership(shops)
    && OwnersHaveRole(shops, users)
  }

  class Database {
    var users: map<UserId, User>
    var sessions: seq<Session>
    var shops: map<ShopId, Shop>
    var products: map<ProductId, Product>
    var orders: seq<Order>

    /** The tables are consistent (see `Consistent` for which handlers keep this). */
    ghost predicate Valid()
      reads this
    {
      Consistent(users, shops, products, orders)
    }

    constructor ()
      ensures Valid()
      ensures users == map[] && sessions == [] && shops == map[] && products == map[] && orders == []
    {
      users, sessions, shops, products, orders := map[], [], map[], map[], [];
    }
  }
}
