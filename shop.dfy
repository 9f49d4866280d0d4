/**
 * Shop creation, co-owner addition and the requester's own shop
 * (backend/src/controllers/shop.controller.js) over the shop and user tables.
 *
 * `Shop.findOne({owners: {$in: [id]}})` returns some shop listing the user;
 * which one the store picks when several do is not specified, so the spec
 * functions take that answer as a parameter `found` constrained by
 * `FindsShop`, and the methods return the shop they used. Under
 * `SoleOwnership` the answer is unique (`FoundShopUnique`).
 */
module Shops {
  import opened Common
  import opened Store

  datatype ShopReply =
    | Created(id: ShopId)                 // 201 "Shop is created successfully!"
    | OwnerAdded                          // 200 "User added as owner of shop successfully"
    | MyShop(id: ShopId, shop: Shop)      // 200 with the shop document

  /** `found` is a possible answer of `Shop.findOne({owners: {$in: [owner]}})`. */
  predicate FindsShop(shops: map<ShopId, Shop>, owner: Option<UserId>, found: Option<ShopId>) {
    && (found.Some? ==> owner.Some? && OwnsShop(shops, owner.value, found.value))
    && (found.None? ==> owner.None? || !OwnsAny(shops, owner.value))
  }

  /** `Shop.exists({owners: u})`: some shop lists the user. */
  predicate OwnsAny(shops: map<ShopId, Shop>, u: UserId) {
    exists s :: s in shops && OwnsShop(shops, u, s)
  }

  /** `User.updateOne({_id: u}, {$set: {role: 'owner'}})`: matches nobody when the id is unknown. */
  function Promote(users: map<UserId, User>, u: UserId): (r: map<UserId, User>) {
    if u in users then users[u := users[u].(role := OwnerRole)] else users
  }

  /** `$addToSet`: appends only when absent. */
  function AddToSet(xs: seq<UserId>, x: UserId): (r: seq<UserId>) {
    if x in xs then xs else xs + [x]
  }

  // ---------------------------------------------------------------------------
  // createShop

  /** The answer of `createShop` and the shop and user tables after it; `newId` is the new shop's id. */
  function CreateShopSpec(shops: map<ShopId, Shop>, users: map<UserId, User>, userId: Option<UserId>, name: Option<string>, newId: ShopId)
    : (r: (Result<ShopReply>, map<ShopId, Shop>, map<UserId, User>))
  {
    if !Present(userId) || !Present(name) then (Fail(400, "Missing required fields!"), shops, users)
    else if OwnsAny(shops, userId.value) then (Fail(409, "Unable to create shop"), shops, users)
    else (Ok(Created(newId)), shops[newId := Shop(name.value, [userId.value])], Promote(users, userId.value))
  }

  method CreateShop(db: Database, userId: Option<UserId>, name: Option<string>, newId: ShopId) returns (r: Result<ShopReply>)
    requires newId !in db.shops
    modifies db`shops, db`users
    ensures (r, db.shops, db.users) == CreateShopSpec(old(db.shops), old(db.users), userId, name, newId)
    ensures old(db.Valid()) && (Present(userId) ==> userId.value in old(db.users)) ==> db.Valid()
  {
    if db.Valid() && (Present(userId) ==> userId.value in db.users) {
      CreateShopKeepsConsistent(db.users, db.shops, db.products, db.orders, userId, name, newId);
    }
    if !Present(userId) || !Present(name) {
      return Fail(400, "Missing required fields!");
    }
    var u := userId.value;
    if exists s :: s in db.shops && u in db.shops[s].owners {
      return Fail(409, "Unable to create shop");
    }
    // one transaction: the shop and the role change commit together
    db.shops := db.shops[newId := Shop(name.value, [u])];
    if u in db.users {
      db.users := db.users[u := db.users[u].(role := OwnerRole)];
    }
    r := Ok(Created(newId));
  }

  // ---------------------------------------------------------------------------
  // addOwner

  /** The target user: by id when one is given, otherwise by email. */
  ghost function Target(users: map<UserId, User>, userId: Option<UserId>, email: Option<string>): (r: Option<UserId>)
    ensures r.Some? ==> r.value in users
  {
    if Present(userId) then (if userId.value in users then userId else None)
    else if email.Some? then UserWithEmail(users, email.value)
    else None
  }

  /** The answer of `addOwner` when the requester's shop lookup answered `found`, and the tables after it. */
  ghost function AddOwnerSpec(shops: map<ShopId, Shop>, users: map<UserId, User>, userId: Option<UserId>, email: Option<string>,
                              found: Option<ShopId>)
    : (r: (Result<ShopReply>, map<ShopId, Shop>, map<UserId, User>))
    requires found.Some? ==> found.value in shops
  {
    match Target(users, userId, email)
    case None => (Fail(404, "User does not exist!"), shops, users)
    case Some(t) =>
      if OwnsAny(shops, t) then (Fail(409, "User already owns a shop"), shops, users)
      else if found.None? then (Fail(401, "Unauthorized user!"), shops, users)
      else
        var f := found.value;
        (Ok(OwnerAdded), shops[f := shops[f].(owners := AddToSet(shops[f].owners, t))], Promote(users, t))
  }

  method AddOwner(db: Database, userId: Option<UserId>, email: Option<string>, ownerId: Option<UserId>)
    returns (r: Result<ShopReply>, found: Option<ShopId>)
    requires UniqueEmails(db.users)
    modifies db`shops, db`users
    ensures FindsShop(old(db.shops), ownerId, found)
    ensures (r, db.shops, db.users) == AddOwnerSpec(old(db.shops), old(db.users), userId, email, found)
    ensures old(db.Valid()) ==> db.Valid()
  {
    found := None;
    if ownerId.Some? && exists s :: s in db.shops && ownerId.value in db.shops[s].owners {
      var s :| s in db.shops && ownerId.value in db.shops[s].owners;
      found := Some(s);
    }
    if db.Valid() {
      AddOwnerKeepsConsistent(db.users, db.shops, db.products, db.orders, userId, email, ownerId, found);
    }
    var t: UserId;
    if Present(userId) {
      if userId.value !in db.users {
        return Fail(404, "User does not exist!"), found;
      }
      t := userId.value;
    } else {
      if email.None? || !exists u :: u in db.users && db.users[u].email == email.value {
        return Fail(404, "User does not exist!"), found;
      }
      t :| t in db.users && db.users[t].email == email.value;
      UserWithEmailIs(db.users, t);
    }
    assert Target(db.users, userId, email) == Some(t);
    if exists s :: s in db.shops && t in db.shops[s].owners {
      return Fail(409, "User already owns a shop"), found;
    }
    if found.None? {
      return Fail(401, "Unauthorized user!"), found;
    }
    // one transaction: the owner list and the role change commit together
    var f := found.value;
    var owners := db.shops[f].owners;
    if t !in owners {
      owners := owners + [t];
    }
    db.shops := db.shops[f := db.shops[f].(owners := owners)];
    if t in db.users {
      db.users := db.users[t := db.users[t].(role := OwnerRole)];
    }
    r := Ok(OwnerAdded);
  }

  // ---------------------------------------------------------------------------
  // getMyShop

  function GetMyShopSpec(shops: map<ShopId, Shop>, ownerId: Option<UserId>, found: Option<ShopId>): (r: Result<ShopReply>)
    requires found.Some? ==> found.value in shops
  {
    if !Present(ownerId) then Fail(401, "Unauthorized user!")
    else if found.None? then Fail(404, "Shop not found for this user")
    else Ok(MyShop(found.value, shops[found.value]))
  }

  method GetMyShop(db: Database, ownerId: Option<UserId>) returns (r: Result<ShopReply>, found: Option<ShopId>)
    ensures FindsShop(db.shops, ownerId, found)
    ensures r == GetMyShopSpec(db.shops, ownerId, found)
  {
    found := None;
    if ownerId.Some? && exists s :: s in db.shops && ownerId.value in db.shops[s].owners {
      var s :| s in db.shops && ownerId.value in db.shops[s].owners;
      found := Some(s);
    }
    if !Present(ownerId) {
      return Fail(401, "Unauthorized user!"), found;
    }
    if found.None? {
      return Fail(404, "Shop not found for this user"), found;
    }
    r := Ok(MyShop(found.value, db.shops[found.value]));
  }

  // ---------------------------------------------------------------------------
  // Properties

  /** When every user owns at most one shop, the shop lookup has one answer. */
  lemma FoundShopUnique(shops: map<ShopId, Shop>, owner: Option<UserId>, f1: Option<ShopId>, f2: Option<ShopId>)
    requires SoleOwnership(shops)
    requires FindsShop(shops, owner, f1) && FindsShop(shops, owner, f2)
    ensures f1 == f2
  {
    if f1.Some? { assert OwnsShop(shops, owner.value, f1.value); }
    if f2.Some? { assert OwnsShop(shops, owner.value, f2.value); }
  }

  /** Promotion changes one user's role and nothing else, so emails stay unique. */
  lemma PromoteSpec(users: map<UserId, User>, u: UserId)
    ensures var after := Promote(users, u);
      && after.Keys == users.Keys
      && (u in users ==> after[u].role == OwnerRole)
      && (forall v :: v in users ==> after[v].email == users[v].email && after[v].name == users[v].name && after[v].password == users[v].password)
      && (forall v :: v in users && v != u ==> after[v] == users[v])
      && (UniqueEmails(users) ==> UniqueEmails(after))
  {
  }

  /**
   * createShop: a missing user id or name is a 400 and a user already listed
   * as an owner is a 409, both leaving both tables as they were; otherwise
   * exactly one shop is added, owned by the requester alone, and the
   * requester's role becomes `owner` in the same step.
   */
  lemma CreateShopOutcomes(shops: map<ShopId, Shop>, users: map<UserId, User>, userId: Option<UserId>, name: Option<string>, newId: ShopId)
    requires newId !in shops
    ensures var (r, shops', users') := CreateShopSpec(shops, users, userId, name, newId);
      && (!Present(userId) || !Present(name) ==> r == Fail(400, "Missing required fields!"))
      && (Present(userId) && Present(name) && OwnsAny(shops, userId.value) ==> r == Fail(409, "Unable to create shop"))
      && (r.Ok? <==> Present(userId) && Present(name) && !OwnsAny(shops, userId.value))
      && (r.Err? ==> shops' == shops && users' == users)
      && (r.Ok? ==>
            && r.value == Created(newId)
            && shops'.Keys == shops.Keys + {newId} && |shops'| == |shops| + 1
            && shops'[newId] == Shop(name.value, [userId.value])
            && (forall s :: s in shops ==> shops'[s] == shops[s])
            && users'.Keys == users.Keys
            && (userId.value in users ==> users'[userId.value].role == OwnerRole)
            && (forall v :: v in users && v != userId.value ==> users'[v] == users[v]))
  {
  }

  /** createShop keeps every user in at most one owner list, and every owner an `owner`, when the requester is a registered user. */
  lemma CreateShopKeepsOwnership(shops: map<ShopId, Shop>, users: map<UserId, User>, userId: Option<UserId>, name: Option<string>, newId: ShopId)
    requires newId !in shops
    requires SoleOwnership(shops) && OwnersHaveRole(shops, users)
    requires Present(userId) ==> userId.value in users
    ensures var (_, shops', users') := CreateShopSpec(shops, users, userId, name, newId);
      SoleOwnership(shops') && OwnersHaveRole(shops', users')
  {
    var (r, shops', users') := CreateShopSpec(shops, users, userId, name, newId);
    if r.Ok? {
      var u := userId.value;
      assert !OwnsAny(shops, u);
      forall v, a | OwnsShop(shops', v, a)
        ensures (a == newId <==> v == u) && (a != newId ==> OwnsShop(shops, v, a))
      {
        if a != newId { assert OwnsShop(shops, v, a); }
      }
      forall v, a | OwnsShop(shops', v, a) ensures v in users' && users'[v].role == OwnerRole {
        if a != newId { assert OwnsShop(shops, v, a); }
      }
    }
  }

  /**
   * addOwner checks in a fixed order: an unknown target is a 404, a target who
   * already owns a shop a 409 (even when the requester has no shop), and a
   * requester without a shop a 401; each leaves both tables as they were.
   */
  lemma AddOwnerRejects(shops: map<ShopId, Shop>, users: map<UserId, User>, userId: Option<UserId>, email: Option<string>, found: Option<ShopId>)
    requires found.Some? ==> found.value in shops
    ensures var (r, shops', users') := AddOwnerSpec(shops, users, userId, email, found);
      var t := Target(users, userId, email);
      && (t.None? ==> r == Fail(404, "User does not exist!"))
      && (t.Some? && OwnsAny(shops, t.value) ==> r == Fail(409, "User already owns a shop"))
      && (t.Some? && !OwnsAny(shops, t.value) && found.None? ==> r == Fail(401, "Unauthorized user!"))
      && (r.Ok? <==> t.Some? && !OwnsAny(shops, t.value) && found.Some?)
      && (r.Err? ==> shops' == shops && users' == users)
  {
  }

  /** The target is found by id when an id is given, and otherwise by email. */
  lemma TargetLookup(users: map<UserId, User>, userId: Option<UserId>, email: Option<string>)
    requires UniqueEmails(users)
    ensures Present(userId) ==> (Target(users, userId, email).Some? <==> userId.value in users)
    ensures Present(userId) && userId.value in users ==> Target(users, userId, email) == userId
    ensures !Present(userId) && email.Some? ==>
      forall u :: u in users && users[u].email == email.value ==> Target(users, userId, email) == Some(u)
  {
    if !Present(userId) && email.Some? {
      forall u | u in users && users[u].email == email.value ensures Target(users, userId, email) == Some(u) {
        UserWithEmailIs(users, u);
      }
    }
  }

  /**
   * An accepted addOwner appends the target to the requester's shop (the
   * target was in no owner list, so the set-add is an append), promotes the
   * target, and leaves every other shop and user as it was.
   */
  lemma AddOwnerAppends(shops: map<ShopId, Shop>, users: map<UserId, User>, userId: Option<UserId>, email: Option<string>, found: Option<ShopId>)
    requires found.Some? ==> found.value in shops
    requires AddOwnerSpec(shops, users, userId, email, found).0.Ok?
    ensures var (r, shops', users') := AddOwnerSpec(shops, users, userId, email, found);
      var t := Target(users, userId, email).value;
      var f := found.value;
      && r == Ok(OwnerAdded)
      && shops'.Keys == shops.Keys
      && shops'[f] == shops[f].(owners := shops[f].owners + [t])
      && (forall s :: s in shops && s != f ==> shops'[s] == shops[s])
      && users'.Keys == users.Keys && users'[t].role == OwnerRole
      && (forall v :: v in users && v != t ==> users'[v] == users[v])
  {
    var t := Target(users, userId, email).value;
    assert !OwnsAny(shops, t);
    assert !OwnsShop(shops, t, found.value);
  }

  /** addOwner keeps every user in at most one owner list, each list free of repeats, and every owner an `owner`. */
  lemma AddOwnerKeepsOwnership(shops: map<ShopId, Shop>, users: map<UserId, User>, userId: Option<UserId>, email: Option<string>,
                               ownerId: Option<UserId>, found: Option<ShopId>)
    requires FindsShop(shops, ownerId, found)
    requires SoleOwnership(shops) && OwnersHaveRole(shops, users)
    ensures var (_, shops', users') := AddOwnerSpec(shops, users, userId, email, found);
      SoleOwnership(shops') && OwnersHaveRole(shops', users')
  {
    var (r, shops', users') := AddOwnerSpec(shops, users, userId, email, found);
    if r.Ok? {
      var t := Target(users, userId, email).value;
      var f := found.value;
      AddOwnerAppends(shops, users, userId, email, found);
      forall v, a | OwnsShop(shops', v, a)
        ensures OwnsShop(shops, v, a) || (v == t && a == f)
      {
        if a == f && v != t {
          assert v in shops[f].owners + [t];
        }
      }
      forall v, a, b | OwnsShop(shops', v, a) && OwnsShop(shops', v, b) ensures a == b {
        if v == t {
          assert !OwnsShop(shops, t, a) && !OwnsShop(shops, t, b);
        }
      }
      forall s, i, j | s in shops' && 0 <= i < j < |shops'[s].owners| ensures shops'[s].owners[i] != shops'[s].owners[j] {
        if s == f && j == |shops[f].owners| {
          assert shops'[s].owners[j] == t;
          assert shops[f].owners[i] in shops[f].owners;
        }
      }
      forall v, a | OwnsShop(shops', v, a) ensures v in users' && users'[v].role == OwnerRole {
        if v != t { assert OwnsShop(shops, v, a); }
      }
    }
  }

  /** getMyShop: no user is a 401, no shop listing the user a 404, and otherwise a shop whose owners include the user. */
  lemma GetMyShopOutcomes(shops: map<ShopId, Shop>, ownerId: Option<UserId>, found: Option<ShopId>)
    requires FindsShop(shops, ownerId, found)
    ensures var r := GetMyShopSpec(shops, ownerId, found);
      && (!Present(ownerId) ==> r == Fail(401, "Unauthorized user!"))
      && (Present(ownerId) && !OwnsAny(shops, ownerId.value) ==> r == Fail(404, "Shop not found for this user"))
      && (r.Ok? <==> Present(ownerId) && OwnsAny(shops, ownerId.value))
      && (r.Ok? ==> r.value.id in shops && r.value.shop == shops[r.value.id] && ownerId.value in r.value.shop.owners)
  {
  }

  /** createShop keeps the tables consistent when the requester is a registered user. */
  lemma CreateShopKeepsConsistent(users: map<UserId, User>, shops: map<ShopId, Shop>, products: map<ProductId, Product>,
                                  orders: seq<Order>, userId: Option<UserId>, name: Option<string>, newId: ShopId)
    requires newId !in shops
    requires Consistent(users, shops, products, orders)
    requires Present(userId) ==> userId.value in users
    ensures var (_, shops', users') := CreateShopSpec(shops, users, userId, name, newId);
      Consistent(users', shops', products, orders)
  {
    CreateShopKeepsOwnership(shops, users, userId, name, newId);
    if Present(userId) {
      PromoteSpec(users, userId.value);
    }
  }

  /**
   * A requester missing from the user table still gets a shop: the role update
   * matches nobody, so the new shop's owner is not a user with the `owner` role.
   */
  lemma UnregisteredCreator(users: map<UserId, User>, shops: map<ShopId, Shop>, u: UserId, name: string, newId: ShopId)
    requires newId !in shops && u !in users && name != "" && u != ""
    requires !OwnsAny(shops, u)
    ensures var (r, shops', users') := CreateShopSpec(shops, users, Some(u), Some(name), newId);
      r == Ok(Created(newId)) && !OwnersHaveRole(shops', users')
  {
    var (_, shops', users') := CreateShopSpec(shops, users, Some(u), Some(name), newId);
    assert OwnsShop(shops', u, newId);
  }

  /** addOwner keeps the tables consistent: ownership as in `AddOwnerKeepsOwnership`, and emails stay unique. */
  lemma AddOwnerKeepsConsistent(users: map<UserId, User>, shops: map<ShopId, Shop>, products: map<ProductId, Product>,
                                orders: seq<Order>, userId: Option<UserId>, email: Option<string>,
                                ownerId: Option<UserId>, found: Option<ShopId>)
    requires FindsShop(shops, ownerId, found)
    requires Consistent(users, shops, products, orders)
    ensures var (_, shops', users') := AddOwnerSpec(shops, users, userId, email, found);
      Consistent(users', shops', products, orders)
  {
    AddOwnerKeepsOwnership(shops, users, userId, email, ownerId, found);
    var t := Target(users, userId, email);
    if t.Some? {
      PromoteSpec(users, t.value);
    }
  }
}
