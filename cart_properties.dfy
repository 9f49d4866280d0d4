/** What the cart helpers, the tag parser and the order body promise (frontend/src/App.jsx). */
module CartProperties {
  import opened Common
  import opened Cart
  import Orders

  // ---------------------------------------------------------------------------
  // addToCart

  /** Adding a product already in the cart bumps its line by the quantity (1 by default) and keeps the cart's length. */
  lemma AddExisting(cart: seq<CartLine>, p: CartProduct, quantity: Option<real>)
    requires HasProduct(cart, p.id)
    ensures var r := AddToCart(cart, p, quantity);
      && |r| == |cart|
      && forall i :: 0 <= i < |cart| ==>
           if cart[i].product.id == p.id then r[i] == CartLine(cart[i].product, cart[i].quantity + quantity.GetOr(1.0))
           else r[i] == cart[i]
  {
  }

  /** Adding a new product appends one line at the end, with quantity 1 unless one is given. */
  lemma AddNew(cart: seq<CartLine>, p: CartProduct, quantity: Option<real>)
    requires !HasProduct(cart, p.id)
    ensures AddToCart(cart, p, quantity) == cart + [CartLine(p, if quantity.Some? then quantity.value else 1.0)]
  {
  }

  lemma AddKeepsDistinct(cart: seq<CartLine>, p: CartProduct, quantity: Option<real>)
    requires DistinctIds(cart)
    ensures DistinctIds(AddToCart(cart, p, quantity))
    ensures HasProduct(AddToCart(cart, p, quantity), p.id)
  {
    var r := AddToCart(cart, p, quantity);
    if !HasProduct(cart, p.id) {
      assert r[|cart|].product.id == p.id;
    } else {
      var k :| 0 <= k < |cart| && cart[k].product.id == p.id;
      assert r[k].product.id == p.id;
    }
  }

  /** Adding a new product raises the total by the added quantity times its price (0 when it has none). */
  lemma AddNewTotal(cart: seq<CartLine>, p: CartProduct, quantity: Option<real>)
    requires !HasProduct(cart, p.id)
    ensures CartTotal(AddToCart(cart, p, quantity)) == CartTotal(cart) + quantity.GetOr(1.0) * PriceOf(p)
  {
    var line := CartLine(p, quantity.GetOr(1.0));
    AddNew(cart, p, quantity);
    assert AddToCart(cart, p, quantity) == cart + [line];
    TotalSnoc(cart, line);
    assert LineAmount(line) == quantity.GetOr(1.0) * PriceOf(p);
  }

  /** Adding `q` to line `k`'s quantity adds `q` times its price to the total. */
  lemma BumpTotal(cart: seq<CartLine>, k: nat, q: real)
    requires k < |cart|
    ensures CartTotal(cart[k := cart[k].(quantity := cart[k].quantity + q)]) == CartTotal(cart) + q * PriceOf(cart[k].product)
  {
    var line := cart[k].(quantity := cart[k].quantity + q);
    BumpAmount(cart[k], line, q);
    ShiftTotal(cart, k, line, q * PriceOf(cart[k].product));
  }

  /** Replacing one line by a line worth `d` more raises the total by `d`. */
  lemma ShiftTotal(cart: seq<CartLine>, k: nat, line: CartLine, d: real)
    requires k < |cart| && LineAmount(line) == LineAmount(cart[k]) + d
    ensures CartTotal(cart[k := line]) == CartTotal(cart) + d
  {
    ReplaceTotal(cart, k, line);
    Rebalance(CartTotal(cart[k := line]), CartTotal(cart), LineAmount(cart[k]), LineAmount(line), d);
  }

  lemma Rebalance(x: real, t: real, a: real, b: real, d: real)
    requires x == t - a + b && b == a + d
    ensures x == t + d
  {
  }

  /**
   * With one line per product, adding to a product in the cart replaces just
   * that product's line, by one whose quantity is higher by the added amount;
   * BumpTotal gives the new total.
   */
  lemma AddAtShape(cart: seq<CartLine>, p: CartProduct, quantity: Option<real>, k: nat)
    requires DistinctIds(cart) && k < |cart| && cart[k].product.id == p.id
    ensures AddToCart(cart, p, quantity) == cart[k := cart[k].(quantity := cart[k].quantity + quantity.GetOr(1.0))]
  {
    var line := cart[k].(quantity := cart[k].quantity + quantity.GetOr(1.0));
    assert HasProduct(cart, p.id);
    var r := AddToCart(cart, p, quantity);
    var r' := cart[k := line];
    assert |r| == |r'|;
    forall i | 0 <= i < |r| ensures r[i] == r'[i] {
      if i != k {
        assert cart[i].product.id != p.id;
      }
    }
  }

  lemma BumpAmount(before: CartLine, after: CartLine, q: real)
    requires after.product == before.product && after.quantity == before.quantity + q
    ensures LineAmount(after) == LineAmount(before) + q * PriceOf(before.product)
  {
    Distribute(before.quantity, q, PriceOf(before.product));
  }

  /** Replacing one line changes the total by the difference of the two lines' amounts. */
  lemma ReplaceTotal(cart: seq<CartLine>, k: nat, line: CartLine)
    requires k < |cart|
    ensures CartTotal(cart[k := line]) == CartTotal(cart) - LineAmount(cart[k]) + LineAmount(line)
  {
    assert cart[k := line] == cart[..k] + [line] + cart[k + 1..];
    assert cart == cart[..k] + [cart[k]] + cart[k + 1..];
    TotalConcat(cart[..k] + [line], cart[k + 1..]);
    TotalConcat(cart[..k] + [cart[k]], cart[k + 1..]);
    TotalSnoc(cart[..k], line);
    TotalSnoc(cart[..k], cart[k]);
  }

  lemma Distribute(a: real, b: real, c: real)
    ensures (a + b) * c == a * c + b * c
  {
  }

  lemma TotalSnoc(a: seq<CartLine>, line: CartLine)
    ensures CartTotal(a + [line]) == CartTotal(a) + LineAmount(line)
  {
    assert (a + [line])[..|a|] == a;
  }

  lemma {:induction false} TotalConcat(a: seq<CartLine>, b: seq<CartLine>)
    ensures CartTotal(a + b) == CartTotal(a) + CartTotal(b)
  {
    if b != [] {
      var b' := b[..|b| - 1];
      assert (a + b)[..|a + b| - 1] == a + b';
      TotalConcat(a, b');
    } else {
      assert a + b == a;
    }
  }

  // ---------------------------------------------------------------------------
  // updateCartQuantity and removeFromCart

  /** Only the matching line's quantity changes. */
  lemma UpdateOnlyMatching(cart: seq<CartLine>, id: string, quantity: real)
    ensures var r := UpdateQuantity(cart, id, quantity);
      && |r| == |cart|
      && (forall i :: 0 <= i < |cart| ==> r[i].product == cart[i].product)
      && (forall i :: 0 <= i < |cart| && cart[i].product.id == id ==> r[i].quantity == quantity)
      && (forall i :: 0 <= i < |cart| && cart[i].product.id != id ==> r[i] == cart[i])
      && (DistinctIds(cart) ==> DistinctIds(r))
  {
  }

  /** Removal keeps exactly the other products' lines, in their order. */
  lemma {:induction false} RemoveSpec(cart: seq<CartLine>, id: string)
    ensures var r := RemoveFromCart(cart, id);
      && |r| <= |cart|
      && (forall x :: x in r <==> x in cart && x.product.id != id)
      && (!HasProduct(cart, id) ==> r == cart)
      && (DistinctIds(cart) ==> DistinctIds(r))
  {
    if cart != [] {
      RemoveSpec(cart[1..], id);
      var r := RemoveFromCart(cart, id);
      var rest := RemoveFromCart(cart[1..], id);
      assert cart == [cart[0]] + cart[1..];
      if !HasProduct(cart, id) {
        assert !HasProduct(cart[1..], id) by {
          forall i | 0 <= i < |cart[1..]| ensures cart[1..][i].product.id != id {
            assert cart[1..][i] == cart[i + 1];
          }
        }
      }
      if DistinctIds(cart) && cart[0].product.id != id {
        forall j | 0 <= j < |rest| ensures rest[j].product.id != cart[0].product.id {
          assert rest[j] in cart[1..];
        }
      }
    }
  }

  /**
   * Removal works line by line: a single line is kept exactly when it names
   * another product, and removing from a concatenation removes from each part,
   * so the kept lines stay in their order and keep their multiplicity.
   */
  lemma {:induction false} RemoveConcat(a: seq<CartLine>, b: seq<CartLine>, id: string)
    ensures forall x :: RemoveFromCart([x], id) == (if x.product.id == id then [] else [x])
    ensures RemoveFromCart(a + b, id) == RemoveFromCart(a, id) + RemoveFromCart(b, id)
  {
    forall x ensures RemoveFromCart([x], id) == (if x.product.id == id then [] else [x]) {
      assert [x][1..] == [];
    }
    if a != [] {
      assert (a + b)[1..] == a[1..] + b;
      RemoveConcat(a[1..], b, id);
    } else {
      assert a + b == b;
    }
  }

  /** With one line per product, removing a product drops exactly its line, keeping the others in order. */
  lemma {:induction false} RemoveAt(cart: seq<CartLine>, k: nat)
    requires DistinctIds(cart) && k < |cart|
    ensures RemoveFromCart(cart, cart[k].product.id) == cart[..k] + cart[k + 1..]
  {
    var id := cart[k].product.id;
    if k == 0 {
      RemoveSpec(cart[1..], id);
      assert !HasProduct(cart[1..], id) by {
        forall i | 0 <= i < |cart[1..]| ensures cart[1..][i].product.id != id {
          assert cart[1..][i] == cart[i + 1];
        }
      }
    } else {
      var tail := cart[1..];
      assert tail[k - 1] == cart[k];
      RemoveAt(tail, k - 1);
      assert cart[..k] == [cart[0]] + tail[..k - 1];
      assert cart[k + 1..] == tail[k..];
    }
  }

  /** ... and subtracts that line's amount from the total. */
  lemma RemoveTotal(cart: seq<CartLine>, k: nat)
    requires DistinctIds(cart) && k < |cart|
    ensures CartTotal(RemoveFromCart(cart, cart[k].product.id)) == CartTotal(cart) - LineAmount(cart[k])
  {
    var r := RemoveFromCart(cart, cart[k].product.id);
    RemoveAt(cart, k);
    TotalWithout(cart, k);
  }

  /** Taking line `k` out of a cart takes its amount out of the total. */
  lemma TotalWithout(cart: seq<CartLine>, k: nat)
    requires k < |cart|
    ensures CartTotal(cart[..k] + cart[k + 1..]) == CartTotal(cart) - LineAmount(cart[k])
  {
    var a, line, b := cart[..k], cart[k], cart[k + 1..];
    assert a + [line] + b == cart;
    TotalConcat(a + [line], b);
    TotalConcat(a, b);
    TotalSnoc(a, line);
  }

  // ---------------------------------------------------------------------------
  // Tags

  lemma {:induction false} DropEmptySpec(pieces: seq<string>)
    ensures forall t :: t in DropEmpty(pieces) <==> t in pieces && t != ""
  {
    if pieces != [] {
      DropEmptySpec(pieces[1..]);
    }
  }

  lemma {:induction false} TrimAllSpec(pieces: seq<string>)
    ensures forall i :: 0 <= i < |pieces| ==> TrimAll(pieces)[i] == Trim(pieces[i])
  {
    if pieces != [] {
      TrimAllSpec(pieces[1..]);
    }
  }

  /** Every parsed tag is non-empty, has no comma and no white space at either end; an empty field has no tags. */
  lemma ParseTagsSpec(field: string)
    ensures field == "" ==> ParseTags(field) == []
    ensures forall t :: t in ParseTags(field) ==> t != "" && ',' !in t && Trim(t) == t
  {
    if field != "" {
      var pieces := Split(field, ',');
      SplitPiecesFree(field, ',');
      TrimAllSpec(pieces);
      DropEmptySpec(TrimAll(pieces));
      forall t | t in ParseTags(field) ensures t != "" && ',' !in t && Trim(t) == t {
        var i :| 0 <= i < |pieces| && TrimAll(pieces)[i] == t;
        TrimSpec(pieces[i]);
        TrimIdempotent(pieces[i]);
      }
    }
  }

  lemma {:induction false} TrimAllFixed(pieces: seq<string>)
    requires forall i :: 0 <= i < |pieces| ==> Trim(pieces[i]) == pieces[i]
    ensures TrimAll(pieces) == pieces
  {
    if pieces != [] {
      TrimAllFixed(pieces[1..]);
    }
  }

  lemma {:induction false} DropEmptyFixed(pieces: seq<string>)
    requires forall i :: 0 <= i < |pieces| ==> pieces[i] != ""
    ensures DropEmpty(pieces) == pieces
  {
    if pieces != [] {
      DropEmptyFixed(pieces[1..]);
    }
  }

  /** Tags that are non-empty, comma-free and already trimmed survive being joined with commas and parsed again. */
  lemma TagsRoundTrip(tags: seq<string>)
    requires forall i :: 0 <= i < |tags| ==> tags[i] != "" && ',' !in tags[i] && Trim(tags[i]) == tags[i]
    ensures ParseTags(Join(tags, ",")) == tags
  {
    if tags != [] {
      SplitJoin(tags, ',');
      assert Join(tags, ",") != "" by { JoinStartsWith(tags); }
      TrimAllFixed(tags);
      DropEmptyFixed(tags);
    }
  }

  lemma JoinStartsWith(tags: seq<string>)
    requires |tags| >= 1
    ensures |Join(tags, ",")| >= |tags[0]|
  {
  }

  // ---------------------------------------------------------------------------
  // The order body

  lemma {:induction false} ItemsOfSpec(cart: seq<CartLine>)
    ensures forall i :: 0 <= i < |cart| ==> ItemsOf(cart)[i] == ItemOf(cart[i])
  {
    if cart != [] {
      ItemsOfSpec(cart[1..]);
    }
  }

  /**
   * One request item per cart line, in cart order: the product id and title,
   * the quantity, the selling price (not a number when missing) and the
   * category, or "" when it has none. A line passes the server's item checks
   * exactly when its id and title are non-empty, its quantity positive and its
   * price present and non-negative.
   */
  lemma OrderItems(cart: seq<CartLine>)
    ensures |ItemsOf(cart)| == |cart|
    ensures forall i :: 0 <= i < |cart| ==>
      var item := ItemsOf(cart)[i];
      var p := cart[i].product;
      && item.product == Some(p.id) && item.productName == Some(p.title)
      && item.quantity == Orders.Finite(cart[i].quantity)
      && (item.price.Finite? <==> p.sellingPrice.Some?)
      && item.category == Some(if p.category.Some? then p.category.value else "")
      && (Orders.ItemValid(item) <==>
            p.id != "" && p.title != "" && cart[i].quantity > 0.0 && p.sellingPrice.Some? && p.sellingPrice.value >= 0.0)
  {
    ItemsOfSpec(cart);
  }

  /** The body passes the server's required-field checks exactly when name, contact and shop id are non-empty; the cart is non-empty whenever it is sent. */
  lemma OrderBodyFields(form: OrderForm, cart: seq<CartLine>, shopId: string)
    requires cart != []
    ensures var body := OrderBody(form, cart, shopId);
      && (Orders.MissingField(body).None? <==> form.name != "" && form.contact != "" && shopId != "")
      && body.totalAmount == Orders.Finite(CartTotal(cart))
  {
  }
}
