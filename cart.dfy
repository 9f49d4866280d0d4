/**
 * The storefront's client-side state (frontend/src/App.jsx): the cart helpers,
 * which return a new cart each time, the parsing of the comma-separated tag
 * field, and the order request built from the cart.
 */
module Cart {
  import opened Common
  import Orders

  /** The product fields the cart uses; `sellingPrice` may be missing. */
  datatype CartProduct = CartProduct(id: string, title: string, sellingPrice: Option<real>, category: Option<string>)

  datatype CartLine = CartLine(product: CartProduct, quantity: real)

  predicate HasProduct(cart: seq<CartLine>, id: string) {
    exists i :: 0 <= i < |cart| && cart[i].product.id == id
  }

  /** At most one line per product id. */
  predicate DistinctIds(cart: seq<CartLine>) {
    forall i, j :: 0 <= i < j < |cart| ==> cart[i].product.id != cart[j].product.id
  }

  // ---------------------------------------------------------------------------
  // Cart helpers

  /** `addToCart(product, quantity = 1)`: bump the product's line, or append a new one. */
  function AddToCart(cart: seq<CartLine>, p: CartProduct, quantity: Option<real>): (r: seq<CartLine>) {
    var q := quantity.GetOr(1.0);
    if HasProduct(cart, p.id) then
      seq(|cart|, i requires 0 <= i < |cart| =>
        if cart[i].product.id == p.id then cart[i].(quantity := cart[i].quantity + q) else cart[i])
    else cart + [CartLine(p, q)]
  }

  /** `updateCartQuantity(productId, quantity)`: set the matching line's quantity. */
  function UpdateQuantity(cart: seq<CartLine>, id: string, quantity: real): (r: seq<CartLine>) {
    seq(|cart|, i requires 0 <= i < |cart| => if cart[i].product.id == id then cart[i].(quantity := quantity) else cart[i])
  }

  /** `removeFromCart(productId)`: keep the lines of every other product. */
  function RemoveFromCart(cart: seq<CartLine>, id: string): (r: seq<CartLine>) {
    if cart == [] then []
    else if cart[0].product.id == id then RemoveFromCart(cart[1..], id)
    else [cart[0]] + RemoveFromCart(cart[1..], id)
  }

  /** `Number(sellingPrice || 0)`. */
  function PriceOf(p: CartProduct): (r: real) {
    p.sellingPrice.GetOr(0.0)
  }

  function LineAmount(line: CartLine): (r: real) {
    line.quantity * PriceOf(line.product)
  }

  /** `cartTotal`: the running sum, left to right. */
  function CartTotal(cart: seq<CartLine>): (r: real) {
    if cart == [] then 0.0 else CartTotal(cart[..|cart| - 1]) + LineAmount(cart[|cart| - 1])
  }

  // ---------------------------------------------------------------------------
  // Tag parsing

  function TrimAll(pieces: seq<string>): (r: seq<string>)
    ensures |r| == |pieces|
  {
    if pieces == [] then [] else [Trim(pieces[0])] + TrimAll(pieces[1..])
  }

  function DropEmpty(pieces: seq<string>): (r: seq<string>) {
    if pieces == [] then []
    else if pieces[0] == "" then DropEmpty(pieces[1..])
    else [pieces[0]] + DropEmpty(pieces[1..])
  }

  /** The `tags` field: split on commas, trim each piece, drop the empty ones; an empty field gives no tags. */
  function ParseTags(field: string): (r: seq<string>) {
    if field == "" then [] else DropEmpty(TrimAll(Split(field, ',')))
  }

  // ---------------------------------------------------------------------------
  // handleCreateOrder

  datatype OrderForm = OrderForm(name: string, contact: string, village: string)

  const EmptyForm := OrderForm("", "", "")

  /** The request item for one cart line. */
  function ItemOf(line: CartLine): (r: Orders.ItemInput) {
    var p := line.product;
    Orders.ItemInput(
      Some(p.id), Some(p.title), Orders.Finite(line.quantity),
      if p.sellingPrice.Some? then Orders.Finite(p.sellingPrice.value) else Orders.NotFinite,
      Some(if Present(p.category) then p.category.value else ""))
  }

  function ItemsOf(cart: seq<CartLine>): (items: seq<Orders.ItemInput>)
    ensures |items| == |cart|
  {
    if cart == [] then [] else [ItemOf(cart[0])] + ItemsOf(cart[1..])
  }

  /** The body sent to the order endpoint. */
  function OrderBody(form: OrderForm, cart: seq<CartLine>, shopId: string): (r: Orders.OrderRequest) {
    Orders.OrderRequest(Some(form.name), Some(form.contact), Some(form.village), Some(ItemsOf(cart)),
                        Orders.Finite(CartTotal(cart)), Some(shopId))
  }

  class Storefront {
    var cart: seq<CartLine>
    var orderForm: OrderForm

    constructor ()
      ensures cart == [] && orderForm == EmptyForm
    {
      cart, orderForm := [], EmptyForm;
    }

    /**
     * `handleCreateOrder`: without a shop or with an empty cart nothing is
     * sent and nothing changes; otherwise the order body is sent and, when
     * the server accepts it (`placed`), the cart and the form are cleared.
     */
    method CreateOrder(shopId: Option<string>, placed: bool) returns (sent: Option<Orders.OrderRequest>)
      modifies this
      ensures !Present(shopId) || old(cart) == [] ==> sent == None && cart == old(cart) && orderForm == old(orderForm)
      ensures Present(shopId) && old(cart) != [] ==>
        && sent == Some(OrderBody(old(orderForm), old(cart), shopId.value))
        && (placed ==> cart == [] && orderForm == EmptyForm)
        && (!placed ==> cart == old(cart) && orderForm == old(orderForm))
    {
      if !Present(shopId) || |cart| == 0 {
        return None;
      }
      var items := ItemsOf(cart);
      sent := Some(Orders.OrderRequest(Some(orderForm.name), Some(orderForm.contact), Some(orderForm.village), Some(items),
                                       Orders.Finite(CartTotal(cart)), Some(shopId.value)));
      if placed {
        cart := [];
        orderForm := EmptyForm;
      }
    }
  }
}
