/** The shop's session state: the cart and the order ledger that the App
    component's handlers replace on every event. Each handler assigns the
    value the pure functions of Cart, Ledger and Message compute. */
module App {
  import opened Types
  import Cart
  import Ledger
  import Message
  import Checkout

  class Store {
    var cart: seq<CartItem>
    var orders: seq<Order>

    /** The cart is keyed by product id with quantities >= 1, and every
        order's frozen total agrees with its items. */
    ghost predicate Valid()
      reads this
    {
      Cart.Valid(cart) && Ledger.AllConsistent(orders)
    }

    /** A fresh session starts with an empty cart and no orders. */
    constructor ()
      ensures Valid() && cart == [] && orders == []
    {
      cart := [];
      orders := [];
    }

    /** `handleAddToCart`; the orders are untouched. */
    method HandleAddToCart(p: Product)
      requires Valid()
      modifies this
      ensures Valid()
      ensures cart == Cart.AddToCart(old(cart), p) && orders == old(orders)
      ensures Cart.QuantityOf(cart, p.id) == Cart.QuantityOf(old(cart), p.id) + 1
    {
      Cart.AddToCartQuantity(cart, p, p.id);
      cart := Cart.AddToCart(cart, p);
    }

    /** `handleBuyNow`: adds the product only when it is not in the cart yet. */
    method HandleBuyNow(p: Product)
      requires Valid()
      modifies this
      ensures Valid()
      ensures cart == Cart.BuyNow(old(cart), p) && orders == old(orders)
      ensures Cart.HasId(old(cart), p.id) ==> cart == old(cart)
      ensures Cart.Total(cart) == Cart.Total(old(cart)) + (if Cart.HasId(old(cart), p.id) then 0 else p.price)
    {
      Cart.BuyNowTotal(cart, p);
      if Cart.Find(cart, p.id).None? {
        cart := cart + [LineOf(p, 1)];
      }
    }

    /** `updateCartQuantity`: the line's quantity becomes max(1, q + delta). */
    method UpdateCartQuantity(id: string, delta: int)
      requires Valid()
      modifies this
      ensures Valid()
      ensures cart == Cart.UpdateQuantity(old(cart), id, delta) && orders == old(orders)
      ensures |cart| == |old(cart)|
    {
      cart := Cart.UpdateQuantity(cart, id, delta);
    }

    /** `removeFromCart`. */
    method RemoveFromCart(id: string)
      requires Valid()
      modifies this
      ensures Valid()
      ensures cart == Cart.Remove(old(cart), id) && orders == old(orders)
      ensures !Cart.HasId(cart, id)
    {
      Cart.RemoveValid(cart, id);
      cart := Cart.Remove(cart, id);
    }

    /** `handleFinalizeOrder`: snapshots the cart into a new order placed in
        front of the ledger, empties the cart and returns the WhatsApp link.
        The order id, the timestamp, the store's phone number and the
        currency formatting are supplied by the caller. */
    method HandleFinalizeOrder(data: CustomerData, orderId: string, date: string,
                               storePhone: string, formatMZN: int -> string)
      returns (link: string)
      requires Valid()
      modifies this
      ensures Valid()
      ensures orders == Ledger.Place(old(orders), Ledger.NewOrder(old(cart), data, orderId, date))
      ensures orders[0].items == old(cart) && orders[0].total == Cart.Sum(old(cart))
      ensures orders[0].status == Pendente && orders[1..] == old(orders)
      ensures cart == []
      ensures link == Message.Link(storePhone, Message.Text(data, old(cart), formatMZN(Cart.Total(old(cart)))))
    {
      var total := Cart.Total(cart);
      var newOrder := Ledger.NewOrder(cart, data, orderId, date);
      Ledger.PlaceNewOrderConsistent(orders, cart, data, orderId, date);
      orders := Ledger.Place(orders, newOrder);
      var message := Message.Text(data, cart, formatMZN(total));
      cart := [];
      link := Message.Link(storePhone, message);
    }

    /** The checkout form's submit handler followed by `handleFinalizeOrder`:
        a rejected form leaves the cart and the ledger exactly as they were;
        an accepted one creates the order from the form data unchanged. */
    method SubmitCheckout(form: CustomerData, orderId: string, date: string,
                          storePhone: string, formatMZN: int -> string)
      returns (link: Option<string>)
      requires Valid()
      modifies this
      ensures Valid()
      ensures link.Some? <==> form.name != "" && form.phone != "" && form.reference != ""
      ensures link.None? ==> cart == old(cart) && orders == old(orders)
      ensures link.Some? ==>
                orders == Ledger.Place(old(orders), Ledger.NewOrder(old(cart), form, orderId, date)) &&
                cart == [] &&
                link.value == Message.Link(storePhone, Message.Text(form, old(cart), formatMZN(Cart.Total(old(cart)))))
    {
      var confirmed := Checkout.HandleSubmit(form);
      if confirmed.None? {
        link := None;
      } else {
        var url := HandleFinalizeOrder(confirmed.value, orderId, date, storePhone, formatMZN);
        link := Some(url);
      }
    }

    /** `updateOrderStatus`: any of the four statuses, whatever the current
        one; an unknown id changes nothing. The cart is untouched. */
    method UpdateOrderStatus(orderId: string, status: Status)
      requires Valid()
      modifies this
      ensures Valid()
      ensures orders == Ledger.UpdateStatus(old(orders), orderId, status) && cart == old(cart)
      ensures !Ledger.HasOrder(old(orders), orderId) ==> orders == old(orders)
    {
      Ledger.UpdateStatusConsistent(orders, orderId, status);
      if !Ledger.HasOrder(orders, orderId) {
        Ledger.UpdateStatusUnknown(orders, orderId, status);
      }
      orders := Ledger.UpdateStatus(orders, orderId, status);
    }
  }
}
