/** The order ledger: the order snapshot built at checkout and the operator's
    status update. Orders are kept newest first. */
module Ledger {
  import opened Types
  import Cart

  /** The order built when a checkout is finalized: a copy of the cart lines,
      their total, status Pendente and the customer's fields. The id and the
      timestamp come from outside (a random token and the clock). */
  function NewOrder(cart: seq<CartItem>, data: CustomerData, id: string, date: string): (o: Order)
    ensures o.items == cart && o.total == Cart.Sum(cart)
    ensures o.status == Pendente
    ensures o.customerName == data.name && o.emolaNumber == data.phone && o.reference == data.reference
    ensures o.id == id && o.date == date
  {
    Order(id, cart, Cart.Total(cart), data.name, data.phone, data.reference, Pendente, date)
  }

  /** An order's frozen total agrees with the lines it holds. */
  predicate Consistent(o: Order)
  {
    o.total == Cart.Sum(o.items)
  }

  predicate AllConsistent(orders: seq<Order>)
  {
    forall i :: 0 <= i < |orders| ==> Consistent(orders[i])
  }

  /** `[newOrder, ...prev]`: the new order goes in front. */
  function Place(orders: seq<Order>, o: Order): (r: seq<Order>)
    ensures |r| == |orders| + 1 && r[0] == o && r[1..] == orders
  {
    [o] + orders
  }

  /** Placing a freshly built order keeps every order's total consistent. */
  lemma PlaceNewOrderConsistent(orders: seq<Order>, cart: seq<CartItem>, data: CustomerData, id: string, date: string)
    requires AllConsistent(orders)
    ensures AllConsistent(Place(orders, NewOrder(cart, data, id, date)))
  {
    var r := Place(orders, NewOrder(cart, data, id, date));
    forall i | 0 <= i < |r| ensures Consistent(r[i]) {
      if i > 0 {
        assert r[i] == orders[i - 1];
      }
    }
  }

  /** Two checkouts in a row: the later order comes first. */
  lemma NewestFirst(orders: seq<Order>, a: Order, b: Order)
    ensures Place(Place(orders, a), b) == [b, a] + orders
  {
  }

  /** `updateOrderStatus`: every order with that id gets the new status,
      whatever its current status is. */
  function UpdateStatus(orders: seq<Order>, id: string, s: Status): (r: seq<Order>)
    ensures |r| == |orders|
    ensures forall i :: 0 <= i < |r| ==> r[i].status == if orders[i].id == id then s else orders[i].status
    ensures forall i :: 0 <= i < |r| ==> r[i].(status := orders[i].status) == orders[i]
  {
    seq(|orders|, i requires 0 <= i < |orders| =>
      if orders[i].id == id then orders[i].(status := s) else orders[i])
  }

  predicate HasOrder(orders: seq<Order>, id: string)
  {
    exists i :: 0 <= i < |orders| && orders[i].id == id
  }

  /** An unknown id leaves the ledger identical. */
  lemma UpdateStatusUnknown(orders: seq<Order>, id: string, s: Status)
    requires !HasOrder(orders, id)
    ensures UpdateStatus(orders, id, s) == orders
  {
    var r := UpdateStatus(orders, id, s);
    forall i | 0 <= i < |orders| ensures r[i] == orders[i] {
      assert orders[i].id != id;
    }
  }

  /** Only the last status written to an order counts. */
  lemma UpdateStatusLastWins(orders: seq<Order>, id: string, a: Status, b: Status)
    ensures UpdateStatus(UpdateStatus(orders, id, a), id, b) == UpdateStatus(orders, id, b)
  {
    var r1 := UpdateStatus(UpdateStatus(orders, id, a), id, b);
    var r2 := UpdateStatus(orders, id, b);
    forall i | 0 <= i < |orders| ensures r1[i] == r2[i] { }
  }

  /** Any status can be restored: there are no transition rules, so an update
      to the current status of a single matching order is undone by writing
      the old status back. */
  lemma UpdateStatusRevertible(orders: seq<Order>, k: nat, s: Status)
    requires k < |orders|
    requires forall i :: 0 <= i < |orders| && i != k ==> orders[i].id != orders[k].id
    ensures UpdateStatus(UpdateStatus(orders, orders[k].id, s), orders[k].id, orders[k].status) == orders
  {
    var id := orders[k].id;
    var r := UpdateStatus(UpdateStatus(orders, id, s), id, orders[k].status);
    forall i | 0 <= i < |orders| ensures r[i] == orders[i] {
      if i == k {
        assert r[i] == orders[k].(status := orders[k].status);
      }
    }
  }

  /** A status update keeps every order's total consistent with its items. */
  lemma UpdateStatusConsistent(orders: seq<Order>, id: string, s: Status)
    requires AllConsistent(orders)
    ensures AllConsistent(UpdateStatus(orders, id, s))
  {
    var r := UpdateStatus(orders, id, s);
    forall i | 0 <= i < |r| ensures Consistent(r[i]) {
      assert r[i].items == orders[i].items && r[i].total == orders[i].total by {
        assert r[i].(status := orders[i].status) == orders[i];
      }
    }
  }
}
