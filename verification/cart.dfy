/** The cart engine: the pure functions that compute the next cart from the
    previous one in the add-to-cart, buy-now, quantity and remove handlers,
    and the total that both the order and the checkout page compute. */
module Cart {
  import opened Types

  /** No two lines share a product id. */
  predicate UniqueIds(cart: seq<CartItem>)
  {
    forall i, j :: 0 <= i < j < |cart| ==> cart[i].id != cart[j].id
  }

  /** Every line holds at least one unit. */
  predicate PositiveQuantities(cart: seq<CartItem>)
  {
    forall i :: 0 <= i < |cart| ==> cart[i].quantity >= 1
  }

  /** The cart invariant: lines keyed by product id, each with quantity >= 1. */
  predicate Valid(cart: seq<CartItem>)
  {
    UniqueIds(cart) && PositiveQuantities(cart)
  }

  predicate HasId(cart: seq<CartItem>, id: string)
  {
    exists i :: 0 <= i < |cart| && cart[i].id == id
  }

  /** `cart.find(item => item.id === id)`: the first line with that id. */
  function Find(cart: seq<CartItem>, id: string): (r: Option<CartItem>)
    ensures r.Some? <==> HasId(cart, id)
    ensures r.Some? ==> exists k :: 0 <= k < |cart| && cart[k] == r.value && cart[k].id == id &&
                                    !HasId(cart[..k], id)
  {
    if cart == [] then None
    else if cart[0].id == id then
      assert cart[..0] == [];
      Some(cart[0])
    else
      var r := Find(cart[1..], id);
      if r.Some? then
        var k :| 0 <= k < |cart[1..]| && cart[1..][k] == r.value && cart[1..][k].id == id &&
                 !HasId(cart[1..][..k], id);
        assert cart[..k + 1] == [cart[0]] + cart[1..][..k];
        r
      else
        assert !HasId(cart, id) by {
          forall i | 0 <= i < |cart| ensures cart[i].id != id {
            if i > 0 { assert cart[i] == cart[1..][i - 1]; }
          }
        }
        r
  }

  /** In a cart with unique ids, find returns the one line with that id. */
  lemma {:induction false} FindUnique(cart: seq<CartItem>, k: nat)
    requires UniqueIds(cart) && k < |cart|
    ensures Find(cart, cart[k].id) == Some(cart[k])
  {
    if k > 0 {
      assert cart[0].id != cart[k].id;
      FindUnique(cart[1..], k - 1);
    }
  }

  /** The quantity the cart holds of a product: the abstract view of the cart
      as a mapping from product id to quantity (0 when there is no line). */
  function QuantityOf(cart: seq<CartItem>, id: string): int
  {
    match Find(cart, id)
    case Some(l) => l.quantity
    case None => 0
  }

  // ---------------------------------------------------------------- totals

  function LineSubtotal(l: CartItem): int
  {
    l.price * l.quantity
  }

  /** Σ price·quantity over the lines: the reference definition of a total. */
  function Sum(items: seq<CartItem>): int
  {
    if items == [] then 0 else LineSubtotal(items[0]) + Sum(items[1..])
  }

  /** `items.reduce((sum, i) => sum + i.price * i.quantity, acc)`, folding from the left. */
  function Reduce(items: seq<CartItem>, acc: int): (r: int)
    ensures r == acc + Sum(items)
  {
    if items == [] then acc else Reduce(items[1..], acc + LineSubtotal(items[0]))
  }

  /** The total of a list of lines, as the order and the checkout page compute it. */
  function Total(items: seq<CartItem>): (t: int)
    ensures t == Sum(items)
    ensures PositiveQuantities(items) ==> t >= 0
  {
    SumNonNegative(items);
    Reduce(items, 0)
  }

  lemma {:induction false} SumNonNegative(items: seq<CartItem>)
    ensures PositiveQuantities(items) ==> Sum(items) >= 0
  {
    if items != [] && PositiveQuantities(items) {
      SumNonNegative(items[1..]);
    }
  }

  lemma {:induction false} SumAppend(a: seq<CartItem>, b: seq<CartItem>)
    ensures Sum(a + b) == Sum(a) + Sum(b)
  {
    if a == [] {
      assert a + b == b;
    } else {
      assert (a + b)[1..] == a[1..] + b;
      SumAppend(a[1..], b);
    }
  }

  /** Replacing one line changes the total by the difference of the two subtotals. */
  lemma {:induction false} SumUpdate(items: seq<CartItem>, k: nat, x: CartItem)
    requires k < |items|
    ensures Sum(items[k := x]) == Sum(items) - LineSubtotal(items[k]) + LineSubtotal(x)
  {
    if k > 0 {
      assert items[k := x][1..] == items[1..][k - 1 := x];
      SumUpdate(items[1..], k - 1, x);
    }
  }

  // ---------------------------------------------------------------- add to cart

  /** The line with one more unit. */
  function Bumped(l: CartItem): CartItem
  {
    l.(quantity := l.quantity + 1)
  }

  /** `handleAddToCart`: merge into the existing line (+1) or append a new line
      with quantity 1. */
  function AddToCart(cart: seq<CartItem>, p: Product): (r: seq<CartItem>)
    ensures HasId(r, p.id)
    ensures |r| == if HasId(cart, p.id) then |cart| else |cart| + 1
    ensures Valid(cart) ==> Valid(r)
  {
    if Find(cart, p.id).Some? then
      var r := seq(|cart|, i requires 0 <= i < |cart| => if cart[i].id == p.id then Bumped(cart[i]) else cart[i]);
      var k :| 0 <= k < |cart| && cart[k].id == p.id;
      assert r[k].id == p.id;
      r
    else
      var r := cart + [LineOf(p, 1)];
      assert r[|cart|].id == p.id;
      r
  }

  /** Adding a product already in the cart increments that line only: length
      and every other line are unchanged. */
  lemma AddToCartExisting(cart: seq<CartItem>, p: Product, k: nat)
    requires UniqueIds(cart) && k < |cart| && cart[k].id == p.id
    ensures AddToCart(cart, p) == cart[k := Bumped(cart[k])]
  {
    var r := AddToCart(cart, p);
    forall i | 0 <= i < |cart|
      ensures r[i] == cart[k := Bumped(cart[k])][i]
    {
      if i != k {
        assert cart[i].id != cart[k].id;
      }
    }
  }

  /** Adding a product not in the cart appends one line with quantity 1. */
  lemma AddToCartNew(cart: seq<CartItem>, p: Product)
    requires !HasId(cart, p.id)
    ensures AddToCart(cart, p) == cart + [LineOf(p, 1)]
  {
  }

  /** Seen as a mapping from id to quantity, adding raises p's quantity by one
      and leaves every other product's quantity alone. */
  lemma AddToCartQuantity(cart: seq<CartItem>, p: Product, x: string)
    requires Valid(cart)
    ensures QuantityOf(AddToCart(cart, p), x) == QuantityOf(cart, x) + (if x == p.id then 1 else 0)
  {
    var r := AddToCart(cart, p);
    if HasId(cart, p.id) {
      var k :| 0 <= k < |cart| && cart[k].id == p.id;
      AddToCartExisting(cart, p, k);
      QuantityOfUpdate(cart, k, Bumped(cart[k]), x);
    } else {
      QuantityOfAppend(cart, LineOf(p, 1), x);
    }
  }

  /** Adding the same absent product twice yields one line of quantity 2. */
  lemma AddTwiceMerges(cart: seq<CartItem>, p: Product)
    requires !HasId(cart, p.id)
    ensures AddToCart(AddToCart(cart, p), p) == cart + [LineOf(p, 2)]
  {
    var once := cart + [LineOf(p, 1)];
    AddToCartNew(cart, p);
    assert HasId(once, p.id) by { assert once[|cart|].id == p.id; }
    var twice := AddToCart(once, p);
    assert |twice| == |cart| + 1;
    forall i | 0 <= i < |twice|
      ensures twice[i] == (cart + [LineOf(p, 2)])[i]
    {
      if i < |cart| {
        assert once[i] == cart[i];
        assert cart[i].id != p.id;
      }
    }
  }

  /** Adding raises the total by the price of the line that gained a unit:
      the existing line's price when merging, the product's price otherwise. */
  lemma AddToCartTotal(cart: seq<CartItem>, p: Product)
    requires UniqueIds(cart)
    ensures Total(AddToCart(cart, p)) ==
            Total(cart) + (if HasId(cart, p.id) then Find(cart, p.id).value.price else p.price)
  {
    if HasId(cart, p.id) {
      var k :| 0 <= k < |cart| && cart[k].id == p.id;
      FindUnique(cart, k);
      AddToCartExisting(cart, p, k);
      BumpTotal(cart, k);
    } else {
      AddToCartNew(cart, p);
      SumAppend(cart, [LineOf(p, 1)]);
      SumSingle(LineOf(p, 1));
    }
  }

  lemma BumpTotal(cart: seq<CartItem>, k: nat)
    requires k < |cart|
    ensures Sum(cart[k := Bumped(cart[k])]) == Sum(cart) + cart[k].price
  {
    SumUpdate(cart, k, Bumped(cart[k]));
    MulSucc(cart[k].price, cart[k].quantity);
  }

  // ---------------------------------------------------------------- buy now

  /** `handleBuyNow`: append a quantity-1 line only when the product is absent;
      a product already in the cart is not incremented. */
  function BuyNow(cart: seq<CartItem>, p: Product): (r: seq<CartItem>)
    ensures HasId(r, p.id)
    ensures HasId(cart, p.id) ==> r == cart
    ensures !HasId(cart, p.id) ==> r == cart + [LineOf(p, 1)]
    ensures Valid(cart) ==> Valid(r)
  {
    if Find(cart, p.id).Some? then cart
    else
      var r := cart + [LineOf(p, 1)];
      assert r[|cart|].id == p.id;
      r
  }

  /** Buy-now sets p's quantity to 1 when it was absent and changes nothing else. */
  lemma BuyNowQuantity(cart: seq<CartItem>, p: Product, x: string)
    requires Valid(cart)
    ensures QuantityOf(BuyNow(cart, p), x) ==
            if x == p.id && !HasId(cart, p.id) then 1 else QuantityOf(cart, x)
  {
    if !HasId(cart, p.id) {
      QuantityOfAppend(cart, LineOf(p, 1), x);
    }
  }

  /** Buy-now raises the total by the product's price when it adds a line,
      and leaves it alone when the product was already in the cart. */
  lemma BuyNowTotal(cart: seq<CartItem>, p: Product)
    ensures Total(BuyNow(cart, p)) == Total(cart) + (if HasId(cart, p.id) then 0 else p.price)
  {
    if !HasId(cart, p.id) {
      SumAppend(cart, [LineOf(p, 1)]);
      SumSingle(LineOf(p, 1));
    }
  }

  // ---------------------------------------------------------------- quantity

  /** `Math.max`. */
  function Max(a: int, b: int): (r: int)
    ensures r >= a && r >= b && (r == a || r == b)
  {
    if a < b then b else a
  }

  /** `updateCartQuantity`: each line with that id gets `max(1, quantity + delta)`. */
  function UpdateQuantity(cart: seq<CartItem>, id: string, delta: int): (r: seq<CartItem>)
    ensures |r| == |cart|
    ensures forall i :: 0 <= i < |r| ==> r[i].id == cart[i].id
    ensures forall i :: 0 <= i < |r| && r[i].id == id ==> r[i].quantity >= 1
    ensures Valid(cart) ==> Valid(r)
  {
    seq(|cart|, i requires 0 <= i < |cart| =>
      if cart[i].id == id then cart[i].(quantity := Max(1, cart[i].quantity + delta)) else cart[i])
  }

  /** The adjusted line is the only one that changes; length and order stay. */
  lemma UpdateQuantityAt(cart: seq<CartItem>, id: string, delta: int, k: nat)
    requires UniqueIds(cart) && k < |cart| && cart[k].id == id
    ensures UpdateQuantity(cart, id, delta) ==
            cart[k := cart[k].(quantity := Max(1, cart[k].quantity + delta))]
  {
    var r := UpdateQuantity(cart, id, delta);
    forall i | 0 <= i < |cart|
      ensures r[i] == cart[k := cart[k].(quantity := Max(1, cart[k].quantity + delta))][i]
    {
      if i != k {
        assert cart[i].id != cart[k].id;
      }
    }
  }

  /** An id that is not in the cart leaves the cart as it was. */
  lemma UpdateQuantityUnknown(cart: seq<CartItem>, id: string, delta: int)
    requires !HasId(cart, id)
    ensures UpdateQuantity(cart, id, delta) == cart
  {
    var r := UpdateQuantity(cart, id, delta);
    forall i | 0 <= i < |cart| ensures r[i] == cart[i] {
      assert cart[i].id != id;
    }
  }

  /** As a mapping, the adjusted product gets max(1, q + delta); others keep theirs. */
  lemma UpdateQuantityQuantity(cart: seq<CartItem>, id: string, delta: int, x: string)
    requires Valid(cart)
    ensures QuantityOf(UpdateQuantity(cart, id, delta), x) ==
            if x == id && HasId(cart, id) then Max(1, QuantityOf(cart, id) + delta) else QuantityOf(cart, x)
  {
    if HasId(cart, id) {
      var k :| 0 <= k < |cart| && cart[k].id == id;
      UpdateQuantityAt(cart, id, delta, k);
      FindUnique(cart, k);
      QuantityOfUpdate(cart, k, cart[k].(quantity := Max(1, cart[k].quantity + delta)), x);
    } else {
      UpdateQuantityUnknown(cart, id, delta);
    }
  }

  /** The total after an adjustment differs only by the adjusted line's subtotal. */
  lemma UpdateQuantityTotal(cart: seq<CartItem>, id: string, delta: int, k: nat)
    requires UniqueIds(cart) && k < |cart| && cart[k].id == id
    ensures Total(UpdateQuantity(cart, id, delta)) ==
            Total(cart) + cart[k].price * (Max(1, cart[k].quantity + delta) - cart[k].quantity)
  {
    var line := cart[k];
    var q := Max(1, line.quantity + delta);
    UpdateQuantityAt(cart, id, delta, k);
    SumUpdate(cart, k, line.(quantity := q));
    MulDiff(line.price, q, line.quantity);
  }

  // ---------------------------------------------------------------- remove

  /** `removeFromCart`: `cart.filter(item => item.id !== id)`. */
  function Remove(cart: seq<CartItem>, id: string): (r: seq<CartItem>)
    ensures !HasId(r, id)
    ensures forall l :: l in r ==> l in cart
    ensures |r| <= |cart|
    ensures !HasId(cart, id) ==> r == cart
  {
    if cart == [] then []
    else
      var rest := Remove(cart[1..], id);
      assert !HasId(cart, id) ==> !HasId(cart[1..], id) by {
        if HasId(cart[1..], id) {
          var i :| 0 <= i < |cart[1..]| && cart[1..][i].id == id;
          assert cart[i + 1].id == id;
        }
      }
      if cart[0].id == id then rest
      else
        assert cart == [cart[0]] + cart[1..];
        [cart[0]] + rest
  }

  /** Filtering an id distributes over `+`. */
  lemma {:induction false} RemoveAppend(a: seq<CartItem>, b: seq<CartItem>, id: string)
    ensures Remove(a + b, id) == Remove(a, id) + Remove(b, id)
  {
    if a == [] {
      assert a + b == b;
    } else {
      assert (a + b)[1..] == a[1..] + b;
      RemoveAppend(a[1..], b, id);
    }
  }

  /** Removing the line at k keeps every other line, in the same relative order. */
  lemma RemoveAt(cart: seq<CartItem>, k: nat)
    requires UniqueIds(cart) && k < |cart|
    ensures Remove(cart, cart[k].id) == cart[..k] + cart[k + 1..]
  {
    OthersLack(cart, k, cart[..k], cart[k + 1..]);
    Split(cart, k);
    RemoveMiddle(cart[..k], cart[k], cart[k + 1..]);
  }

  /** Filtering out the id of a line that no other line carries cuts out
      just that line. */
  lemma RemoveMiddle(a: seq<CartItem>, x: CartItem, b: seq<CartItem>)
    requires forall i :: 0 <= i < |a| ==> a[i].id != x.id
    requires forall i :: 0 <= i < |b| ==> b[i].id != x.id
    ensures Remove(a + ([x] + b), x.id) == a + b
  {
    var id := x.id;
    RemoveSingle(x);
    RemoveAbsent(b, id);
    RemoveAppend([x], b, id);
    assert Remove([x] + b, id) == b;
    RemoveAbsent(a, id);
    RemoveAppend(a, [x] + b, id);
  }

  lemma Split(s: seq<CartItem>, k: nat)
    requires k < |s|
    ensures s == s[..k] + ([s[k]] + s[k + 1..])
  {
  }

  /** With unique ids, no line before or after k carries the id of line k. */
  lemma OthersLack(cart: seq<CartItem>, k: nat, a: seq<CartItem>, b: seq<CartItem>)
    requires UniqueIds(cart) && k < |cart| && a == cart[..k] && b == cart[k + 1..]
    ensures forall i :: 0 <= i < |a| ==> a[i].id != cart[k].id
    ensures forall i :: 0 <= i < |b| ==> b[i].id != cart[k].id
  {
    forall i | 0 <= i < |a| ensures a[i].id != cart[k].id {
      assert a[i] == cart[i];
    }
    forall i | 0 <= i < |b| ensures b[i].id != cart[k].id {
      assert b[i] == cart[k + 1 + i];
    }
  }

  lemma RemoveSingle(l: CartItem)
    ensures Remove([l], l.id) == []
  {
    assert [l][1..] == [];
  }

  lemma RemoveAbsent(s: seq<CartItem>, id: string)
    requires forall i :: 0 <= i < |s| ==> s[i].id != id
    ensures Remove(s, id) == s
  {
  }

  /** Removing keeps the cart invariant. */
  lemma RemoveValid(cart: seq<CartItem>, id: string)
    requires Valid(cart)
    ensures Valid(Remove(cart, id))
  {
    if HasId(cart, id) {
      var k :| 0 <= k < |cart| && cart[k].id == id;
      RemoveAt(cart, k);
      DropAt(cart, k);
    }
  }

  /** As a mapping, the removed product drops to 0 and others keep their quantity. */
  lemma RemoveQuantity(cart: seq<CartItem>, id: string, x: string)
    requires Valid(cart)
    ensures QuantityOf(Remove(cart, id), x) == if x == id then 0 else QuantityOf(cart, x)
  {
    if x == id {
      RemoveGone(cart, id);
    } else if !HasId(cart, id) {
    } else if !HasId(cart, x) {
      RemoveLacks(cart, id, x);
    } else {
      var j :| 0 <= j < |cart| && cart[j].id == x;
      var k :| 0 <= k < |cart| && cart[k].id == id;
      RemoveKeepsOther(cart, k, j);
    }
  }

  /** The removed id has no quantity left. */
  lemma RemoveGone(cart: seq<CartItem>, id: string)
    ensures QuantityOf(Remove(cart, id), id) == 0
  {
  }

  /** Filtering never brings in an id the cart did not hold. */
  lemma RemoveLacks(cart: seq<CartItem>, id: string, x: string)
    requires !HasId(cart, x)
    ensures !HasId(Remove(cart, id), x) && QuantityOf(Remove(cart, id), x) == 0
  {
    var r := Remove(cart, id);
    forall i | 0 <= i < |r| ensures r[i].id != x {
      assert r[i] in cart;
    }
  }

  lemma RemoveKeepsOther(cart: seq<CartItem>, k: nat, j: nat)
    requires UniqueIds(cart) && k < |cart| && j < |cart| && j != k
    ensures QuantityOf(Remove(cart, cart[k].id), cart[j].id) == cart[j].quantity
  {
    RemoveAt(cart, k);
    var i := if j < k then j else j - 1;
    DropAt(cart, k);
    FindUnique(cart[..k] + cart[k + 1..], i);
  }

  /** Dropping the line at k shifts the later lines down by one and keeps ids unique. */
  lemma DropAt(cart: seq<CartItem>, k: nat)
    requires UniqueIds(cart) && k < |cart|
    ensures var r := cart[..k] + cart[k + 1..];
      |r| == |cart| - 1 && UniqueIds(r) &&
      forall i :: 0 <= i < |r| ==> r[i] == cart[if i < k then i else i + 1]
  {
    var r := cart[..k] + cart[k + 1..];
    forall i | 0 <= i < |r| ensures r[i] == cart[if i < k then i else i + 1] { }
  }

  /** Removing a line lowers the total by that line's subtotal. */
  lemma RemoveTotal(cart: seq<CartItem>, k: nat)
    requires UniqueIds(cart) && k < |cart|
    ensures Total(Remove(cart, cart[k].id)) == Total(cart) - LineSubtotal(cart[k])
  {
    RemoveAt(cart, k);
    Split(cart, k);
    SumMiddle(cart, cart[..k], cart[k], cart[k + 1..]);
  }

  /** One line's subtotal, taken out of the middle of a list. */
  lemma SumMiddle(s: seq<CartItem>, a: seq<CartItem>, line: CartItem, b: seq<CartItem>)
    requires s == a + ([line] + b)
    ensures Sum(s) == Sum(a + b) + LineSubtotal(line)
  {
    assert s == (a + [line]) + b;
    SumAppend(a + [line], b);
    SumAppend(a, [line]);
    SumAppend(a, b);
    SumSingle(line);
  }

  // ---------------------------------------------------------------- helpers

  lemma SumSingle(l: CartItem)
    ensures Sum([l]) == LineSubtotal(l)
  {
    assert [l][1..] == [];
  }

  lemma MulDiff(a: int, b: int, c: int)
    ensures a * b - a * c == a * (b - c)
  {
  }

  lemma MulSucc(a: int, b: int)
    ensures a * (b + 1) == a * b + a
  {
  }

  lemma QuantityOfUpdate(cart: seq<CartItem>, k: nat, y: CartItem, x: string)
    requires UniqueIds(cart) && k < |cart| && y.id == cart[k].id
    ensures QuantityOf(cart[k := y], x) == if x == y.id then y.quantity else QuantityOf(cart, x)
  {
    var r := cart[k := y];
    assert UniqueIds(r) by {
      forall i, j | 0 <= i < j < |r| ensures r[i].id != r[j].id {
        assert r[i].id == cart[i].id && r[j].id == cart[j].id;
      }
    }
    if x == y.id {
      FindUnique(r, k);
    } else if HasId(cart, x) {
      var j :| 0 <= j < |cart| && cart[j].id == x;
      FindUnique(cart, j);
      FindUnique(r, j);
    } else {
      assert !HasId(r, x) by {
        forall i | 0 <= i < |r| ensures r[i].id != x {
          assert r[i].id == cart[i].id;
        }
      }
    }
  }

  lemma QuantityOfAppend(cart: seq<CartItem>, y: CartItem, x: string)
    requires UniqueIds(cart) && !HasId(cart, y.id)
    ensures QuantityOf(cart + [y], x) == if x == y.id then y.quantity else QuantityOf(cart, x)
  {
    var r := cart + [y];
    assert UniqueIds(r) by {
      forall i, j | 0 <= i < j < |r| ensures r[i].id != r[j].id {
        if j == |cart| {
          assert r[i] == cart[i];
        }
      }
    }
    if x == y.id {
      FindUnique(r, |cart|);
    } else if HasId(cart, x) {
      var j :| 0 <= j < |cart| && cart[j].id == x;
      FindUnique(cart, j);
      FindUnique(r, j);
    } else {
      assert !HasId(r, x) by {
        forall i | 0 <= i < |r| ensures r[i].id != x {
          if i < |cart| { assert r[i] == cart[i]; }
        }
      }
    }
  }
}
