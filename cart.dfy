/**
 * The cart store's state transitions and derived aggregates, as pure functions
 * from the previous list of cart lines to the next one, with their properties.
 */
module Cart {
  import opened Types

  /** `Math.max` on integers. */
  function Max(a: int, b: int): (r: int)
    ensures r >= a && r >= b
    ensures r == a || r == b
  {
    if a >= b then a else b
  }

  // ---------------------------------------------------------------------------
  // Invariants of a cart
  // ---------------------------------------------------------------------------

  /** The number of lines of `cart` whose id is `id`. */
  function Count(cart: seq<CartItem>, id: string): nat {
    if cart == [] then 0
    else (if cart[0].id == id then 1 else 0) + Count(cart[1..], id)
  }

  /** At most one line per id. */
  ghost predicate UniqueIds(cart: seq<CartItem>) {
    forall id :: Count(cart, id) <= 1
  }

  /** Every line's quantity is at least 1. */
  ghost predicate PositiveQuantities(cart: seq<CartItem>) {
    forall i :: 0 <= i < |cart| ==> cart[i].quantity >= 1
  }

  /** The invariant the store keeps while it is driven by the storefront's views. */
  ghost predicate WellFormed(cart: seq<CartItem>) {
    UniqueIds(cart) && PositiveQuantities(cart)
  }

  /** `a` and `b` hold lines with the same ids in the same order. */
  ghost predicate SameIds(a: seq<CartItem>, b: seq<CartItem>) {
    |a| == |b| && forall i :: 0 <= i < |a| ==> a[i].id == b[i].id
  }

  /** Every line with `id` has unit price `price`. */
  ghost predicate PricedAt(cart: seq<CartItem>, id: string, price: int) {
    forall i :: 0 <= i < |cart| && cart[i].id == id ==> cart[i].price == price
  }

  lemma {:induction false} CountAppend(a: seq<CartItem>, b: seq<CartItem>, id: string)
    ensures Count(a + b, id) == Count(a, id) + Count(b, id)
  {
    if a == [] {
      assert a + b == b;
    } else {
      assert (a + b)[1..] == a[1..] + b;
      CountAppend(a[1..], b, id);
    }
  }

  lemma {:induction false} CountSameIds(a: seq<CartItem>, b: seq<CartItem>, id: string)
    requires SameIds(a, b)
    ensures Count(a, id) == Count(b, id)
  {
    if a != [] {
      CountSameIds(a[1..], b[1..], id);
    }
  }

  /** A line with `id` at position `k` makes `id` counted at least once. */
  lemma {:induction false} CountPositiveAt(cart: seq<CartItem>, id: string, k: int)
    requires 0 <= k < |cart| && cart[k].id == id
    ensures Count(cart, id) >= 1
  {
    if k > 0 {
      CountPositiveAt(cart[1..], id, k - 1);
    }
  }

  // ---------------------------------------------------------------------------
  // find, and the two list transformations built from map and filter
  // ---------------------------------------------------------------------------

  /** `cart.find(item => item.id === id)`. */
  function Find(cart: seq<CartItem>, id: string): (r: Option<CartItem>)
    ensures r.None? <==> Count(cart, id) == 0
    ensures r.Some? ==> r.value in cart && r.value.id == id
  {
    if cart == [] then None
    else if cart[0].id == id then Some(cart[0])
    else Find(cart[1..], id)
  }

  /** The `map` of addToCart: every line with `id` gains `amount`, the others are kept. */
  function IncreaseQuantity(cart: seq<CartItem>, id: string, amount: int): (r: seq<CartItem>)
    ensures |r| == |cart|
  {
    if cart == [] then []
    else
      var item := if cart[0].id == id then cart[0].(quantity := cart[0].quantity + amount) else cart[0];
      [item] + IncreaseQuantity(cart[1..], id, amount)
  }

  lemma {:induction false} IncreaseQuantityAt(cart: seq<CartItem>, id: string, amount: int, i: int)
    requires 0 <= i < |cart|
    ensures IncreaseQuantity(cart, id, amount)[i]
         == if cart[i].id == id then cart[i].(quantity := cart[i].quantity + amount) else cart[i]
  {
    if i > 0 {
      IncreaseQuantityAt(cart[1..], id, amount, i - 1);
    }
  }

  lemma IncreaseQuantitySameIds(cart: seq<CartItem>, id: string, amount: int)
    ensures SameIds(IncreaseQuantity(cart, id, amount), cart)
  {
    forall i | 0 <= i < |cart| ensures IncreaseQuantity(cart, id, amount)[i].id == cart[i].id {
      IncreaseQuantityAt(cart, id, amount, i);
    }
  }

  // ---------------------------------------------------------------------------
  // The four operations of the store
  // ---------------------------------------------------------------------------

  /**
   * addToCart: when a line with the product's id exists, that line's quantity
   * grows by `quantity`; otherwise a copy of the product is appended with that
   * quantity. The quantity defaults to 1 and is not checked.
   */
  function AddToCart(cart: seq<CartItem>, product: Product, quantity: int := 1): (r: seq<CartItem>)
    ensures |r| == if Count(cart, product.id) == 0 then |cart| + 1 else |cart|
  {
    match Find(cart, product.id)
    case Some(_) => IncreaseQuantity(cart, product.id, quantity)
    case None => cart + [LineOf(product, quantity)]
  }

  /** removeFromCart: `filter` keeping the lines whose id differs from `id`. */
  function RemoveFromCart(cart: seq<CartItem>, id: string): (r: seq<CartItem>)
    ensures Count(r, id) == 0
    ensures |r| == |cart| - Count(cart, id)
    ensures Count(cart, id) == 0 ==> r == cart
  {
    if cart == [] then []
    else if cart[0].id == id then RemoveFromCart(cart[1..], id)
    else [cart[0]] + RemoveFromCart(cart[1..], id)
  }

  /** updateQuantity: each line with `id` gets quantity max(1, quantity + delta). */
  function UpdateQuantity(cart: seq<CartItem>, id: string, delta: int): (r: seq<CartItem>)
    ensures |r| == |cart|
    ensures Count(cart, id) == 0 ==> r == cart
  {
    if cart == [] then []
    else
      var item := if cart[0].id == id then cart[0].(quantity := Max(1, cart[0].quantity + delta)) else cart[0];
      [item] + UpdateQuantity(cart[1..], id, delta)
  }

  /** clearCart: the empty cart, whose aggregates are both zero. */
  function ClearCart(): (r: seq<CartItem>)
    ensures WellFormed(r)
    ensures TotalItems(r) == 0 && Subtotal(r) == 0
  {
    []
  }

  // ---------------------------------------------------------------------------
  // Aggregates: the two `reduce` calls
  // ---------------------------------------------------------------------------

  function Quantity(item: CartItem): int {
    item.quantity
  }

  /** The amount a line contributes: unit price times quantity. */
  function LineTotal(item: CartItem): int {
    item.price * item.quantity
  }

  /**
   * `cart.reduce((acc, item) => acc + f(item), acc)`: a left fold, which adds
   * the structural sum of f over the lines to the initial accumulator.
   */
  function Reduce(acc: int, cart: seq<CartItem>, f: CartItem -> int): (r: int)
    ensures r == acc + SumBy(cart, f)
    decreases cart
  {
    if cart == [] then acc else Reduce(acc + f(cart[0]), cart[1..], f)
  }

  /** The sum of f over the lines, defined structurally; the reference for Reduce. */
  function SumBy(cart: seq<CartItem>, f: CartItem -> int): int {
    if cart == [] then 0 else f(cart[0]) + SumBy(cart[1..], f)
  }

  /** totalItems: the sum of the quantities. */
  function TotalItems(cart: seq<CartItem>): (n: int)
    ensures n == SumBy(cart, Quantity)
  {
    Reduce(0, cart, Quantity)
  }

  /** subtotal: the sum of price times quantity. */
  function Subtotal(cart: seq<CartItem>): (n: int)
    ensures n == SumBy(cart, LineTotal)
  {
    Reduce(0, cart, LineTotal)
  }

  /** totalItems is the first line's quantity plus the rest's total. */
  lemma TotalItemsCons(cart: seq<CartItem>)
    ensures cart != [] ==> TotalItems(cart) == cart[0].quantity + TotalItems(cart[1..])
  {
  }

  /** subtotal is the first line's price times quantity plus the rest's subtotal. */
  lemma SubtotalCons(cart: seq<CartItem>)
    ensures cart != [] ==> Subtotal(cart) == cart[0].price * cart[0].quantity + Subtotal(cart[1..])
  {
  }

  lemma {:induction false} SumByAppend(a: seq<CartItem>, b: seq<CartItem>, f: CartItem -> int)
    ensures SumBy(a + b, f) == SumBy(a, f) + SumBy(b, f)
  {
    if a == [] {
      assert a + b == b;
    } else {
      assert (a + b)[1..] == a[1..] + b;
      SumByAppend(a[1..], b, f);
    }
  }

  /** Both aggregates are additive over concatenation. */
  lemma AggregatesAppend(a: seq<CartItem>, b: seq<CartItem>)
    ensures TotalItems(a + b) == TotalItems(a) + TotalItems(b)
    ensures Subtotal(a + b) == Subtotal(a) + Subtotal(b)
  {
    TotalItemsCons(a + b); TotalItemsCons(a); TotalItemsCons(b);
    SubtotalCons(a + b); SubtotalCons(a); SubtotalCons(b);
    SumByAppend(a, b, Quantity);
    SumByAppend(a, b, LineTotal);
  }

  /**
   * With every quantity at least 1 there are at least as many items as lines,
   * so the item count is zero exactly when the cart has no lines.
   */
  lemma {:induction false} TotalItemsAtLeastLines(cart: seq<CartItem>)
    requires PositiveQuantities(cart)
    ensures TotalItems(cart) >= |cart|
    ensures TotalItems(cart) == 0 <==> cart == []
  {
    TotalItemsCons(cart);
    if cart != [] {
      assert PositiveQuantities(cart[1..]) by {
        forall i | 0 <= i < |cart[1..]| ensures cart[1..][i].quantity >= 1 {
          assert cart[1..][i] == cart[i + 1];
        }
      }
      TotalItemsAtLeastLines(cart[1..]);
    }
  }

  // ---------------------------------------------------------------------------
  // addToCart
  // ---------------------------------------------------------------------------

  /** Adding an id already present changes only the quantities of its lines. */
  lemma AddToCartExisting(cart: seq<CartItem>, product: Product, quantity: int)
    requires Count(cart, product.id) > 0
    ensures |AddToCart(cart, product, quantity)| == |cart|
    ensures forall i :: 0 <= i < |cart| ==>
      AddToCart(cart, product, quantity)[i]
        == if cart[i].id == product.id then cart[i].(quantity := cart[i].quantity + quantity) else cart[i]
  {
    forall i | 0 <= i < |cart|
      ensures AddToCart(cart, product, quantity)[i]
        == if cart[i].id == product.id then cart[i].(quantity := cart[i].quantity + quantity) else cart[i]
    {
      IncreaseQuantityAt(cart, product.id, quantity, i);
    }
  }

  /** Adding an id not present appends one copy of the product at the end. */
  lemma AddToCartNew(cart: seq<CartItem>, product: Product, quantity: int)
    requires Count(cart, product.id) == 0
    ensures AddToCart(cart, product, quantity) == cart + [LineOf(product, quantity)]
  {
  }

  lemma AddToCartKeepsUniqueIds(cart: seq<CartItem>, product: Product, quantity: int)
    requires UniqueIds(cart)
    ensures UniqueIds(AddToCart(cart, product, quantity))
  {
    var r := AddToCart(cart, product, quantity);
    if Count(cart, product.id) > 0 {
      IncreaseQuantitySameIds(cart, product.id, quantity);
      forall id ensures Count(r, id) <= 1 {
        CountSameIds(r, cart, id);
      }
    } else {
      forall id ensures Count(r, id) <= 1 {
        CountAppend(cart, [LineOf(product, quantity)], id);
      }
    }
  }

  lemma AddToCartKeepsPositive(cart: seq<CartItem>, product: Product, quantity: int)
    requires PositiveQuantities(cart) && quantity >= 1
    ensures PositiveQuantities(AddToCart(cart, product, quantity))
  {
    if Count(cart, product.id) > 0 {
      AddToCartExisting(cart, product, quantity);
    }
  }

  /** With a quantity of zero or less a new line gets a quantity below 1. */
  lemma AddToCartDoesNotGuardQuantity(cart: seq<CartItem>, product: Product, quantity: int)
    requires Count(cart, product.id) == 0 && quantity < 1
    ensures !PositiveQuantities(AddToCart(cart, product, quantity))
  {
    var r := AddToCart(cart, product, quantity);
    assert r[|cart|].quantity == quantity;
  }

  lemma MulDistributes(a: int, b: int, c: int)
    ensures a * (b + c) == a * b + a * c
  {
  }

  lemma PricedAtTail(cart: seq<CartItem>, id: string, price: int)
    requires cart != [] && PricedAt(cart, id, price)
    ensures PricedAt(cart[1..], id, price)
  {
    forall i | 0 <= i < |cart[1..]| && cart[1..][i].id == id ensures cart[1..][i].price == price {
      assert cart[1..][i] == cart[i + 1];
    }
  }

  lemma {:induction false} IncreaseQuantityTotalItems(cart: seq<CartItem>, id: string, amount: int)
    ensures TotalItems(IncreaseQuantity(cart, id, amount)) == TotalItems(cart) + amount * Count(cart, id)
  {
    var r := IncreaseQuantity(cart, id, amount);
    if cart != [] {
      assert r[1..] == IncreaseQuantity(cart[1..], id, amount);
      TotalItemsCons(r);
      TotalItemsCons(cart);
      IncreaseQuantityTotalItems(cart[1..], id, amount);
      MulDistributes(amount, 1, Count(cart[1..], id));
    }
  }

  lemma {:induction false} IncreaseQuantitySubtotal(cart: seq<CartItem>, id: string, amount: int, price: int)
    requires PricedAt(cart, id, price)
    ensures Subtotal(IncreaseQuantity(cart, id, amount)) == Subtotal(cart) + price * amount * Count(cart, id)
  {
    var r := IncreaseQuantity(cart, id, amount);
    if cart != [] {
      assert r[1..] == IncreaseQuantity(cart[1..], id, amount);
      SubtotalCons(r);
      SubtotalCons(cart);
      PricedAtTail(cart, id, price);
      IncreaseQuantitySubtotal(cart[1..], id, amount, price);
      if cart[0].id == id {
        assert r[0] == cart[0].(quantity := cart[0].quantity + amount);
        MulDistributes(price, cart[0].quantity, amount);
        MulDistributes(price * amount, 1, Count(cart[1..], id));
      }
    }
  }

  /**
   * After addToCart(product, k) totalItems has grown by k for every line with the
   * id (by k once when the line is new), and subtotal by price times that.
   */
  lemma AddToCartTotals(cart: seq<CartItem>, product: Product, quantity: int)
    ensures TotalItems(AddToCart(cart, product, quantity))
         == TotalItems(cart) + quantity * Max(1, Count(cart, product.id))
    ensures PricedAt(cart, product.id, product.price) ==>
      Subtotal(AddToCart(cart, product, quantity))
        == Subtotal(cart) + product.price * quantity * Max(1, Count(cart, product.id))
  {
    if Count(cart, product.id) > 0 {
      assert AddToCart(cart, product, quantity) == IncreaseQuantity(cart, product.id, quantity);
      IncreaseQuantityTotalItems(cart, product.id, quantity);
      if PricedAt(cart, product.id, product.price) {
        IncreaseQuantitySubtotal(cart, product.id, quantity, product.price);
      }
    } else {
      assert AddToCart(cart, product, quantity) == cart + [LineOf(product, quantity)];
      AppendLineTotals(cart, LineOf(product, quantity));
    }
  }

  /** Appending a line adds its quantity to totalItems and its line total to subtotal. */
  lemma AppendLineTotals(cart: seq<CartItem>, line: CartItem)
    ensures TotalItems(cart + [line]) == TotalItems(cart) + line.quantity
    ensures Subtotal(cart + [line]) == Subtotal(cart) + line.price * line.quantity
  {
    AggregatesAppend(cart, [line]);
    TotalItemsCons([line]);
    SubtotalCons([line]);
  }

  /** With unique ids: totalItems grows by k and subtotal by price times k. */
  lemma AddToCartTotalsUnique(cart: seq<CartItem>, product: Product, quantity: int)
    requires UniqueIds(cart) && PricedAt(cart, product.id, product.price)
    ensures TotalItems(AddToCart(cart, product, quantity)) == TotalItems(cart) + quantity
    ensures Subtotal(AddToCart(cart, product, quantity)) == Subtotal(cart) + product.price * quantity
  {
    AddToCartTotals(cart, product, quantity);
    assert Max(1, Count(cart, product.id)) == 1;
  }

  // ---------------------------------------------------------------------------
  // removeFromCart
  // ---------------------------------------------------------------------------

  lemma {:induction false} RemoveFromCartCount(cart: seq<CartItem>, id: string, other: string)
    requires other != id
    ensures Count(RemoveFromCart(cart, id), other) == Count(cart, other)
  {
    if cart != [] {
      RemoveFromCartCount(cart[1..], id, other);
      if cart[0].id != id {
        var rest := RemoveFromCart(cart[1..], id);
        assert ([cart[0]] + rest)[1..] == rest;
      }
    }
  }

  lemma {:induction false} RemoveFromCartAppend(a: seq<CartItem>, b: seq<CartItem>, id: string)
    ensures RemoveFromCart(a + b, id) == RemoveFromCart(a, id) + RemoveFromCart(b, id)
  {
    if a == [] {
      assert a + b == b;
    } else {
      assert (a + b)[0] == a[0];
      assert (a + b)[1..] == a[1..] + b;
      RemoveFromCartAppend(a[1..], b, id);
    }
  }

  /** Removing the one line with `id` at position k closes the gap and keeps the order. */
  lemma RemoveFromCartSingle(cart: seq<CartItem>, id: string, k: int)
    requires 0 <= k < |cart| && cart[k].id == id && Count(cart, id) == 1
    ensures RemoveFromCart(cart, id) == cart[..k] + cart[k + 1..]
  {
    assert cart == cart[..k] + ([cart[k]] + cart[k + 1..]);
    CountAppend(cart[..k], [cart[k]] + cart[k + 1..], id);
    CountAppend([cart[k]], cart[k + 1..], id);
    RemoveFromCartAppend(cart[..k], [cart[k]] + cart[k + 1..], id);
    RemoveFromCartAppend([cart[k]], cart[k + 1..], id);
  }

  /** Every remaining line is a line of the original cart. */
  lemma {:induction false} RemoveFromCartSubset(cart: seq<CartItem>, id: string)
    ensures forall x :: x in RemoveFromCart(cart, id) ==> x in cart
  {
    if cart != [] {
      RemoveFromCartSubset(cart[1..], id);
    }
  }

  lemma RemoveFromCartKeepsWellFormed(cart: seq<CartItem>, id: string)
    requires WellFormed(cart)
    ensures WellFormed(RemoveFromCart(cart, id))
  {
    var r := RemoveFromCart(cart, id);
    RemoveFromCartSubset(cart, id);
    forall x ensures Count(r, x) <= 1 {
      if x != id {
        RemoveFromCartCount(cart, id, x);
      }
    }
    forall i | 0 <= i < |r| ensures r[i].quantity >= 1 {
      assert r[i] in cart;
    }
  }

  // ---------------------------------------------------------------------------
  // updateQuantity
  // ---------------------------------------------------------------------------

  /** The line at position i after updateQuantity: floored at 1 if it matches, else untouched. */
  lemma {:induction false} UpdateQuantityAt(cart: seq<CartItem>, id: string, delta: int, i: int)
    requires 0 <= i < |cart|
    ensures UpdateQuantity(cart, id, delta)[i]
         == if cart[i].id == id then cart[i].(quantity := Max(1, cart[i].quantity + delta)) else cart[i]
  {
    if i > 0 {
      UpdateQuantityAt(cart[1..], id, delta, i - 1);
    }
  }

  /** updateQuantity keeps every id in place and leaves each matching line at 1 or more. */
  lemma UpdateQuantityFloors(cart: seq<CartItem>, id: string, delta: int)
    ensures SameIds(UpdateQuantity(cart, id, delta), cart)
    ensures forall i :: 0 <= i < |cart| && cart[i].id == id ==> UpdateQuantity(cart, id, delta)[i].quantity >= 1
  {
    forall i | 0 <= i < |cart|
      ensures UpdateQuantity(cart, id, delta)[i].id == cart[i].id
      ensures cart[i].id == id ==> UpdateQuantity(cart, id, delta)[i].quantity >= 1
    {
      UpdateQuantityAt(cart, id, delta, i);
    }
  }

  lemma UpdateQuantityKeepsWellFormed(cart: seq<CartItem>, id: string, delta: int)
    requires WellFormed(cart)
    ensures WellFormed(UpdateQuantity(cart, id, delta))
  {
    var r := UpdateQuantity(cart, id, delta);
    UpdateQuantityFloors(cart, id, delta);
    forall x ensures Count(r, x) <= 1 {
      CountSameIds(r, cart, x);
    }
    forall i | 0 <= i < |r| ensures r[i].quantity >= 1 {
      UpdateQuantityAt(cart, id, delta, i);
    }
  }

  /**
   * For the one line with `id` at position k, totalItems changes from q to
   * max(1, q + delta) and subtotal by the price times that change.
   */
  lemma {:induction false} UpdateQuantityTotals(cart: seq<CartItem>, id: string, delta: int, k: int)
    requires 0 <= k < |cart| && cart[k].id == id && Count(cart, id) == 1
    ensures var q := cart[k].quantity; var q' := Max(1, q + delta);
      && TotalItems(UpdateQuantity(cart, id, delta)) == TotalItems(cart) - q + q'
      && Subtotal(UpdateQuantity(cart, id, delta)) == Subtotal(cart) + cart[k].price * (q' - q)
  {
    var r := UpdateQuantity(cart, id, delta);
    var rest := UpdateQuantity(cart[1..], id, delta);
    assert r[1..] == rest;
    TotalItemsCons(r);
    TotalItemsCons(cart);
    SubtotalCons(r);
    SubtotalCons(cart);
    if k == 0 {
      assert rest == cart[1..];
      var q, p := cart[0].quantity, cart[0].price;
      assert p * Max(1, q + delta) == p * q + p * (Max(1, q + delta) - q);
    } else {
      if cart[0].id == id {
        CountPositiveAt(cart[1..], id, k - 1);
        assert false;
      }
      UpdateQuantityTotals(cart[1..], id, delta, k - 1);
    }
  }

  lemma {:induction false} UpdateQuantityAppend(a: seq<CartItem>, b: seq<CartItem>, id: string, delta: int)
    ensures UpdateQuantity(a + b, id, delta) == UpdateQuantity(a, id, delta) + UpdateQuantity(b, id, delta)
  {
    if a == [] {
      assert a + b == b;
    } else {
      assert (a + b)[0] == a[0];
      assert (a + b)[1..] == a[1..] + b;
      UpdateQuantityAppend(a[1..], b, id, delta);
    }
  }
}
