/**
 * The product detail page: the catalog lookup by id with its not-found case,
 * and the quantity stepper that feeds addToCart.
 */
module ProductDetail {
  import opened Types
  import Cart

  /** `products.find(p => p.id === id)`: the first catalog entry with that id, if any. */
  function FindProduct(catalog: seq<Product>, id: string): (r: Option<Product>)
    ensures r.None? <==> forall i :: 0 <= i < |catalog| ==> catalog[i].id != id
    ensures r.Some? ==> r.value.id == id && FirstWithId(catalog, id, r.value)
    ensures r.Some? && DistinctIds(catalog) ==> forall i :: 0 <= i < |catalog| && catalog[i].id == id ==> catalog[i] == r.value
  {
    if catalog == [] then None
    else if catalog[0].id == id then
      assert DistinctIds(catalog) ==> forall i :: 0 < i < |catalog| ==> catalog[i].id != id;
      assert FirstWithId(catalog, id, catalog[0]) by {
        assert 0 <= 0 < |catalog| && catalog[0] == catalog[0];
      }
      Some(catalog[0])
    else
      var r := FindProduct(catalog[1..], id);
      assert DistinctIds(catalog) ==> DistinctIds(catalog[1..]);
      assert forall i :: 0 < i < |catalog| ==> catalog[i] == catalog[1..][i - 1];
      FirstWithIdShift(catalog, id, r);
      r
  }

  /** `v` sits at some position of `catalog` before which no entry has `id`. */
  ghost predicate FirstWithId(catalog: seq<Product>, id: string, v: Product) {
    exists k :: 0 <= k < |catalog| && catalog[k] == v && forall i :: 0 <= i < k ==> catalog[i].id != id
  }

  lemma FirstWithIdShift(catalog: seq<Product>, id: string, r: Option<Product>)
    requires catalog != [] && catalog[0].id != id
    requires r.Some? ==> FirstWithId(catalog[1..], id, r.value)
    ensures r.Some? ==> FirstWithId(catalog, id, r.value)
  {
    if r.Some? {
      var k :| 0 <= k < |catalog[1..]| && catalog[1..][k] == r.value
        && forall i :: 0 <= i < k ==> catalog[1..][i].id != id;
      assert catalog[k + 1] == r.value;
      forall i | 0 <= i < k + 1 ensures catalog[i].id != id {
        if i > 0 {
          assert catalog[i] == catalog[1..][i - 1];
        }
      }
    }
  }

  /** With distinct ids, looking up an entry's id finds that entry. */
  lemma FindProductOfEntry(catalog: seq<Product>, product: Product)
    requires DistinctIds(catalog) && product in catalog
    ensures FindProduct(catalog, product.id) == Some(product)
  {
    var k :| 0 <= k < |catalog| && catalog[k] == product;
    assert catalog[k].id == product.id;
  }

  /** No two catalog entries share an id. */
  ghost predicate DistinctIds(catalog: seq<Product>) {
    forall i, j :: 0 <= i < j < |catalog| ==> catalog[i].id != catalog[j].id
  }

  // ---------------------------------------------------------------------------
  // The quantity stepper
  // ---------------------------------------------------------------------------

  datatype Press = Minus | Plus

  /** The minus button: `Math.max(1, q - 1)`. */
  function StepDown(q: int): (r: int)
    ensures r >= 1
    ensures q >= 2 ==> r == q - 1
    ensures q <= 2 ==> r == 1
  {
    Cart.Max(1, q - 1)
  }

  /** One press: minus floors at 1, plus adds 1. */
  function Step(q: int, p: Press): (r: int)
    ensures q >= 1 ==> r >= 1
  {
    match p
    case Minus => StepDown(q)
    case Plus => q + 1
  }

  /** The quantity shown after pressing the buttons in order, starting from `q`. */
  function Stepped(q: int, presses: seq<Press>): (r: int)
    ensures q >= 1 ==> r >= 1
    ensures (forall i :: 0 <= i < |presses| ==> presses[i] == Plus) ==> r == q + |presses|
    decreases presses
  {
    if presses == [] then q else Stepped(Step(q, presses[0]), presses[1..])
  }

  /** One more press applies one more step to the quantity shown. */
  lemma {:induction false} SteppedSnoc(q: int, presses: seq<Press>, p: Press)
    ensures Stepped(q, presses + [p]) == Step(Stepped(q, presses), p)
    decreases presses
  {
    if presses == [] {
      assert presses + [p] == [p];
      assert [p][1..] == [];
    } else {
      assert (presses + [p])[0] == presses[0];
      assert (presses + [p])[1..] == presses[1..] + [p];
      SteppedSnoc(Step(q, presses[0]), presses[1..], p);
    }
  }

  /**
   * The stepper's counter. It starts at 1; the ghost field records the
   * presses so far, and the counter is always their fold from 1.
   */
  class QuantityStepper {
    var quantity: int
    ghost var presses: seq<Press>

    ghost predicate Valid()
      reads this
    {
      quantity >= 1 && quantity == Stepped(1, presses)
    }

    constructor ()
      ensures quantity == 1 && presses == [] && Valid()
    {
      quantity := 1;
      presses := [];
    }

    method Decrement()
      modifies this
      ensures quantity == StepDown(old(quantity)) && quantity >= 1
      ensures presses == old(presses) + [Minus]
      ensures old(Valid()) ==> Valid()
    {
      SteppedSnoc(1, presses, Minus);
      quantity := StepDown(quantity);
      presses := presses + [Minus];
    }

    method Increment()
      modifies this
      ensures quantity == old(quantity) + 1
      ensures presses == old(presses) + [Plus]
      ensures old(Valid()) ==> Valid()
    {
      SteppedSnoc(1, presses, Plus);
      quantity := quantity + 1;
      presses := presses + [Plus];
    }
  }

  /**
   * handleAddToCart on the page for `id` after the given presses: when the id
   * resolves, the product is added with the stepper's quantity; when it does
   * not, the page shows the not-found state and the cart is left as it was.
   */
  function AddFromDetail(cart: seq<CartItem>, catalog: seq<Product>, id: string, presses: seq<Press>)
    : (r: seq<CartItem>)
    ensures FindProduct(catalog, id).None? ==> r == cart
    ensures FindProduct(catalog, id).Some? ==>
      exists q :: q >= 1 && r == Cart.AddToCart(cart, FindProduct(catalog, id).value, q)
    ensures FindProduct(catalog, id).Some? ==> Cart.Count(r, id) >= 1
  {
    match FindProduct(catalog, id)
    case None => cart
    case Some(product) =>
      var r := Cart.AddToCart(cart, product, Stepped(1, presses));
      assert Cart.Count(r, id) >= 1 by {
        if Cart.Count(cart, id) == 0 {
          Cart.CountPositiveAt(r, id, |cart|);
        } else {
          Cart.IncreaseQuantitySameIds(cart, id, Stepped(1, presses));
          Cart.CountSameIds(r, cart, id);
        }
      }
      assert Stepped(1, presses) >= 1;
      r
  }

  /**
   * With one line per id, priced as the catalog entry, the detail page's add
   * raises totalItems by the stepper's value and subtotal by price times it.
   */
  lemma AddFromDetailTotals(cart: seq<CartItem>, catalog: seq<Product>, id: string, presses: seq<Press>)
    requires FindProduct(catalog, id).Some?
    requires Cart.UniqueIds(cart) && Cart.PricedAt(cart, id, FindProduct(catalog, id).value.price)
    ensures var r, p, q := AddFromDetail(cart, catalog, id, presses), FindProduct(catalog, id).value, Stepped(1, presses);
      && q >= 1
      && Cart.TotalItems(r) == Cart.TotalItems(cart) + q
      && Cart.Subtotal(r) == Cart.Subtotal(cart) + p.price * q
  {
    Cart.AddToCartTotalsUnique(cart, FindProduct(catalog, id).value, Stepped(1, presses));
  }

  lemma AddFromDetailKeepsWellFormed(cart: seq<CartItem>, catalog: seq<Product>, id: string, presses: seq<Press>)
    requires Cart.WellFormed(cart)
    ensures Cart.WellFormed(AddFromDetail(cart, catalog, id, presses))
  {
    match FindProduct(catalog, id)
    case None =>
    case Some(product) =>
      Cart.AddToCartKeepsUniqueIds(cart, product, Stepped(1, presses));
      Cart.AddToCartKeepsPositive(cart, product, Stepped(1, presses));
  }
}
