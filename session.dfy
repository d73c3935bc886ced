/**
 * Sequences of calls into the cart store as the storefront's views issue
 * them, and what holds of every cart such a sequence reaches.
 */
module Session {
  import opened Types
  import opened Cart
  import Data
  import ProductDetail

  /** One call into the store. */
  datatype CartOp =
    | Add(product: Product, quantity: int)
    | Remove(id: string)
    | Update(id: string, delta: int)
    | Clear

  function Apply(cart: seq<CartItem>, op: CartOp): seq<CartItem> {
    match op
    case Add(product, quantity) => AddToCart(cart, product, quantity)
    case Remove(id) => RemoveFromCart(cart, id)
    case Update(id, delta) => UpdateQuantity(cart, id, delta)
    case Clear => ClearCart()
  }

  /** The cart after applying `ops` in order. */
  function Run(cart: seq<CartItem>, ops: seq<CartOp>): seq<CartItem>
    decreases ops
  {
    if ops == [] then cart else Run(Apply(cart, ops[0]), ops[1..])
  }

  /** The calls the views make: every add carries a quantity of at least 1. */
  ghost predicate IssuedByViews(ops: seq<CartOp>) {
    forall i :: 0 <= i < |ops| && ops[i].Add? ==> ops[i].quantity >= 1
  }

  /**
   * What the user does in the views. Both add buttons name the product by
   * id: the product list shows one card per catalog entry, and the detail
   * page looks its route id up in the catalog.
   */
  datatype UiEvent =
    | ListAdd(id: string)                                     // a product card's cart button
    | DetailAdd(id: string, presses: seq<ProductDetail.Press>) // the detail page, after the stepper
    | Increment(id: string)                                   // the cart view's plus button
    | Decrement(id: string)                                   // the cart view's minus button
    | Trash(id: string)                                       // the cart view's remove button
    | CheckoutDone                                            // the checkout's deferred clear

  /** The catalog entry with `id`, added with `quantity`; nothing when the id is unknown. */
  function AddById(catalog: seq<Product>, id: string, quantity: int): (op: Option<CartOp>)
    ensures op.None? <==> ProductDetail.FindProduct(catalog, id).None?
    ensures op.Some? ==> op.value.Add? && op.value.product in catalog && op.value.quantity == quantity
    ensures op.Some? ==> op.value.product.id == id
  {
    match ProductDetail.FindProduct(catalog, id)
    case None => None
    case Some(product) => Some(Add(product, quantity))
  }

  /** The store call an event makes, if any. */
  function ToOp(e: UiEvent): (op: Option<CartOp>)
    ensures op.Some? && op.value.Add? ==> op.value.quantity >= 1 && op.value.product in Data.Products
    ensures op.None? <==> (e.ListAdd? || e.DetailAdd?) && ProductDetail.FindProduct(Data.Products, e.id).None?
    ensures e.Increment? ==> op == Some(Update(e.id, 1))
    ensures e.Decrement? ==> op == Some(Update(e.id, -1))
    ensures e.Trash? ==> op == Some(Remove(e.id))
    ensures e.CheckoutDone? ==> op == Some(Clear)
  {
    match e
    case ListAdd(id) => AddById(Data.Products, id, 1)
    case DetailAdd(id, presses) => AddById(Data.Products, id, ProductDetail.Stepped(1, presses))
    case Increment(id) => Some(Update(id, 1))
    case Decrement(id) => Some(Update(id, -1))
    case Trash(id) => Some(Remove(id))
    case CheckoutDone => Some(Clear)
  }

  function OpsOf(op: Option<CartOp>): seq<CartOp> {
    match op
    case None => []
    case Some(o) => [o]
  }

  /** The store calls a sequence of events makes, in order. */
  function ToOps(events: seq<UiEvent>): (ops: seq<CartOp>)
    ensures |ops| <= |events|
  {
    if events == [] then [] else OpsOf(ToOp(events[0])) + ToOps(events[1..])
  }

  /** Every add the views make carries a quantity of at least 1 and a catalog product. */
  lemma {:induction false} ToOpsFromViews(events: seq<UiEvent>)
    ensures IssuedByViews(ToOps(events)) && AddsFromCatalog(ToOps(events), Data.Products)
  {
    if events != [] {
      ToOpsFromViews(events[1..]);
      var h, t := OpsOf(ToOp(events[0])), ToOps(events[1..]);
      var ops := h + t;
      forall i | 0 <= i < |ops| && ops[i].Add?
        ensures ops[i].quantity >= 1 && ops[i].product in Data.Products
      {
        if i < |h| {
          assert ops[i] == h[i];
        } else {
          assert ops[i] == t[i - |h|];
        }
      }
    }
  }

  /** A detail-page event drives the store exactly as the page's handler does. */
  lemma DetailAddIsAddFromDetail(cart: seq<CartItem>, id: string, presses: seq<ProductDetail.Press>)
    ensures Run(cart, ToOps([DetailAdd(id, presses)])) == ProductDetail.AddFromDetail(cart, Data.Products, id, presses)
  {
    var e := DetailAdd(id, presses);
    assert [e][1..] == [];
    var ops := ToOps([e]);
    assert ops == OpsOf(ToOp(e));
    if ops != [] {
      assert ops[1..] == [];
    }
  }

  /**
   * The cart view's buttons: plus and minus change the line's quantity by one
   * step, floored at 1, and the trash button removes the line.
   */
  lemma CartViewButtons(cart: seq<CartItem>, id: string)
    ensures Run(cart, ToOps([Increment(id)])) == UpdateQuantity(cart, id, 1)
    ensures Run(cart, ToOps([Decrement(id)])) == UpdateQuantity(cart, id, -1)
    ensures Run(cart, ToOps([Trash(id)])) == RemoveFromCart(cart, id)
  {
    assert [Increment(id)][1..] == [] && [Decrement(id)][1..] == [] && [Trash(id)][1..] == [];
    assert ToOps([Increment(id)]) == [Update(id, 1)];
    assert ToOps([Decrement(id)]) == [Update(id, -1)];
    assert ToOps([Trash(id)]) == [Remove(id)];
    assert [Update(id, 1)][1..] == [] && [Update(id, -1)][1..] == [] && [Remove(id)][1..] == [];
  }

  /** A product card's button adds exactly that catalog entry, with quantity 1. */
  lemma ListAddIsDefaultAdd(cart: seq<CartItem>, product: Product)
    requires product in Data.Products
    ensures Run(cart, ToOps([ListAdd(product.id)])) == AddToCart(cart, product)
  {
    var e := ListAdd(product.id);
    CatalogDistinct();
    ProductDetail.FindProductOfEntry(Data.Products, product);
    assert ToOp(e) == Some(Add(product, 1));
    assert [e][1..] == [];
    var ops := ToOps([e]);
    assert ops == [Add(product, 1)];
    assert ops[1..] == [];
  }

  lemma ApplyKeepsWellFormed(cart: seq<CartItem>, op: CartOp)
    requires WellFormed(cart) && (op.Add? ==> op.quantity >= 1)
    ensures WellFormed(Apply(cart, op))
  {
    match op
    case Add(product, quantity) =>
      AddToCartKeepsUniqueIds(cart, product, quantity);
      AddToCartKeepsPositive(cart, product, quantity);
    case Remove(id) => RemoveFromCartKeepsWellFormed(cart, id);
    case Update(id, delta) => UpdateQuantityKeepsWellFormed(cart, id, delta);
    case Clear =>
  }

  /** Calls as the views issue them keep one line per id and every quantity at least 1. */
  lemma {:induction false} RunKeepsWellFormed(cart: seq<CartItem>, ops: seq<CartOp>)
    requires WellFormed(cart) && IssuedByViews(ops)
    ensures WellFormed(Run(cart, ops))
    decreases ops
  {
    if ops != [] {
      ApplyKeepsWellFormed(cart, ops[0]);
      assert IssuedByViews(ops[1..]) by {
        forall i | 0 <= i < |ops[1..]| && ops[1..][i].Add? ensures ops[1..][i].quantity >= 1 {
          assert ops[1..][i] == ops[i + 1];
        }
      }
      RunKeepsWellFormed(Apply(cart, ops[0]), ops[1..]);
    }
  }

  /** Every cart the views can reach from the empty one is well formed. */
  lemma ReachableWellFormed(events: seq<UiEvent>)
    ensures WellFormed(Run([], ToOps(events)))
  {
    ToOpsFromViews(events);
    RunKeepsWellFormed([], ToOps(events));
  }

  // ---------------------------------------------------------------------------
  // Repeated adds of one product
  // ---------------------------------------------------------------------------

  function Sum(xs: seq<int>): int {
    if xs == [] then 0 else xs[0] + Sum(xs[1..])
  }

  /** addToCart(product, qs[0]), then addToCart(product, qs[1]), and so on. */
  function AddAll(cart: seq<CartItem>, product: Product, qs: seq<int>): seq<CartItem>
    decreases qs
  {
    if qs == [] then cart else AddAll(AddToCart(cart, product, qs[0]), product, qs[1..])
  }

  lemma CountZeroNoLine(cart: seq<CartItem>, id: string)
    requires Count(cart, id) == 0
    ensures forall i :: 0 <= i < |cart| ==> cart[i].id != id
  {
    forall i | 0 <= i < |cart| ensures cart[i].id != id {
      if cart[i].id == id {
        CountPositiveAt(cart, id, i);
      }
    }
  }

  /** Adding a product whose only line is the last one raises that line's quantity. */
  lemma AddToLastLine(cart: seq<CartItem>, product: Product, line: CartItem, k: int)
    requires Count(cart, product.id) == 0 && line.id == product.id
    ensures AddToCart(cart + [line], product, k) == cart + [line.(quantity := line.quantity + k)]
  {
    var c := cart + [line];
    var r := AddToCart(c, product, k);
    CountAppend(cart, [line], product.id);
    AddToCartExisting(c, product, k);
    CountZeroNoLine(cart, product.id);
    assert r[|cart|] == line.(quantity := line.quantity + k);
    assert forall i :: 0 <= i < |cart| ==> r[i] == cart[i];
  }

  lemma AddAllStep(cart: seq<CartItem>, product: Product, qs: seq<int>)
    requires qs != []
    ensures AddAll(cart, product, qs) == AddAll(AddToCart(cart, product, qs[0]), product, qs[1..])
  {
  }

  lemma {:induction false} AddsGrowLastLine(cart: seq<CartItem>, product: Product, line: CartItem, qs: seq<int>)
    requires Count(cart, product.id) == 0 && line.id == product.id
    ensures AddAll(cart + [line], product, qs) == cart + [line.(quantity := line.quantity + Sum(qs))]
    decreases qs
  {
    if qs != [] {
      var next := line.(quantity := line.quantity + qs[0]);
      AddAllStep(cart + [line], product, qs);
      AddToLastLine(cart, product, line, qs[0]);
      AddsGrowLastLine(cart, product, next, qs[1..]);
      assert Sum(qs) == qs[0] + Sum(qs[1..]);
    }
  }

  /**
   * Adding one product repeatedly to a cart that does not hold it appends
   * exactly one line, whose quantity is the sum of the quantities added.
   */
  lemma RepeatedAdds(cart: seq<CartItem>, product: Product, qs: seq<int>)
    requires Count(cart, product.id) == 0 && |qs| > 0
    ensures AddAll(cart, product, qs) == cart + [LineOf(product, Sum(qs))]
    ensures Count(AddAll(cart, product, qs), product.id) == 1
  {
    var first, line := LineOf(product, qs[0]), LineOf(product, Sum(qs));
    AddAllStep(cart, product, qs);
    AddToCartNew(cart, product, qs[0]);
    AddsGrowLastLine(cart, product, first, qs[1..]);
    assert Sum(qs) == qs[0] + Sum(qs[1..]);
    assert first.(quantity := first.quantity + Sum(qs[1..])) == line;
    CountAppend(cart, [line], product.id);
    assert Count([line], product.id) == 1;
  }

  // ---------------------------------------------------------------------------
  // Carts filled from the catalog
  // ---------------------------------------------------------------------------

  /** Every line carries the fields of some catalog entry. */
  ghost predicate FromCatalog(cart: seq<CartItem>, catalog: seq<Product>) {
    forall i :: 0 <= i < |cart| ==> ProductOf(cart[i]) in catalog
  }

  /** Every product the calls add is a catalog entry. */
  ghost predicate AddsFromCatalog(ops: seq<CartOp>, catalog: seq<Product>) {
    forall i :: 0 <= i < |ops| && ops[i].Add? ==> ops[i].product in catalog
  }

  /** With distinct catalog ids, a cart filled from the catalog prices each id as the catalog does. */
  lemma CatalogPrices(cart: seq<CartItem>, catalog: seq<Product>, product: Product)
    requires ProductDetail.DistinctIds(catalog) && FromCatalog(cart, catalog) && product in catalog
    ensures PricedAt(cart, product.id, product.price)
  {
    forall i | 0 <= i < |cart| && cart[i].id == product.id ensures cart[i].price == product.price {
      var j :| 0 <= j < |catalog| && catalog[j] == ProductOf(cart[i]);
      var k :| 0 <= k < |catalog| && catalog[k] == product;
      assert catalog[j].id == catalog[k].id;
      if j < k {
        assert false;
      } else if k < j {
        assert false;
      }
    }
  }

  lemma ApplyKeepsFromCatalog(cart: seq<CartItem>, op: CartOp, catalog: seq<Product>)
    requires FromCatalog(cart, catalog) && (op.Add? ==> op.product in catalog)
    ensures FromCatalog(Apply(cart, op), catalog)
  {
    var r := Apply(cart, op);
    match op
    case Add(product, quantity) =>
      if Count(cart, product.id) > 0 {
        AddToCartExisting(cart, product, quantity);
        forall i | 0 <= i < |r| ensures ProductOf(r[i]) in catalog {
          assert ProductOf(r[i]) == ProductOf(cart[i]);
        }
      } else {
        forall i | 0 <= i < |r| ensures ProductOf(r[i]) in catalog {
          if i == |cart| {
            assert r[i] == LineOf(product, quantity);
          } else {
            assert r[i] == cart[i];
          }
        }
      }
    case Remove(id) =>
      RemoveFromCartSubset(cart, id);
      forall i | 0 <= i < |r| ensures ProductOf(r[i]) in catalog {
        assert r[i] in cart;
      }
    case Update(id, delta) =>
      forall i | 0 <= i < |r| ensures ProductOf(r[i]) in catalog {
        UpdateQuantityAt(cart, id, delta, i);
        assert ProductOf(r[i]) == ProductOf(cart[i]);
      }
    case Clear =>
  }

  lemma {:induction false} RunKeepsFromCatalog(cart: seq<CartItem>, ops: seq<CartOp>, catalog: seq<Product>)
    requires FromCatalog(cart, catalog) && AddsFromCatalog(ops, catalog)
    ensures FromCatalog(Run(cart, ops), catalog)
    decreases ops
  {
    if ops != [] {
      ApplyKeepsFromCatalog(cart, ops[0], catalog);
      assert AddsFromCatalog(ops[1..], catalog) by {
        forall i | 0 <= i < |ops[1..]| && ops[1..][i].Add? ensures ops[1..][i].product in catalog {
          assert ops[1..][i] == ops[i + 1];
        }
      }
      RunKeepsFromCatalog(Apply(cart, ops[0]), ops[1..], catalog);
    }
  }

  /**
   * In every cart the views can reach, a further
   * addToCart(product, k) of a catalog product raises totalItems by k and
   * subtotal by the product's price times k.
   */
  lemma ReachableAddTotals(events: seq<UiEvent>, product: Product, quantity: int)
    requires product in Data.Products
    ensures var cart := Run([], ToOps(events));
      && TotalItems(AddToCart(cart, product, quantity)) == TotalItems(cart) + quantity
      && Subtotal(AddToCart(cart, product, quantity)) == Subtotal(cart) + product.price * quantity
  {
    var cart := Run([], ToOps(events));
    ReachableWellFormed(events);
    ToOpsFromViews(events);
    RunKeepsFromCatalog([], ToOps(events), Data.Products);
    CatalogDistinct();
    CatalogPrices(cart, Data.Products, product);
    AddToCartTotalsUnique(cart, product, quantity);
  }

  // ---------------------------------------------------------------------------
  // The shipped catalog and concrete sessions over it
  // ---------------------------------------------------------------------------

  lemma CatalogDistinct()
    ensures ProductDetail.DistinctIds(Data.Products)
  {
  }

  /** Ids "1" and "2" resolve to the first two entries of the catalog. */
  lemma CatalogLookup()
    ensures ProductDetail.FindProduct(Data.Products, "1") == Some(Data.Products[0])
    ensures ProductDetail.FindProduct(Data.Products, "2") == Some(Data.Products[1])
    ensures Data.Products[0].price == 85000 && Data.Products[1].price == 95000
  {
    assert Data.Products[0].id == "1" && Data.Products[1].id == "2";
  }

  /** An id outside the catalog, such as "7", shows the not-found page. */
  lemma CatalogNotFound()
    ensures ProductDetail.FindProduct(Data.Products, "7") == None
  {
    var ps := Data.Products;
    assert |ps| == 6;
    assert ps[0].id == "1" && ps[1].id == "2" && ps[2].id == "3";
    assert ps[3].id == "4" && ps[4].id == "5" && ps[5].id == "6";
    assert forall i :: 0 <= i < |ps| ==> ps[i].id != "7";
  }

  /** Add item "1" once, then again with quantity 2: one line of quantity 3. */
  lemma ScenarioAddTwice()
    ensures var a := Data.Products[0];
      var c1 := AddToCart([], a);
      var c2 := AddToCart(c1, a, 2);
      && TotalItems(c1) == 1 && Subtotal(c1) == 85000
      && |c2| == 1 && c2[0].quantity == 3
      && TotalItems(c2) == 3 && Subtotal(c2) == 255000
  {
    var a := Data.Products[0];
    var c1 := AddToCart([], a);
    AddToCartNew([], a, 1);
    AddToCartTotalsUnique([], a, 1);
    AddToCartKeepsUniqueIds([], a, 1);
    assert Count(c1, a.id) == 1;
    AddToCartExisting(c1, a, 2);
    AddToCartTotalsUnique(c1, a, 2);
  }

  /** Add item "2" once, then step it down by 5: the quantity stays at 1. */
  lemma ScenarioFloor()
    ensures var b := Data.Products[1];
      var c := UpdateQuantity(AddToCart([], b, 1), b.id, -5);
      && |c| == 1 && c[0].quantity == 1 && Subtotal(c) == 95000
  {
    var b := Data.Products[1];
    var c0 := AddToCart([], b, 1);
    AddToCartNew([], b, 1);
    AddToCartTotalsUnique([], b, 1);
    assert Count(c0, b.id) == 1;
    UpdateQuantityTotals(c0, b.id, -5, 0);
    UpdateQuantityAt(c0, b.id, -5, 0);
  }

  /** Add items "1" and "2", then remove "1": only "2" is left. */
  lemma ScenarioRemove()
    ensures var a, b := Data.Products[0], Data.Products[1];
      var c := RemoveFromCart(AddToCart(AddToCart([], a), b), a.id);
      && c == [LineOf(b, 1)] && TotalItems(c) == 1 && Subtotal(c) == 95000
  {
    var a, b := Data.Products[0], Data.Products[1];
    assert a.id != b.id;
    var c1 := AddToCart([], a);
    AddToCartNew([], a, 1);
    assert Count(c1, b.id) == 0;
    var c2 := AddToCart(c1, b);
    AddToCartNew(c1, b, 1);
    assert c2 == [LineOf(a, 1), LineOf(b, 1)];
    assert c2[1..] == [LineOf(b, 1)];
    assert c2[1..][1..] == [];
    assert Count(c2, a.id) == 1;
    RemoveFromCartSingle(c2, a.id, 0);
    var c := [LineOf(b, 1)];
    AddToCartNew([], b, 1);
    AddToCartTotalsUnique([], b, 1);
  }

  /** A checkout clears whatever the cart held. */
  lemma ScenarioCheckout(events: seq<UiEvent>)
    ensures var c := Run(Run([], ToOps(events)), ToOps([CheckoutDone]));
      c == [] && TotalItems(c) == 0 && Subtotal(c) == 0
  {
    var e := CheckoutDone;
    assert [e][1..] == [];
    assert ToOps([e]) == [Clear];
    assert [Clear][1..] == [];
  }
}
