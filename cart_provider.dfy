/**
 * The cart provider: one mutable cell holding the list of cart lines, which
 * every operation overwrites with the pure transition of Cart, and the two
 * aggregates recomputed from the current list on every read.
 */
module CartProvider {
  import opened Types
  import Cart

  class CartStore {
    var cart: seq<CartItem>

    /** One line per id and every quantity at least 1. */
    ghost predicate Valid()
      reads this
    {
      Cart.WellFormed(cart)
    }

    /** The cart starts empty. */
    constructor ()
      ensures cart == [] && Valid()
    {
      cart := [];
    }

    /** totalItems of the current lines. */
    function TotalItems(): (n: int)
      reads this
      ensures n == Cart.SumBy(cart, Cart.Quantity)
    {
      Cart.TotalItems(cart)
    }

    /** subtotal of the current lines. */
    function Subtotal(): (n: int)
      reads this
      ensures n == Cart.SumBy(cart, Cart.LineTotal)
    {
      Cart.Subtotal(cart)
    }

    method AddToCart(product: Product, quantity: int := 1)
      modifies this
      ensures cart == Cart.AddToCart(old(cart), product, quantity)
      ensures Cart.UniqueIds(old(cart)) ==> Cart.UniqueIds(cart)
      ensures old(Valid()) && quantity >= 1 ==> Valid()
      ensures TotalItems() == old(TotalItems()) + quantity * Cart.Max(1, Cart.Count(old(cart), product.id))
      ensures old(Valid()) && Cart.PricedAt(old(cart), product.id, product.price) ==>
        TotalItems() == old(TotalItems()) + quantity && Subtotal() == old(Subtotal()) + product.price * quantity
    {
      ghost var before := cart;
      cart := Cart.AddToCart(cart, product, quantity);
      Cart.AddToCartTotals(before, product, quantity);
      if Cart.UniqueIds(before) {
        Cart.AddToCartKeepsUniqueIds(before, product, quantity);
        if Cart.PricedAt(before, product.id, product.price) {
          Cart.AddToCartTotalsUnique(before, product, quantity);
        }
      }
      if Cart.PositiveQuantities(before) && quantity >= 1 {
        Cart.AddToCartKeepsPositive(before, product, quantity);
      }
    }

    method RemoveFromCart(id: string)
      modifies this
      ensures cart == Cart.RemoveFromCart(old(cart), id)
      ensures Cart.Count(cart, id) == 0
      ensures Cart.Count(old(cart), id) == 0 ==> cart == old(cart)
      ensures old(Valid()) ==> Valid()
    {
      ghost var before := cart;
      cart := Cart.RemoveFromCart(cart, id);
      if Cart.WellFormed(before) {
        Cart.RemoveFromCartKeepsWellFormed(before, id);
      }
    }

    method UpdateQuantity(id: string, delta: int)
      modifies this
      ensures cart == Cart.UpdateQuantity(old(cart), id, delta)
      ensures Cart.SameIds(cart, old(cart))
      ensures forall i :: 0 <= i < |cart| && cart[i].id == id ==> cart[i].quantity >= 1
      ensures old(Valid()) ==> Valid()
    {
      ghost var before := cart;
      cart := Cart.UpdateQuantity(cart, id, delta);
      Cart.UpdateQuantityFloors(before, id, delta);
      if Cart.WellFormed(before) {
        Cart.UpdateQuantityKeepsWellFormed(before, id, delta);
      }
    }

    method ClearCart()
      modifies this
      ensures cart == [] && Valid()
      ensures TotalItems() == 0 && Subtotal() == 0
    {
      cart := Cart.ClearCart();
    }
  }
}
