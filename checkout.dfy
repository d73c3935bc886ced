/**
 * The checkout view's submit flow, as a plain sequence: submitting switches the
 * view to its confirmation state, and the deferred step clears the cart.
 */
module Checkout {
  import CartProvider

  class CheckoutView {
    var isSuccess: bool

    constructor ()
      ensures !isSuccess
    {
      isSuccess := false;
    }

    /** handleSubmit: the form values are dropped; only the confirmation flag is set. */
    method HandleSubmit()
      modifies this
      ensures isSuccess
    {
      isSuccess := true;
    }

    /** The deferred step after submission: clearCart, leaving both aggregates at zero. */
    method Complete(store: CartProvider.CartStore)
      requires isSuccess
      modifies store
      ensures store.cart == [] && store.Valid()
      ensures store.TotalItems() == 0 && store.Subtotal() == 0
    {
      store.ClearCart();
    }
  }
}
