# Bakery storefront cart store, modelled in Dafny

This project models the cart store of a bakery storefront written in React and TypeScript. The storefront keeps an ordered list of cart lines in one state cell of its `CartProvider` and offers four operations on it:

- `addToCart` adds a product, with a quantity that defaults to 1.
- `removeFromCart` removes the lines with an id.
- `updateQuantity` changes a line's quantity by a delta, floored at 1.
- `clearCart` empties the list.

Two aggregates are computed from the list on every read: `totalItems` (the sum of quantities) and `subtotal` (the sum of price times quantity). Two pieces of the product detail page feed the store, and both are modelled as well: the lookup of a product by id, with its not-found page, and the quantity stepper, which starts at 1 and never goes below 1.

Files and modules:

- `types.dfy` (`Types`): the `Product` and `CartItem` records. Prices and quantities are integers and ids are strings compared by equality.
- `data.dfy` (`Data`): the six-product catalog the storefront ships with (data.ts:4-53), the constant `Data.Products`. Its properties are stated by Session.CatalogDistinct, Session.CatalogLookup and Session.CatalogNotFound.
- `cart.dfy` (`Cart`): each operation as a pure function from the old list to the new one, written the way the source writes it (`find`, `map`, `filter`, an append, and a left-fold `reduce`). It also defines the invariants, one line per id and every quantity at least 1, and proves lemmas about them.
- `cart_provider.dfy` (`CartProvider`): the store as a class `CartStore` with one field `cart: seq<CartItem>`. Each method overwrites that field with the matching pure function's result, as `setCart` does.
- `product_detail.dfy` (`ProductDetail`): the catalog lookup, the stepper (as functions and as a class `QuantityStepper`), and the detail page's add-to-cart handler.
- `checkout.dfy` (`Checkout`): the checkout submit followed by the deferred clear, as a plain sequence of two steps.
- `session.dfy` (`Session`): sequences of store calls as the views issue them. It proves that every reachable cart satisfies the invariants, that repeated adds of one product give a single line, how prices behave in carts filled from the catalog, and the concrete scenarios over the shipped catalog.

JavaScript numbers are modelled as unbounded integers; every catalog price is a whole number. `Math.max(1, x)` becomes `Cart.Max(1, x)`.

## Model

| member | source | states |
|---|---|---|
| Types.LineOf | App.tsx:562 | the new line copies every product field and carries the given quantity |
| Cart.Max | App.tsx:573 | the result is at least both arguments and is one of them, as `Math.max` |
| Cart.Find | App.tsx:556 | no line is found exactly when no line has the id; a found line has the id and is a line of the cart |
| Cart.AddToCart | App.tsx:554-564 | the cart grows by one line when the id is absent and keeps its length when the id is present |
| Cart.AddToCartExisting | App.tsx:556-560 | for a present id, each line with that id gains `quantity`, every other line is unchanged, and length and order are kept |
| Cart.AddToCartNew | App.tsx:561-562 | for an absent id, the result is the old cart with one copy of the product appended at the end, with that quantity |
| Cart.IncreaseQuantity | App.tsx:558-560 | the map of addToCart keeps the length of the cart |
| Cart.IncreaseQuantityAt | App.tsx:558-560 | position i after the map: the old line with quantity + amount if its id matches, else the old line itself |
| Cart.IncreaseQuantitySameIds | App.tsx:558-560 | the map keeps every id in its position |
| Cart.AddToCartKeepsUniqueIds | App.tsx:556-562 | at most one line per id before an add implies at most one line per id after it, for any quantity |
| Cart.AddToCartKeepsPositive | App.tsx:554-562 | an add with quantity at least 1 keeps every quantity at least 1 |
| Cart.AddToCartDoesNotGuardQuantity | App.tsx:554-562 | adding a new product with quantity below 1 produces a line whose quantity is below 1 |
| Cart.IncreaseQuantityTotalItems | App.tsx:558-560 | the map raises totalItems by amount times the number of lines with the id |
| Cart.IncreaseQuantitySubtotal | App.tsx:558-560 | if every line with the id has a given price, the map raises subtotal by price times amount times that number of lines |
| Cart.AddToCartTotals | App.tsx:554-563 | addToCart(p, k) raises totalItems by k times max(1, lines with p's id), and subtotal by p.price times that when those lines carry p's price |
| Cart.AddToCartTotalsUnique | App.tsx:554-563 | with unique ids and lines priced as p, addToCart(p, k) raises totalItems by exactly k and subtotal by exactly p.price * k |
| Cart.AppendLineTotals | App.tsx:582-583 | appending a line adds its quantity to totalItems and its price times quantity to subtotal |
| Cart.RemoveFromCart | App.tsx:566-568 | no line with the id is left; the length drops by the number of such lines; an absent id leaves the cart unchanged |
| Cart.RemoveFromCartCount | App.tsx:567 | the number of lines of every other id is unchanged |
| Cart.RemoveFromCartSubset | App.tsx:567 | every remaining line is a line of the original cart |
| Cart.RemoveFromCartAppend | App.tsx:567 | the filter distributes over concatenation, so the relative order of the kept lines is preserved |
| Cart.RemoveFromCartSingle | App.tsx:567 | removing the one line with the id at position k gives the cart with exactly that position cut out |
| Cart.RemoveFromCartKeepsWellFormed | App.tsx:566-568 | removal keeps one line per id and quantities at least 1 |
| Cart.UpdateQuantity | App.tsx:570-578 | the length is kept and an absent id leaves the cart unchanged |
| Cart.UpdateQuantityAt | App.tsx:571-577 | position i: the line with quantity max(1, q + delta) if its id matches, the old line otherwise |
| Cart.UpdateQuantityFloors | App.tsx:572-574 | ids stay in place and every matching line has quantity at least 1 for any delta |
| Cart.UpdateQuantityKeepsWellFormed | App.tsx:570-578 | updateQuantity never breaks one-line-per-id or quantity at least 1 |
| Cart.UpdateQuantityTotals | App.tsx:570-578 | for the one line with the id, totalItems changes from q to max(1, q + delta) and subtotal by its price times that change |
| Cart.UpdateQuantityAppend | App.tsx:571-577 | the map distributes over concatenation |
| Cart.ClearCart | App.tsx:580 | the cleared cart satisfies the invariant and has totalItems 0 and subtotal 0 |
| Cart.Reduce | App.tsx:582-583 | the left-fold reduce from acc equals acc plus the independently defined structural sum of f over the lines |
| Cart.TotalItems | App.tsx:582 | totalItems is the sum of the quantities of the lines |
| Cart.Subtotal | App.tsx:583 | subtotal is the sum of price times quantity over the lines |
| Cart.TotalItemsCons | App.tsx:582 | totalItems is the first line's quantity plus the rest's total |
| Cart.SubtotalCons | App.tsx:583 | subtotal is the first line's price times quantity plus the rest's subtotal |
| Cart.SumByAppend | App.tsx:582-583 | the sum of f over a concatenation is the sum of the two parts |
| Cart.AggregatesAppend | App.tsx:582-583 | totalItems and subtotal are additive over concatenation |
| Cart.TotalItemsAtLeastLines | App.tsx:582 | with quantities at least 1, totalItems is at least the number of lines and is 0 exactly when the cart is empty, so the navbar badge and the empty-cart page agree |
| Cart.CountAppend | App.tsx:562 | the count of lines with an id is additive over concatenation |
| CartProvider.CartStore.constructor | App.tsx:552 | the store starts with the empty cart, which satisfies the invariant |
| CartProvider.CartStore.TotalItems | App.tsx:582 | the value read is the sum of the current quantities |
| CartProvider.CartStore.Subtotal | App.tsx:583 | the value read is the sum of price times quantity over the current lines |
| CartProvider.CartStore.AddToCart | App.tsx:554-564 | the new cart is addToCart of the old one; unique ids are kept; the invariant is kept when quantity is at least 1; totalItems grows by exactly quantity and subtotal by price times quantity when the invariant holds and the product's lines carry its price |
| CartProvider.CartStore.RemoveFromCart | App.tsx:566-568 | the new cart is removeFromCart of the old one, holds no line with the id, is unchanged for an absent id, and keeps the invariant |
| CartProvider.CartStore.UpdateQuantity | App.tsx:570-578 | the new cart is updateQuantity of the old one, keeps ids in place, has every matching quantity at least 1, and keeps the invariant |
| CartProvider.CartStore.ClearCart | App.tsx:580 | the cart is empty, valid, and both aggregates read 0 |
| Checkout.CheckoutView.constructor | App.tsx:415 | the checkout view starts in its form state |
| Checkout.CheckoutView.HandleSubmit | App.tsx:417-419 | submitting switches the view to its confirmation state |
| Checkout.CheckoutView.Complete | App.tsx:420-423 | the deferred step empties the cart and leaves both aggregates at 0 |
| ProductDetail.FindProduct | App.tsx:261-263 | none exactly when no catalog entry has the id; otherwise the entry with that id at the first position holding it, and the only one when catalog ids are distinct |
| ProductDetail.FindProductOfEntry | App.tsx:261 | with distinct catalog ids, looking up an entry's own id returns that entry |
| ProductDetail.StepDown | App.tsx:298 | the minus button yields at least 1: q - 1 from 2 upwards, 1 otherwise |
| ProductDetail.Step | App.tsx:298-305 | one press of either button keeps a quantity of at least 1 at least 1 |
| ProductDetail.Stepped | App.tsx:298-305 | any run of presses starting from a quantity at least 1 ends at least 1; pressing plus n times adds n |
| ProductDetail.SteppedSnoc | App.tsx:298-305 | one more press applies one more step to the quantity shown after the earlier presses |
| ProductDetail.QuantityStepper.constructor | App.tsx:259 | the stepper starts at 1, with no presses recorded |
| ProductDetail.QuantityStepper.Decrement | App.tsx:298 | the quantity becomes max(1, q - 1) and is at least 1; the press is recorded and the quantity stays the fold of the recorded presses from 1 |
| ProductDetail.QuantityStepper.Increment | App.tsx:305 | the quantity becomes q + 1; the press is recorded and the quantity stays the fold of the recorded presses from 1 |
| ProductDetail.AddFromDetail | App.tsx:261-275 | an unknown id leaves the cart as it was (the not-found page); a known id makes the cart addToCart of the found product with some quantity of at least 1, and leaves at least one line with that id |
| ProductDetail.AddFromDetailTotals | App.tsx:272-273 | with one line per id priced as the found product, the add raises totalItems by the stepper's value, which is at least 1, and subtotal by price times it |
| ProductDetail.AddFromDetailKeepsWellFormed | App.tsx:272-275 | adding from the detail page keeps the cart invariant |
| Session.AddById | App.tsx:261-273 | an add by id makes no call exactly when the id is not in the catalog, and otherwise adds the catalog entry with that id, with the given quantity |
| Session.ToOp | App.tsx:240-421 | each view event makes its store call: the minus, plus and trash buttons (359, 366, 376) make updateQuantity(id, -1), updateQuantity(id, 1) and removeFromCart(id); the checkout (421) makes clearCart; the card and detail adds (240, 273) carry a catalog product and a quantity of at least 1, and make no call only for an id outside the catalog |
| Session.CartViewButtons | App.tsx:359-376 | the cart view's plus, minus and trash buttons drive the store exactly as updateQuantity(id, 1), updateQuantity(id, -1) and removeFromCart(id) |
| Session.ToOpsFromViews | App.tsx:224-273 | every add a sequence of view events makes carries a catalog product and a quantity of at least 1 |
| Session.DetailAddIsAddFromDetail | App.tsx:272-273 | the detail-page event drives the store exactly as the page's handler, lookup and stepper included |
| Session.ListAddIsDefaultAdd | App.tsx:224-240 | a product card's button adds exactly that catalog entry with the default quantity 1 |
| Session.ApplyKeepsWellFormed | App.tsx:554-580 | each of the four operations keeps the invariant when adds carry quantity at least 1 |
| Session.RunKeepsWellFormed | App.tsx:554-580 | any sequence of such calls keeps the invariant |
| Session.ReachableWellFormed | App.tsx:552-580 | every cart reachable from the empty one through the views' events has one line per id and quantities at least 1 |
| Session.AddToLastLine | App.tsx:556-560 | adding a product whose only line is last raises that line's quantity and changes nothing else |
| Session.AddsGrowLastLine | App.tsx:556-560 | repeated adds to a product's last and only line raise its quantity by the sum of the quantities |
| Session.RepeatedAdds | App.tsx:556-562 | adds of one product to a cart without it give the old cart plus one line whose quantity is the sum of the added quantities, and exactly one line with that id |
| Session.CatalogPrices | App.tsx:562 | in a cart whose lines are catalog copies, with distinct catalog ids, every line with a catalog product's id has that product's price |
| Session.ApplyKeepsFromCatalog | App.tsx:554-580 | every operation keeps all lines copies of catalog entries when adds take catalog products |
| Session.RunKeepsFromCatalog | App.tsx:554-580 | any such sequence keeps all lines copies of catalog entries |
| Session.ReachableAddTotals | App.tsx:554-583 | in every cart reachable from the empty one through view events, adding catalog product p with quantity k raises totalItems by k and subtotal by p.price * k |
| Session.CatalogDistinct | data.ts:4-53 | the shipped catalog has distinct ids |
| Session.CatalogLookup | App.tsx:261 | ids "1" and "2" resolve to the catalog entries priced 85000 and 95000 |
| Session.CatalogNotFound | App.tsx:261-263 | id "7" resolves to nothing, the not-found page |
| Session.ScenarioAddTwice | App.tsx:554-563 | adding "1" then "1" with quantity 2 gives one line of quantity 3, totalItems 3 and subtotal 255000 (1 and 85000 after the first add) |
| Session.ScenarioFloor | App.tsx:570-578 | adding "2" then updateQuantity by -5 keeps one line with quantity 1 and subtotal 95000 |
| Session.ScenarioRemove | App.tsx:566-568 | adding "1" and "2" then removing "1" leaves only the line for "2", with totalItems 1 and subtotal 95000 |
| Session.ScenarioCheckout | App.tsx:420-423 | after any session, the checkout's clear leaves the empty cart with both aggregates 0 |

## Left out

- Rendering, markup, styling and icons are presentation with no cart logic. This covers the empty-cart page and the navbar badge; their agreement is stated in Cart.TotalItemsAtLeastLines.
- Routing, `useParams` and `useNavigate` (including the navigations after an add and after checkout) are library plumbing. The route parameter becomes the `id` argument of ProductDetail.FindProduct.
- The React context, its wiring, the "must be used within a CartProvider" error and the `useMemo` caching are framework glue. The aggregates are pure functions of the current list, recomputed on every read.
- Checkout.CheckoutView.Complete: the 4000 ms timer and what happens if the view is torn down before it fires are not modelled. Only "submit, then clear" is modelled, as two calls in order.
- The checkout form fields and `OrderDetails` are never stored or read by the cart.
- `toLocaleString` currency formatting is locale-dependent display code.
- JavaScript floating-point numbers: prices, quantities and deltas are unbounded integers, with no rounding or overflow.
- Cart.Find: it states that a found line has the id and belongs to the cart, not that it is the first such line. addToCart only uses whether some line was found.
- The one-line-per-id and quantity-at-least-1 invariant holds for carts the views build (Session.ReachableWellFormed). addToCart itself accepts any quantity (Cart.AddToCartDoesNotGuardQuantity), and with duplicate ids its map raises every matching line (Cart.AddToCartTotals counts them).
- An add event whose id is not in the catalog makes no store call (Session.ToOp). The product list only renders catalog entries (App.tsx:224), so for the card button this case cannot arise in the views. For the detail page it is the not-found page.
- `Data.Products` is a constant, not an operation. It has no contract of its own; Session.CatalogDistinct, Session.CatalogLookup and Session.CatalogNotFound state its properties.
