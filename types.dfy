/** Record shapes of the storefront: a catalog product and a cart line. */
module Types {

  datatype Option<T> = None | Some(value: T)

  /** A catalog entry; price is a whole amount in the smallest currency unit. */
  datatype Product = Product(
    id: string,
    name: string,
    price: int,
    description: string,
    category: string,
    image: string)

  /** A cart line: every field of a product plus the quantity ordered. */
  datatype CartItem = CartItem(
    id: string,
    name: string,
    price: int,
    description: string,
    category: string,
    image: string,
    quantity: int)

  /** The product fields of a cart line, without its quantity. */
  function ProductOf(item: CartItem): Product {
    Product(item.id, item.name, item.price, item.description, item.category, item.image)
  }

  /** The line `{ ...product, quantity }`: a copy of the product's fields with a quantity. */
  function LineOf(product: Product, quantity: int): (item: CartItem)
    ensures ProductOf(item) == product && item.quantity == quantity
  {
    CartItem(product.id, product.name, product.price, product.description,
             product.category, product.image, quantity)
  }
}
