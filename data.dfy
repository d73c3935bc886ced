/** The static catalog the storefront ships with. */
module Data {
  import opened Types

  const Products: seq<Product> := [
    Product("1", "Original Classic Lapis", 85000,
      "Our signature traditional Malang layer cake with rich buttery flavor and smooth texture.",
      "Classic", "https://picsum.photos/seed/lapis1/600/600"),
    Product("2", "Choco-Malt Layer", 95000,
      "Indulgent Belgian chocolate layers combined with crunchy malt flakes for a modern twist.",
      "Chocolate", "https://picsum.photos/seed/lapis2/600/600"),
    Product("3", "Premium Cheese Lapis", 110000,
      "Topped with generous grated cheddar and stuffed with creamy cheese layers.",
      "Cheese", "https://picsum.photos/seed/lapis3/600/600"),
    Product("4", "Pandan Suji Delight", 90000,
      "Fragrant natural Pandan and Suji leaf extract mixed into our softest layer cake sponge.",
      "Specialty", "https://picsum.photos/seed/lapis4/600/600"),
    Product("5", "Strawberry Velvet", 98000,
      "Sweet and tangy strawberry jam layered between moist vanilla sponge cake.",
      "Fruit", "https://picsum.photos/seed/lapis5/600/600"),
    Product("6", "Mocha Almond Roast", 105000,
      "A coffee-infused delight topped with crunchy toasted almond slices.",
      "Coffee", "https://picsum.photos/seed/lapis6/600/600")
  ]
}
