/** The product record as the store hands it to the storefront, the
    optional-value wrapper used for its nullable columns, and `Math.min` and
    `Math.max` on integers. */
module Store {

  datatype Option<T> = None | Some(value: T)

  function Min(a: int, b: int): int { if a <= b then a else b }

  function Max(a: int, b: int): int { if a >= b then a else b }

  /** One row of the products table. Prices are whole lira; `createdAt`
      is the insertion timestamp as a number of seconds, which orders the
      same way as the stored `YYYY-MM-DD HH:MM:SS` text. */
  datatype Product = Product(
    id: nat,
    name: string,
    description: Option<string>,
    price: int,
    comparePrice: Option<int>,
    image: Option<string>,
    category: Option<string>,
    sizes: Option<string>,
    colors: Option<string>,
    sku: Option<string>,
    createdAt: int)
}
