/** The rows of the shop's relational schema, as values, and the outcome of a
    service call. Identifiers are the database's integer keys; prices and
    totals are exact reals (the database's decimals); timestamps are integers. */
module Tables {

  type UserId = int
  type ProductId = int
  type CartId = int
  type OrderId = int
  type Timestamp = int

  datatype Option<T> = None | Some(value: T)

  /** A service call either succeeds with a value or fails with the HTTP
      exception it would throw: 404 NotFound, 409 Conflict, 410 Gone. */
  datatype Result<T> = Ok(value: T) | NotFound | Conflict | Gone

  /** The four values the order-status DTO admits. */
  datatype Status = Pending | Delivering | Delivered | Canceled

  datatype Product = Product(name: string, description: string, price: real, stock: int)

  /** The cart row of one user: its key and its running total. */
  datatype Cart = Cart(cartId: CartId, total: real)

  /** One row of the cart-item table; (cartId, productId) is its primary key. */
  datatype CartItem = CartItem(cartId: CartId, productId: ProductId, quantity: int)

  /** One row of the order-item table, without its orderId: the items live
      inside the order that owns them. */
  datatype OrderItem = OrderItem(productId: ProductId, quantity: int)

  datatype Order = Order(userId: UserId, orderDate: Timestamp, status: Status, total: real, items: seq<OrderItem>)

  /** No product appears in two items. */
  predicate DistinctProducts(items: seq<OrderItem>) {
    forall i, j | 0 <= i < j < |items| :: items[i].productId != items[j].productId
  }

  /** A coupon: a whole-number percentage off and the instant it expires. */
  datatype Coupon = Coupon(discount: int, expiration: Timestamp)

  /** An item as a lookup shows it: the item joined with its product's name,
      description and current price. */
  datatype ItemLine = ItemLine(productId: ProductId, quantity: int, name: string, description: string, price: real)

  /** The price list of a product table. */
  function Prices(products: map<ProductId, Product>): (prices: map<ProductId, real>)
    ensures prices.Keys == products.Keys
    ensures forall p | p in prices :: prices[p] == products[p].price
  {
    map p | p in products :: products[p].price
  }

  /** What quantity units at the given unit price come to. */
  function LineValue(quantity: int, price: real): real {
    (quantity as real) * price
  }

  /** One more unit adds exactly one unit price. */
  lemma OneMoreUnit(quantity: int, price: real)
    ensures LineValue(quantity + 1, price) == LineValue(quantity, price) + price
  {
  }

  /** The value of a list of items at the given prices: the sum of quantity times price. */
  function ItemsValue(items: seq<OrderItem>, prices: map<ProductId, real>): real
    requires forall it | it in items :: it.productId in prices
  {
    if items == [] then 0.0
    else LineValue(items[0].quantity, prices[items[0].productId]) + ItemsValue(items[1..], prices)
  }
}
