/** The database the three services share: one object whose tables the
    services read and update in place. */
module Store {
  import opened Tables
  import opened CartRows

  class Db {
    var users: set<UserId>
    var products: map<ProductId, Product>
    /** The cart of each user, keyed by the user's id (one cart per user). */
    var carts: map<UserId, Cart>
    /** The whole cart-item table, in row order. */
    var cartItems: seq<CartItem>
    var orders: map<OrderId, Order>
    /** The next key the order table's autoincrement hands out. */
    var nextOrderId: OrderId
    var coupons: map<string, Coupon>

      /** An empty store: no users, products, carts, rows, orders or coupons,
        with the order autoincrement at 1. */
    constructor ()
      ensures Valid() && TotalsConsistent()
      ensures users == {} && products == map[] && carts == map[] && cartItems == []
      ensures orders == map[] && nextOrderId == 1 && coupons == map[]
    {
      users, products, carts, cartItems := {}, map[], map[], [];
      orders, nextOrderId, coupons := map[], 1, map[];
    }

    /** The constraints of the schema: stock never negative, foreign keys
        that resolve, unique cart-item keys, cart-item quantities of at least 1. */
    ghost predicate Valid()
      reads this
    {
      Wellformed(users, products, carts, cartItems, orders, nextOrderId)
    }

    /** Every cart's running total is the sum of quantity times current price over its items. */
    ghost predicate TotalsConsistent()
      reads this
      requires Valid()
    {
      TotalsMatch(carts, cartItems, Prices(products))
    }
  }

  ghost predicate StockNonNegative(products: map<ProductId, Product>) {
    forall p | p in products :: products[p].stock >= 0
  }

  /** Every order belongs to an existing user, has a key the autoincrement has
      handed out, and names existing products, each once, in positive quantities. */
  ghost predicate OrdersWellFormed(orders: map<OrderId, Order>, users: set<UserId>, productIds: set<ProductId>, nextOrderId: OrderId) {
    && (forall o | o in orders :: o < nextOrderId && orders[o].userId in users)
    && (forall o | o in orders :: DistinctProducts(orders[o].items))
    && (forall o, it | o in orders && it in orders[o].items :: it.productId in productIds && it.quantity >= 1)
  }

  /** The constraints of the schema over the tables' values. */
  ghost predicate Wellformed(users: set<UserId>, products: map<ProductId, Product>, carts: map<UserId, Cart>,
                             rows: seq<CartItem>, orders: map<OrderId, Order>, nextOrderId: OrderId) {
    && StockNonNegative(products)
    && carts.Keys <= users
    && CartIdsDistinct(carts)
    && RowsWellFormed(rows, CartIds(carts), products.Keys)
    && OrdersWellFormed(orders, users, products.Keys, nextOrderId)
  }

  /** A cart write changes one cart's total and the cart-item rows; if the new
      rows are well formed, so is the database. */
  lemma CartWriteKeepsWellformed(users: set<UserId>, products: map<ProductId, Product>, carts: map<UserId, Cart>,
                                 rows: seq<CartItem>, orders: map<OrderId, Order>, nextOrderId: OrderId,
                                 userId: UserId, newTotal: real, rows': seq<CartItem>)
    requires Wellformed(users, products, carts, rows, orders, nextOrderId) && userId in carts
    requires RowsWellFormed(rows', CartIds(carts), products.Keys)
    ensures Wellformed(users, products, carts[userId := carts[userId].(total := newTotal)], rows', orders, nextOrderId)
  {
    TotalChangeKeepsCartIds(carts, userId, newTotal);
  }

  /** An item joined with its product's name, description and current price. */
  function Detail(products: map<ProductId, Product>, it: OrderItem): ItemLine
    requires it.productId in products
  {
    var p := products[it.productId];
    ItemLine(it.productId, it.quantity, p.name, p.description, p.price)
  }

  /** The items joined with their products, in order. */
  function Details(products: map<ProductId, Product>, items: seq<OrderItem>): (lines: seq<ItemLine>)
    requires forall it | it in items :: it.productId in products
    ensures |lines| == |items|
    ensures forall k | 0 <= k < |lines| :: lines[k] == Detail(products, items[k])
  {
    seq(|items|, k requires 0 <= k < |items| => Detail(products, items[k]))
  }

  /** What a cart lookup returns: the cart row with its items and their products. */
  datatype CartView = CartView(cartId: CartId, userId: UserId, total: real, lines: seq<ItemLine>)

  /** What an order lookup returns: the order row with its items and their products. */
  datatype OrderView = OrderView(orderId: OrderId, order: Order, lines: seq<ItemLine>)

  /** The sum of quantity times shown price over the lines. */
  function LinesValue(lines: seq<ItemLine>): real {
    if lines == [] then 0.0 else LineValue(lines[0].quantity, lines[0].price) + LinesValue(lines[1..])
  }

  /** Joining items with their products shows them at their current prices. */
  lemma {:induction false} DetailsValue(products: map<ProductId, Product>, items: seq<OrderItem>)
    requires forall it | it in items :: it.productId in products
    ensures forall it | it in items :: it.productId in Prices(products)
    ensures LinesValue(Details(products, items)) == ItemsValue(items, Prices(products))
  {
    if items != [] {
      DetailsValue(products, items[1..]);
      assert Details(products, items)[1..] == Details(products, items[1..]);
    }
  }
}
