/** The order service: look an order up, change its status (giving the stock
    back on cancellation), apply a coupon, and turn a cart into an order. */
module Orders {
  import opened Tables
  import opened CartRows
  import opened Stock
  import opened Store

  /** A status change keeps the schema's constraints; so does the stock a
      cancellation gives back, since order quantities are positive. */
  lemma StatusChangeKeepsWellformed(users: set<UserId>, products: map<ProductId, Product>, carts: map<UserId, Cart>,
                                    rows: seq<CartItem>, orders: map<OrderId, Order>, nextOrderId: OrderId,
                                    orderId: OrderId, status: Status)
    requires Wellformed(users, products, carts, rows, orders, nextOrderId) && orderId in orders
    ensures var o := orders[orderId];
      Wellformed(users, if status == Canceled then Restocked(products, o.items) else products,
                 carts, rows, orders[orderId := o.(status := status)], nextOrderId)
  {
    var o := orders[orderId];
    forall p | p in products ensures QtyOf(o.items, p) >= 0 {
      QtyOfNonNegative(o.items, p);
    }
    assert Restocked(products, o.items).Keys == products.Keys;
  }

  /** A new order total keeps the schema's constraints. */
  lemma TotalChangeKeepsWellformed(users: set<UserId>, products: map<ProductId, Product>, carts: map<UserId, Cart>,
                                   rows: seq<CartItem>, orders: map<OrderId, Order>, nextOrderId: OrderId,
                                   orderId: OrderId, total: real)
    requires Wellformed(users, products, carts, rows, orders, nextOrderId) && orderId in orders
    ensures Wellformed(users, products, carts, rows, orders[orderId := orders[orderId].(total := total)], nextOrderId)
  {
  }

  /** Turning a cart whose items the stock covers into an order keeps the
      schema's constraints: stock stays non-negative, the order names existing
      products once each, and the cart's rows are gone. */
  lemma OrderPlacedKeepsWellformed(users: set<UserId>, products: map<ProductId, Product>, carts: map<UserId, Cart>,
                                   rows: seq<CartItem>, orders: map<OrderId, Order>, nextOrderId: OrderId,
                                   userId: UserId, now: Timestamp)
    requires Wellformed(users, products, carts, rows, orders, nextOrderId) && userId in carts
    requires StockCovers(products, CartSnapshot(rows, carts[userId].cartId))
    ensures var cart := carts[userId]; var items := CartSnapshot(rows, cart.cartId);
      Wellformed(users, Destocked(products, items), carts[userId := cart.(total := 0.0)],
                 WithoutCart(rows, cart.cartId), orders[nextOrderId := Order(userId, now, Pending, cart.total, items)],
                 nextOrderId + 1)
  {
    var cart := carts[userId];
    var items := CartSnapshot(rows, cart.cartId);
    SnapshotWellFormed(rows, cart.cartId, products);
    DestockedNonNegative(products, items);
    ClearKeepsRowsWellFormed(rows, cart.cartId, CartIds(carts), products.Keys);
    TotalChangeKeepsCartIds(carts, userId, 0.0);
    assert Destocked(products, items).Keys == products.Keys;
  }

  /** Turning a cart into an order keeps every running total consistent (the
      emptied cart's total is 0), and the order's total is the value of its
      items whenever the cart's was. */
  lemma OrderPlacedKeepsTotals(products: map<ProductId, Product>, carts: map<UserId, Cart>, rows: seq<CartItem>, userId: UserId)
    requires userId in carts && CartIdsDistinct(carts) && Priced(rows, Prices(products))
    requires TotalsMatch(carts, rows, Prices(products))
    ensures var cart := carts[userId]; var items := CartSnapshot(rows, cart.cartId);
      && (forall it | it in items :: it.productId in Prices(products))
      && Prices(Destocked(products, items)) == Prices(products)
      && cart.total == ItemsValue(items, Prices(products))
      && Priced(WithoutCart(rows, cart.cartId), Prices(Destocked(products, items)))
      && TotalsMatch(carts[userId := cart.(total := 0.0)], WithoutCart(rows, cart.cartId), Prices(Destocked(products, items)))
  {
    var cart := carts[userId];
    var items := CartSnapshot(rows, cart.cartId);
    var prices := Prices(products);
    StockMovesKeepPrices(products, items);
    forall d | d != cart.cartId ensures LineTotal(WithoutCart(rows, cart.cartId), d, prices) == LineTotal(rows, d, prices) {
      LineTotalWithoutCart(rows, cart.cartId, d, prices);
    }
    LineTotalWithoutCart(rows, cart.cartId, cart.cartId, prices);
    CartChangeKeepsTotals(carts, rows, WithoutCart(rows, cart.cartId), userId, 0.0, prices);
    SnapshotValue(rows, cart.cartId, prices);
  }

  /** getOrder: the order with its items joined to their products. */
  function GetOrder(db: Db, orderId: OrderId): (r: Result<OrderView>)
    reads db
    requires db.Valid()
    ensures r.Ok? || r.NotFound?
    ensures r.NotFound? <==> orderId !in db.orders
    ensures r.Ok? ==>
      && r.value.orderId == orderId && r.value.order == db.orders[orderId]
      && |r.value.lines| == |db.orders[orderId].items|
      && forall k | 0 <= k < |r.value.lines| :: r.value.lines[k] == Detail(db.products, db.orders[orderId].items[k])
  {
    if orderId !in db.orders then NotFound
    else Ok(OrderView(orderId, db.orders[orderId], Details(db.products, db.orders[orderId].items)))
  }

  /** Puts every item's quantity back on its product's stock, one product update per item. */
  method ReturnStock(db: Db, items: seq<OrderItem>)
    requires forall it | it in items :: it.productId in db.products
    modifies db`products
    ensures db.products == Restocked(old(db.products), items)
  {
    ghost var start := db.products;
    assert Restocked(start, items[..0]) == start;
    var k := 0;
    while k < |items|
      invariant 0 <= k <= |items|
      invariant db.products == Restocked(start, items[..k])
    {
      var it := items[k];
      RestockStep(start, items, k);
      db.products := db.products[it.productId := db.products[it.productId].(stock := db.products[it.productId].stock + it.quantity)];
      k := k + 1;
    }
    assert items[..k] == items;
  }

  /** Takes every item's quantity off its product's stock, one product update per item. */
  method TakeStock(db: Db, items: seq<OrderItem>)
    requires forall it | it in items :: it.productId in db.products
    modifies db`products
    ensures db.products == Destocked(old(db.products), items)
  {
    ghost var start := db.products;
    assert Destocked(start, items[..0]) == start;
    var k := 0;
    while k < |items|
      invariant 0 <= k <= |items|
      invariant db.products == Destocked(start, items[..k])
    {
      var it := items[k];
      DestockStep(start, items, k);
      db.products := db.products[it.productId := db.products[it.productId].(stock := db.products[it.productId].stock - it.quantity)];
      k := k + 1;
    }
    assert items[..k] == items;
  }

  /** updateOrderStatus: any status may follow any other except itself; moving
      to Canceled gives every item's quantity back to its product's stock. */
  method UpdateOrderStatus(db: Db, orderId: OrderId, status: Status) returns (r: Result<Order>)
    requires db.Valid()
    modifies db`orders, db`products
    ensures db.Valid()
    ensures r.Ok? || r.NotFound? || r.Conflict?
    ensures r.NotFound? <==> orderId !in old(db.orders)
    ensures r.Conflict? <==> orderId in old(db.orders) && old(db.orders)[orderId].status == status
    ensures !r.Ok? ==> db.orders == old(db.orders) && db.products == old(db.products)
    ensures r.Ok? ==>
      var o := old(db.orders)[orderId];
      && r.value == o.(status := status)
      && db.orders == old(db.orders)[orderId := r.value]
      && db.products == if status == Canceled then Restocked(old(db.products), o.items) else old(db.products)
    ensures old(db.TotalsConsistent()) ==> db.TotalsConsistent()
  {
    if orderId !in db.orders {
      return NotFound;
    }
    var order := db.orders[orderId];
    if status == order.status {
      return Conflict;
    }
    StatusChangeKeepsWellformed(db.users, db.products, db.carts, db.cartItems, db.orders, db.nextOrderId, orderId, status);
    StockMovesKeepPrices(db.products, order.items);
    var updated := order.(status := status);
    db.orders := db.orders[orderId := updated];
    if status == Canceled {
      ReturnStock(db, order.items);
    }
    r := Ok(updated);
  }

  /** The order total after a percentage discount: total times (100 - discount) / 100. */
  function Discounted(total: real, discount: int): (r: real)
    ensures discount == 0 ==> r == total
    ensures discount == 100 ==> r == 0.0
    ensures 0 <= discount <= 100 && total >= 0.0 ==> 0.0 <= r <= total
  {
    total * ((100 - discount) as real / 100.0)
  }

  /** Nothing records that a coupon was applied, so a second coupon discounts
      the already discounted total: the two factors multiply. */
  lemma CouponsCompound(total: real, d1: int, d2: int)
    ensures Discounted(Discounted(total, d1), d2)
            == total * (((100 - d1) * (100 - d2)) as real / 10000.0)
  {
  }

  /** applyCoupon: an unexpired coupon scales the order's total; nothing else changes. */
  method ApplyCoupon(db: Db, orderId: OrderId, code: string, now: Timestamp) returns (r: Result<Order>)
    requires db.Valid()
    modifies db`orders
    ensures db.Valid()
    ensures r.Ok? || r.NotFound? || r.Gone?
    ensures r.NotFound? <==> orderId !in old(db.orders) || code !in db.coupons
    ensures r.Gone? <==> orderId in old(db.orders) && code in db.coupons && db.coupons[code].expiration < now
    ensures !r.Ok? ==> db.orders == old(db.orders)
    ensures r.Ok? ==>
      var o := old(db.orders)[orderId];
      && r.value == o.(total := Discounted(o.total, db.coupons[code].discount))
      && db.orders == old(db.orders)[orderId := r.value]
    ensures old(db.TotalsConsistent()) ==> db.TotalsConsistent()
  {
    if orderId !in db.orders {
      return NotFound;
    }
    var order := db.orders[orderId];
    if code !in db.coupons {
      return NotFound;
    }
    var coupon := db.coupons[code];
    if coupon.expiration < now {
      return Gone;
    }
    var updated := order.(total := Discounted(order.total, coupon.discount));
    TotalChangeKeepsWellformed(db.users, db.products, db.carts, db.cartItems, db.orders, db.nextOrderId, orderId, updated.total);
    db.orders := db.orders[orderId := updated];
    r := Ok(updated);
  }

  /** The stock check of createOrder: the first item whose quantity exceeds its
      product's stock, if any. */
  method FindShortage(products: map<ProductId, Product>, items: seq<OrderItem>) returns (r: Option<nat>)
    requires forall it | it in items :: it.productId in products
    ensures r.None? <==> StockCovers(products, items)
    ensures r.Some? ==>
      && r.value < |items|
      && items[r.value].quantity > products[items[r.value].productId].stock
      && StockCovers(products, items[..r.value])
  {
    var i := 0;
    while i < |items|
      invariant 0 <= i <= |items|
      invariant StockCovers(products, items[..i])
    {
      if items[i].quantity > products[items[i].productId].stock {
        return Some(i);
      }
      i := i + 1;
    }
    assert items[..i] == items;
    return None;
  }

  /** createOrder: checks stock for every cart item first; then, as one step,
      takes the stock, records a Pending order that copies the cart, and empties the cart. */
  method CreateOrder(db: Db, userId: UserId, now: Timestamp) returns (r: Result<(OrderId, Order)>)
    requires db.Valid()
    modifies db`products, db`orders, db`nextOrderId, db`cartItems, db`carts
    ensures db.Valid()
    ensures r.Ok? || r.NotFound? || r.Conflict?
    ensures r.NotFound? <==> userId !in old(db.carts)
    ensures r.Conflict? <==>
      userId in old(db.carts) && !StockCovers(old(db.products), CartSnapshot(old(db.cartItems), old(db.carts)[userId].cartId))
    ensures !r.Ok? ==>
      && db.products == old(db.products) && db.orders == old(db.orders) && db.nextOrderId == old(db.nextOrderId)
      && db.cartItems == old(db.cartItems) && db.carts == old(db.carts)
    ensures r.Ok? ==>
      var cart := old(db.carts)[userId];
      var items := CartSnapshot(old(db.cartItems), cart.cartId);
      && r.value.0 == old(db.nextOrderId) && db.nextOrderId == old(db.nextOrderId) + 1
      && r.value.0 !in old(db.orders)
      && r.value.1 == Order(userId, now, Pending, cart.total, items)
      && db.orders == old(db.orders)[r.value.0 := r.value.1]
      && db.products == Destocked(old(db.products), items)
      && db.cartItems == WithoutCart(old(db.cartItems), cart.cartId)
      && ItemsOf(db.cartItems, cart.cartId) == []
      && db.carts == old(db.carts)[userId := cart.(total := 0.0)]
    ensures r.Ok? && old(db.TotalsConsistent()) ==>
      r.value.1.total == ItemsValue(r.value.1.items, Prices(db.products))
    ensures old(db.TotalsConsistent()) ==> db.TotalsConsistent()
  {
    ghost var wasConsistent := db.TotalsConsistent();
    if userId !in db.carts {
      return NotFound;
    }
    var cart := db.carts[userId];
    var items := CartSnapshot(db.cartItems, cart.cartId);
    SnapshotWellFormed(db.cartItems, cart.cartId, db.products);
    var short := FindShortage(db.products, items);
    if short.Some? {
      return Conflict;
    }
    OrderPlacedKeepsWellformed(db.users, db.products, db.carts, db.cartItems, db.orders, db.nextOrderId, userId, now);
    if wasConsistent {
      OrderPlacedKeepsTotals(db.products, db.carts, db.cartItems, userId);
    }
    ClearedCartIsEmpty(db.cartItems, cart.cartId, cart.cartId);
    TakeStock(db, items);
    var id := db.nextOrderId;
    var order := Order(userId, now, Pending, cart.total, items);
    db.orders := db.orders[id := order];
    db.nextOrderId := id + 1;
    db.cartItems := WithoutCart(db.cartItems, cart.cartId);
    db.carts := db.carts[userId := cart.(total := 0.0)];
    r := Ok((id, order));
  }

  /** Cancelling the order just created from a cart puts every product's stock
      back where it was before the order. */
  method CreateThenCancel(db: Db, userId: UserId, now: Timestamp) returns (placed: Result<(OrderId, Order)>)
    requires db.Valid()
    modifies db`products, db`orders, db`nextOrderId, db`cartItems, db`carts
    ensures db.Valid()
    ensures placed.Ok? ==>
      && db.products == old(db.products)
      && db.orders == old(db.orders)[placed.value.0 := placed.value.1.(status := Canceled)]
  {
    placed := CreateOrder(db, userId, now);
    if placed.Ok? {
      var canceled := UpdateOrderStatus(db, placed.value.0, Canceled);
      assert canceled.Ok?;
      RestockUndoesDestock(old(db.products), placed.value.1.items);
    }
  }
}
