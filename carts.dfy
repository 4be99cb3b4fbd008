/** The cart service: add a product, remove it, change its quantity, look the
    cart up. Each write keeps the cart's running total up to date by the
    difference it makes. */
module Carts {
  import opened Tables
  import opened CartRows
  import opened Store

  /** The position of the user's row for the product, if the user has a cart and it holds one. */
  function CartRow(carts: map<UserId, Cart>, rows: seq<CartItem>, userId: UserId, productId: ProductId): (r: Option<nat>)
    ensures r.Some? ==> userId in carts && r.value < |rows| && SameKey(rows[r.value], carts[userId].cartId, productId)
    ensures r.None? && userId in carts ==> forall i | 0 <= i < |rows| :: !SameKey(rows[i], carts[userId].cartId, productId)
  {
    if userId in carts then Find(rows, carts[userId].cartId, productId) else None
  }

  /** addProduct: one more unit of the product in the user's cart. */
  method AddProduct(db: Db, userId: UserId, productId: ProductId) returns (r: Result<CartItem>)
    requires db.Valid()
    modifies db`carts, db`cartItems
    ensures db.Valid()
    ensures r.Ok? || r.NotFound? || r.Conflict?
    ensures r.NotFound? <==> userId !in old(db.carts) || productId !in db.products
    ensures r.Conflict? <==> userId in old(db.carts) && productId in db.products && db.products[productId].stock == 0
    ensures !r.Ok? ==> db.carts == old(db.carts) && db.cartItems == old(db.cartItems)
    ensures r.Ok? ==>
      var cart := old(db.carts)[userId];
      var rows := old(db.cartItems);
      && db.carts == old(db.carts)[userId := cart.(total := cart.total + db.products[productId].price)]
      && match Find(rows, cart.cartId, productId)
         case Some(i) =>
           db.cartItems == rows[i := rows[i].(quantity := rows[i].quantity + 1)] && r.value == db.cartItems[i]
         case None =>
           db.cartItems == rows + [CartItem(cart.cartId, productId, 1)] && r.value == CartItem(cart.cartId, productId, 1)
    ensures db.products == old(db.products)
    ensures old(db.TotalsConsistent()) ==> db.TotalsConsistent()
  {
    ghost var oldCarts, rows := db.carts, db.cartItems;
    if userId !in db.carts {
      return NotFound;
    }
    var cart := db.carts[userId];
    if productId !in db.products {
      return NotFound;
    }
    var product := db.products[productId];
    if product.stock == 0 {
      return Conflict;
    }
    db.carts := db.carts[userId := cart.(total := cart.total + product.price)];
    var found := Find(db.cartItems, cart.cartId, productId);
    var item;
    if found.Some? {
      var i := found.value;
      item := db.cartItems[i].(quantity := db.cartItems[i].quantity + 1);
      db.cartItems := db.cartItems[i := item];
      BumpKeepsInvariants(db.users, db.products, oldCarts, rows, db.orders, db.nextOrderId, userId, productId, i);
    } else {
      item := CartItem(cart.cartId, productId, 1);
      db.cartItems := db.cartItems + [item];
      FirstUnitKeepsInvariants(db.users, db.products, oldCarts, rows, db.orders, db.nextOrderId, userId, productId);
    }
    r := Ok(item);
  }

  /** One more unit of a product already in the cart bumps its row by 1 and the
      cart's total by the unit price: every constraint of the schema still holds,
      and consistent running totals stay consistent. */
  lemma BumpKeepsInvariants(users: set<UserId>, products: map<ProductId, Product>, carts: map<UserId, Cart>,
                            rows: seq<CartItem>, orders: map<OrderId, Order>, nextOrderId: OrderId,
                            userId: UserId, productId: ProductId, i: nat)
    requires Wellformed(users, products, carts, rows, orders, nextOrderId)
    requires userId in carts && productId in products
    requires i < |rows| && SameKey(rows[i], carts[userId].cartId, productId)
    ensures var carts' := carts[userId := carts[userId].(total := carts[userId].total + products[productId].price)];
      var rows' := rows[i := rows[i].(quantity := rows[i].quantity + 1)];
      && Wellformed(users, products, carts', rows', orders, nextOrderId)
      && (TotalsMatch(carts, rows, Prices(products)) ==> TotalsMatch(carts', rows', Prices(products)))
  {
    var cart, prices, price := carts[userId], Prices(products), products[productId].price;
    var item := rows[i].(quantity := rows[i].quantity + 1);
    var rows' := rows[i := item];
    UpdateKeepsRowsWellFormed(rows, i, item, CartIds(carts), products.Keys);
    CartWriteKeepsWellformed(users, products, carts, rows, orders, nextOrderId, userId, cart.total + price, rows');
    if TotalsMatch(carts, rows, prices) {
      assert LineTotal(rows', cart.cartId, prices) - LineTotal(rows, cart.cartId, prices) == price by {
        LineTotalUpdate(rows, i, item, cart.cartId, prices);
        OneMoreUnit(rows[i].quantity, price);
      }
      UpdateKeepsOtherTotals(rows, i, item, prices);
      CartChangeKeepsTotals(carts, rows, rows', userId, cart.total + price, prices);
    }
  }

  /** The first unit of a product not yet in the cart appends a row of quantity 1
      and raises the cart's total by the unit price: every constraint of the
      schema still holds, and consistent running totals stay consistent. */
  lemma FirstUnitKeepsInvariants(users: set<UserId>, products: map<ProductId, Product>, carts: map<UserId, Cart>,
                                 rows: seq<CartItem>, orders: map<OrderId, Order>, nextOrderId: OrderId,
                                 userId: UserId, productId: ProductId)
    requires Wellformed(users, products, carts, rows, orders, nextOrderId)
    requires userId in carts && productId in products
    requires forall i | 0 <= i < |rows| :: !SameKey(rows[i], carts[userId].cartId, productId)
    ensures var carts' := carts[userId := carts[userId].(total := carts[userId].total + products[productId].price)];
      var rows' := rows + [CartItem(carts[userId].cartId, productId, 1)];
      && Wellformed(users, products, carts', rows', orders, nextOrderId)
      && (TotalsMatch(carts, rows, Prices(products)) ==> TotalsMatch(carts', rows', Prices(products)))
  {
    var cart, prices, price := carts[userId], Prices(products), products[productId].price;
    var item := CartItem(cart.cartId, productId, 1);
    var rows' := rows + [item];
    AppendKeepsRowsWellFormed(rows, item, CartIds(carts), products.Keys);
    CartWriteKeepsWellformed(users, products, carts, rows, orders, nextOrderId, userId, cart.total + price, rows');
    if TotalsMatch(carts, rows, prices) {
      assert LineTotal(rows', cart.cartId, prices) - LineTotal(rows, cart.cartId, prices) == price by {
        LineTotalAppend(rows, item, cart.cartId, prices);
        OneMoreUnit(0, price);
      }
      AppendKeepsOtherTotals(rows, item, prices);
      CartChangeKeepsTotals(carts, rows, rows', userId, cart.total + price, prices);
    }
  }

  /** removeProduct: the user's row for the product is deleted and its value taken off the total. */
  method RemoveProduct(db: Db, userId: UserId, productId: ProductId) returns (r: Result<()>)
    requires db.Valid()
    modifies db`carts, db`cartItems
    ensures db.Valid()
    ensures r.Ok? || r.NotFound?
    ensures r.NotFound? <==> productId !in db.products || CartRow(old(db.carts), old(db.cartItems), userId, productId).None?
    ensures r.NotFound? ==> db.carts == old(db.carts) && db.cartItems == old(db.cartItems)
    ensures r.Ok? ==>
      var cart := old(db.carts)[userId];
      var rows := old(db.cartItems);
      var i := CartRow(old(db.carts), rows, userId, productId).value;
      && db.carts == old(db.carts)[userId := cart.(total := cart.total - LineValue(rows[i].quantity, db.products[productId].price))]
      && db.cartItems == rows[..i] + rows[i + 1..]
    ensures db.products == old(db.products)
    ensures old(db.TotalsConsistent()) ==> db.TotalsConsistent()
  {
    ghost var wasConsistent := db.TotalsConsistent();
    ghost var oldCarts, rows, prices := db.carts, db.cartItems, Prices(db.products);
    if userId !in db.carts {
      return NotFound;
    }
    var cart := db.carts[userId];
    if productId !in db.products {
      return NotFound;
    }
    var product := db.products[productId];
    var found := Find(db.cartItems, cart.cartId, productId);
    if found.None? {
      return NotFound;
    }
    var i := found.value;
    assert CartRow(oldCarts, rows, userId, productId) == found;
    var item := db.cartItems[i];
    db.carts := db.carts[userId := cart.(total := cart.total - LineValue(item.quantity, product.price))];
    db.cartItems := db.cartItems[..i] + db.cartItems[i + 1..];
    DeleteKeepsRowsWellFormed(rows, i, CartIds(oldCarts), db.products.Keys);
    CartWriteKeepsWellformed(db.users, db.products, oldCarts, rows, db.orders, db.nextOrderId,
      userId, cart.total - LineValue(item.quantity, product.price), db.cartItems);
    LineTotalDelete(rows, i, cart.cartId, prices);
    DeleteKeepsOtherTotals(rows, i, prices);
    if wasConsistent {
      CartChangeKeepsTotals(oldCarts, rows, db.cartItems, userId, cart.total - LineValue(item.quantity, product.price), prices);
    }
    r := Ok(());
  }

  /** getCart: the user's cart with its items joined to their products. */
  function GetCart(db: Db, userId: UserId): (r: Result<CartView>)
    reads db
    requires db.Valid()
    ensures r.Ok? || r.NotFound?
    ensures r.NotFound? <==> userId !in db.carts
    ensures r.Ok? ==>
      && r.value.cartId == db.carts[userId].cartId && r.value.userId == userId
      && r.value.total == db.carts[userId].total
      && |r.value.lines| == |ItemsOf(db.cartItems, db.carts[userId].cartId)|
      && forall k | 0 <= k < |r.value.lines| ::
           var x := ItemsOf(db.cartItems, db.carts[userId].cartId)[k];
           r.value.lines[k] == ItemLine(x.productId, x.quantity, db.products[x.productId].name,
                                        db.products[x.productId].description, db.products[x.productId].price)
  {
    if userId !in db.carts then NotFound
    else
      var cart := db.carts[userId];
      var items := CartSnapshot(db.cartItems, cart.cartId);
      assert forall it | it in items :: it.productId in db.products by {
        forall it | it in items ensures it.productId in db.products {
          var k :| 0 <= k < |items| && items[k] == it;
          assert ItemsOf(db.cartItems, cart.cartId)[k] in db.cartItems;
        }
      }
      Ok(CartView(cart.cartId, userId, cart.total, Details(db.products, items)))
  }

  /** The cart a lookup shows adds up: its total is the sum of quantity times
      shown price over its lines, whenever the running totals are consistent. */
  lemma CartViewAddsUp(db: Db, userId: UserId)
    requires db.Valid() && db.TotalsConsistent()
    requires GetCart(db, userId).Ok?
    ensures LinesValue(GetCart(db, userId).value.lines) == GetCart(db, userId).value.total
  {
    var c := db.carts[userId].cartId;
    SnapshotWellFormed(db.cartItems, c, db.products);
    DetailsValue(db.products, CartSnapshot(db.cartItems, c));
    SnapshotValue(db.cartItems, c, Prices(db.products));
  }

  /** updateCart: the user's row for the product gets the requested quantity,
      unless the increase exceeds the product's stock. */
  method UpdateCart(db: Db, userId: UserId, productId: ProductId, quantity: int) returns (r: Result<CartItem>)
    requires db.Valid()
    requires quantity >= 1
    modifies db`carts, db`cartItems
    ensures db.Valid()
    ensures r.Ok? || r.NotFound? || r.Conflict?
    ensures r.NotFound? <==> productId !in db.products || CartRow(old(db.carts), old(db.cartItems), userId, productId).None?
    ensures r.Conflict? <==>
      && productId in db.products
      && CartRow(old(db.carts), old(db.cartItems), userId, productId).Some?
      && quantity - old(db.cartItems)[CartRow(old(db.carts), old(db.cartItems), userId, productId).value].quantity
         > db.products[productId].stock
    ensures !r.Ok? ==> db.carts == old(db.carts) && db.cartItems == old(db.cartItems)
    ensures r.Ok? ==>
      var cart := old(db.carts)[userId];
      var rows := old(db.cartItems);
      var i := CartRow(old(db.carts), rows, userId, productId).value;
      var price := db.products[productId].price;
      && db.carts == old(db.carts)[userId := cart.(total := cart.total - LineValue(rows[i].quantity, price) + LineValue(quantity, price))]
      && db.cartItems == rows[i := rows[i].(quantity := quantity)]
      && r.value == db.cartItems[i]
    ensures db.products == old(db.products)
    ensures old(db.TotalsConsistent()) ==> db.TotalsConsistent()
  {
    ghost var wasConsistent := db.TotalsConsistent();
    ghost var oldCarts, rows, prices := db.carts, db.cartItems, Prices(db.products);
    if userId !in db.carts {
      return NotFound;
    }
    var cart := db.carts[userId];
    if productId !in db.products {
      return NotFound;
    }
    var product := db.products[productId];
    var found := Find(db.cartItems, cart.cartId, productId);
    if found.None? {
      return NotFound;
    }
    var i := found.value;
    assert CartRow(oldCarts, rows, userId, productId) == found;
    assert prices[productId] == product.price;
    var old_item := db.cartItems[i];
    if quantity - old_item.quantity > product.stock {
      return Conflict;
    }
    db.carts := db.carts[userId := cart.(total := cart.total - LineValue(old_item.quantity, product.price) + LineValue(quantity, product.price))];
    var item := old_item.(quantity := quantity);
    db.cartItems := db.cartItems[i := item];
    LineTotalUpdate(rows, i, item, cart.cartId, prices);
    UpdateKeepsOtherTotals(rows, i, item, prices);
    UpdateKeepsRowsWellFormed(rows, i, item, CartIds(oldCarts), db.products.Keys);
    CartWriteKeepsWellformed(db.users, db.products, oldCarts, rows, db.orders, db.nextOrderId,
      userId, cart.total - LineValue(old_item.quantity, product.price) + LineValue(quantity, product.price), db.cartItems);
    if wasConsistent {
      CartChangeKeepsTotals(oldCarts, rows, db.cartItems, userId,
        cart.total - LineValue(old_item.quantity, product.price) + LineValue(quantity, product.price), prices);
    }
    r := Ok(item);
  }
}
