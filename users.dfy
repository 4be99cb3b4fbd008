/** The user service: a user's order history. */
module Users {
  import opened Tables
  import opened Store
  import Orders

  /** getOrders: every order of an existing user, and no other order. */
  function GetOrders(db: Db, userId: UserId): (r: Result<map<OrderId, Order>>)
    reads db
    ensures r.Ok? || r.NotFound?
    ensures r.NotFound? <==> userId !in db.users
    ensures r.Ok? ==> forall id :: id in r.value <==> id in db.orders && db.orders[id].userId == userId
    ensures r.Ok? ==> forall id | id in r.value :: r.value[id] == db.orders[id]
  {
    if userId !in db.users then NotFound
    else Ok(map id | id in db.orders && db.orders[id].userId == userId :: db.orders[id])
  }

  /** An existing user without orders gets an empty history, not NotFound. */
  lemma NoOrdersIsEmptyHistory(db: Db, userId: UserId)
    requires userId in db.users
    requires forall id | id in db.orders :: db.orders[id].userId != userId
    ensures GetOrders(db, userId) == Ok(map[])
  {
    var history := GetOrders(db, userId).value;
    assert forall id :: id !in history;
    assert history == map[];
  }

  /** Every order that getOrder finds is in its user's history, and in no other user's. */
  lemma OrderListedForItsUser(db: Db, orderId: OrderId, other: UserId)
    requires db.Valid()
    requires Orders.GetOrder(db, orderId).Ok?
    ensures var o := Orders.GetOrder(db, orderId).value.order;
      && GetOrders(db, o.userId).Ok?
      && GetOrders(db, o.userId).value[orderId] == o
      && (other != o.userId && GetOrders(db, other).Ok? ==> orderId !in GetOrders(db, other).value)
  {
  }
}
