/** The cart-item table as a sequence of rows, and the running total of a cart
    as a function of those rows. */
module CartRows {
  import opened Tables

  predicate SameKey(x: CartItem, c: CartId, p: ProductId) {
    x.cartId == c && x.productId == p
  }

  /** No two rows share a (cartId, productId) primary key. */
  predicate KeysUnique(rows: seq<CartItem>) {
    forall i, j | 0 <= i < j < |rows| :: !SameKey(rows[j], rows[i].cartId, rows[i].productId)
  }

  /** Unique keys, existing carts and products, and quantities of at least 1. */
  predicate RowsWellFormed(rows: seq<CartItem>, cartIds: set<CartId>, productIds: set<ProductId>) {
    KeysUnique(rows) && forall x | x in rows :: x.cartId in cartIds && x.productId in productIds && x.quantity >= 1
  }

  /** Every row names a product that has a price. */
  predicate Priced(rows: seq<CartItem>, prices: map<ProductId, real>) {
    forall x | x in rows :: x.productId in prices
  }

  /** The position of the row with key (c, p), if there is one (findFirst on the key). */
  function Find(rows: seq<CartItem>, c: CartId, p: ProductId): (r: Option<nat>)
    ensures r.Some? ==> r.value < |rows| && SameKey(rows[r.value], c, p)
    ensures r.None? ==> forall i | 0 <= i < |rows| :: !SameKey(rows[i], c, p)
  {
    if rows == [] then None
    else if SameKey(rows[0], c, p) then Some(0)
    else match Find(rows[1..], c, p)
      case None => None
      case Some(i) => Some(i + 1)
  }

  /** The rows of cart c, in table order. */
  function ItemsOf(rows: seq<CartItem>, c: CartId): (r: seq<CartItem>)
    ensures forall x | x in r :: x in rows && x.cartId == c
    ensures forall x | x in rows && x.cartId == c :: x in r
  {
    if rows == [] then []
    else if rows[0].cartId == c then [rows[0]] + ItemsOf(rows[1..], c)
    else ItemsOf(rows[1..], c)
  }

  /** The table after deleteMany on cartId == c. */
  function WithoutCart(rows: seq<CartItem>, c: CartId): (r: seq<CartItem>)
    ensures forall x | x in r :: x in rows && x.cartId != c
    ensures forall x | x in rows && x.cartId != c :: x in r
  {
    if rows == [] then []
    else if rows[0].cartId == c then WithoutCart(rows[1..], c)
    else [rows[0]] + WithoutCart(rows[1..], c)
  }

  /** Cart items copied into order items, one for one and in order. */
  function Snapshot(items: seq<CartItem>): (r: seq<OrderItem>)
    ensures |r| == |items|
    ensures forall k | 0 <= k < |r| :: r[k].productId == items[k].productId && r[k].quantity == items[k].quantity
  {
    seq(|items|, k requires 0 <= k < |items| => OrderItem(items[k].productId, items[k].quantity))
  }

  /** The items an order made from cart c would carry. */
  function CartSnapshot(rows: seq<CartItem>, c: CartId): seq<OrderItem> {
    Snapshot(ItemsOf(rows, c))
  }

  /** What one row adds to the total of cart c. */
  function Contribution(x: CartItem, c: CartId, prices: map<ProductId, real>): real
    requires x.productId in prices
  {
    if x.cartId == c then LineValue(x.quantity, prices[x.productId]) else 0.0
  }

  /** The sum of quantity times price over the rows of cart c. */
  function LineTotal(rows: seq<CartItem>, c: CartId, prices: map<ProductId, real>): real
    requires Priced(rows, prices)
  {
    if rows == [] then 0.0 else Contribution(rows[0], c, prices) + LineTotal(rows[1..], c, prices)
  }

  /** Creating a row adds exactly its own contribution to every cart's total. */
  lemma {:induction false} LineTotalAppend(rows: seq<CartItem>, x: CartItem, c: CartId, prices: map<ProductId, real>)
    requires Priced(rows, prices) && x.productId in prices
    ensures Priced(rows + [x], prices)
    ensures LineTotal(rows + [x], c, prices) == LineTotal(rows, c, prices) + Contribution(x, c, prices)
  {
    if rows != [] {
      assert (rows + [x])[1..] == rows[1..] + [x];
      LineTotalAppend(rows[1..], x, c, prices);
    }
  }

  /** Replacing row i changes a cart's total by the difference of the two rows' contributions. */
  lemma {:induction false} LineTotalUpdate(rows: seq<CartItem>, i: nat, x: CartItem, c: CartId, prices: map<ProductId, real>)
    requires i < |rows| && Priced(rows, prices) && x.productId in prices
    ensures Priced(rows[i := x], prices)
    ensures LineTotal(rows[i := x], c, prices)
            == LineTotal(rows, c, prices) - Contribution(rows[i], c, prices) + Contribution(x, c, prices)
  {
    if i > 0 {
      assert rows[i := x][1..] == rows[1..][i - 1 := x];
      LineTotalUpdate(rows[1..], i - 1, x, c, prices);
    } else {
      assert rows[i := x][1..] == rows[1..];
    }
  }

  /** Deleting row i takes exactly its contribution off every cart's total. */
  lemma {:induction false} LineTotalDelete(rows: seq<CartItem>, i: nat, c: CartId, prices: map<ProductId, real>)
    requires i < |rows| && Priced(rows, prices)
    ensures Priced(rows[..i] + rows[i + 1..], prices)
    ensures LineTotal(rows[..i] + rows[i + 1..], c, prices) == LineTotal(rows, c, prices) - Contribution(rows[i], c, prices)
  {
    if i > 0 {
      assert (rows[..i] + rows[i + 1..])[1..] == rows[1..][..i - 1] + rows[1..][i..];
      LineTotalDelete(rows[1..], i - 1, c, prices);
    } else {
      assert rows[..i] + rows[i + 1..] == rows[1..];
    }
  }

  /** Clearing cart c zeroes its total and leaves every other cart's total as it was. */
  lemma {:induction false} LineTotalWithoutCart(rows: seq<CartItem>, c: CartId, d: CartId, prices: map<ProductId, real>)
    requires Priced(rows, prices)
    ensures Priced(WithoutCart(rows, c), prices)
    ensures LineTotal(WithoutCart(rows, c), d, prices) == if d == c then 0.0 else LineTotal(rows, d, prices)
  {
    if rows != [] {
      LineTotalWithoutCart(rows[1..], c, d, prices);
    }
  }

  /** The total of cart c is the value of the order items an order would copy from it. */
  lemma {:induction false} SnapshotValue(rows: seq<CartItem>, c: CartId, prices: map<ProductId, real>)
    requires Priced(rows, prices)
    ensures forall it | it in CartSnapshot(rows, c) :: it.productId in prices
    ensures ItemsValue(CartSnapshot(rows, c), prices) == LineTotal(rows, c, prices)
  {
    if rows != [] {
      SnapshotValue(rows[1..], c, prices);
      if rows[0].cartId == c {
        var s := CartSnapshot(rows, c);
        assert s[1..] == CartSnapshot(rows[1..], c);
      } else {
        assert CartSnapshot(rows, c) == CartSnapshot(rows[1..], c);
      }
    }
  }

  /** With unique keys, the rows of one cart name each product at most once. */
  lemma {:induction false} ItemsOfDistinct(rows: seq<CartItem>, c: CartId)
    requires KeysUnique(rows)
    ensures forall i, j | 0 <= i < j < |ItemsOf(rows, c)| :: ItemsOf(rows, c)[i].productId != ItemsOf(rows, c)[j].productId
  {
    if rows != [] {
      assert KeysUnique(rows[1..]) by {
        forall i, j | 0 <= i < j < |rows[1..]|
          ensures !SameKey(rows[1..][j], rows[1..][i].cartId, rows[1..][i].productId)
        {
          assert rows[1..][i] == rows[i + 1] && rows[1..][j] == rows[j + 1];
        }
      }
      ItemsOfDistinct(rows[1..], c);
      if rows[0].cartId == c {
        var s := ItemsOf(rows, c);
        forall j | 0 < j < |s| ensures s[0].productId != s[j].productId {
          assert s[j] in ItemsOf(rows[1..], c);
          var k :| 0 <= k < |rows[1..]| && rows[1..][k] == s[j];
          assert rows[k + 1] == s[j];
        }
      }
    }
  }

  /** Deleting rows keeps the keys unique. */
  lemma {:induction false} WithoutCartUnique(rows: seq<CartItem>, c: CartId)
    requires KeysUnique(rows)
    ensures KeysUnique(WithoutCart(rows, c))
  {
    if rows != [] {
      assert KeysUnique(rows[1..]) by {
        forall i, j | 0 <= i < j < |rows[1..]|
          ensures !SameKey(rows[1..][j], rows[1..][i].cartId, rows[1..][i].productId)
        {
          assert rows[1..][i] == rows[i + 1] && rows[1..][j] == rows[j + 1];
        }
      }
      WithoutCartUnique(rows[1..], c);
      if rows[0].cartId != c {
        var s := WithoutCart(rows, c);
        forall j | 0 < j < |s| ensures !SameKey(s[j], s[0].cartId, s[0].productId) {
          assert s[j] in WithoutCart(rows[1..], c);
          var k :| 0 <= k < |rows[1..]| && rows[1..][k] == s[j];
          assert rows[k + 1] == s[j];
        }
      }
    }
  }

  /** Deleting a row keeps the keys unique. */
  lemma DeleteUnique(rows: seq<CartItem>, i: nat)
    requires i < |rows| && KeysUnique(rows)
    ensures KeysUnique(rows[..i] + rows[i + 1..])
  {
    var s := rows[..i] + rows[i + 1..];
    forall a, b | 0 <= a < b < |s| ensures !SameKey(s[b], s[a].cartId, s[a].productId) {
      var a' := if a < i then a else a + 1;
      var b' := if b < i then b else b + 1;
      assert s[a] == rows[a'] && s[b] == rows[b'];
    }
  }

  /** No two users' carts share a cart id. */
  predicate CartIdsDistinct(carts: map<UserId, Cart>) {
    forall u, v | u in carts && v in carts && u != v :: carts[u].cartId != carts[v].cartId
  }

  /** The keys of the cart table. */
  function CartIds(carts: map<UserId, Cart>): (ids: set<CartId>)
    ensures forall u | u in carts :: carts[u].cartId in ids
  {
    set u | u in carts :: carts[u].cartId
  }

  /** A new running total leaves the cart keys as they were. */
  lemma TotalChangeKeepsCartIds(carts: map<UserId, Cart>, u: UserId, total: real)
    requires u in carts
    ensures CartIds(carts[u := carts[u].(total := total)]) == CartIds(carts)
  {
    var carts' := carts[u := carts[u].(total := total)];
    forall c | c in CartIds(carts) ensures c in CartIds(carts') {
      var v :| v in carts && carts[v].cartId == c;
      assert carts'[v].cartId == c;
    }
    forall c | c in CartIds(carts') ensures c in CartIds(carts) {
      var v :| v in carts' && carts'[v].cartId == c;
      assert carts[v].cartId == c;
    }
  }

  /** Every cart's running total is the sum of quantity times price over its rows. */
  ghost predicate TotalsMatch(carts: map<UserId, Cart>, rows: seq<CartItem>, prices: map<ProductId, real>)
    requires Priced(rows, prices)
  {
    forall u | u in carts :: carts[u].total == LineTotal(rows, carts[u].cartId, prices)
  }

  /** Changing a row of cart c in place leaves every other cart's total as it was. */
  lemma UpdateKeepsOtherTotals(rows: seq<CartItem>, i: nat, x: CartItem, prices: map<ProductId, real>)
    requires i < |rows| && Priced(rows, prices) && x.productId in prices && x.cartId == rows[i].cartId
    ensures Priced(rows[i := x], prices)
    ensures forall d | d != x.cartId :: LineTotal(rows[i := x], d, prices) == LineTotal(rows, d, prices)
  {
    forall d | d != x.cartId ensures LineTotal(rows[i := x], d, prices) == LineTotal(rows, d, prices) {
      LineTotalUpdate(rows, i, x, d, prices);
    }
  }

  /** Creating a row of cart c leaves every other cart's total as it was. */
  lemma AppendKeepsOtherTotals(rows: seq<CartItem>, x: CartItem, prices: map<ProductId, real>)
    requires Priced(rows, prices) && x.productId in prices
    ensures Priced(rows + [x], prices)
    ensures forall d | d != x.cartId :: LineTotal(rows + [x], d, prices) == LineTotal(rows, d, prices)
  {
    forall d | d != x.cartId ensures LineTotal(rows + [x], d, prices) == LineTotal(rows, d, prices) {
      LineTotalAppend(rows, x, d, prices);
    }
  }

  /** Deleting a row of cart c leaves every other cart's total as it was. */
  lemma DeleteKeepsOtherTotals(rows: seq<CartItem>, i: nat, prices: map<ProductId, real>)
    requires i < |rows| && Priced(rows, prices)
    ensures Priced(rows[..i] + rows[i + 1..], prices)
    ensures forall d | d != rows[i].cartId :: LineTotal(rows[..i] + rows[i + 1..], d, prices) == LineTotal(rows, d, prices)
  {
    forall d | d != rows[i].cartId ensures LineTotal(rows[..i] + rows[i + 1..], d, prices) == LineTotal(rows, d, prices) {
      LineTotalDelete(rows, i, d, prices);
    }
  }

  /** If the rows of user u's cart change by exactly what u's total changes by, and
      no other cart's rows change, every cart whose total matched its rows still does. */
  lemma CartChangeKeepsTotals(carts: map<UserId, Cart>, rows: seq<CartItem>, rows': seq<CartItem>,
                              u: UserId, newTotal: real, prices: map<ProductId, real>)
    requires u in carts && CartIdsDistinct(carts) && Priced(rows, prices) && Priced(rows', prices)
    requires TotalsMatch(carts, rows, prices)
    requires LineTotal(rows', carts[u].cartId, prices) - LineTotal(rows, carts[u].cartId, prices) == newTotal - carts[u].total
    requires forall d | d != carts[u].cartId :: LineTotal(rows', d, prices) == LineTotal(rows, d, prices)
    ensures TotalsMatch(carts[u := carts[u].(total := newTotal)], rows', prices)
  {
    var carts' := carts[u := carts[u].(total := newTotal)];
    forall v | v in carts' ensures carts'[v].total == LineTotal(rows', carts'[v].cartId, prices) {
      if v != u {
        assert carts[v].cartId != carts[u].cartId;
      }
    }
  }

  /** An order copied from cart c names each product once, and only existing
      products in positive quantities, when the table's rows do. */
  lemma SnapshotWellFormed(rows: seq<CartItem>, c: CartId, products: map<ProductId, Product>)
    requires KeysUnique(rows)
    requires forall x | x in rows :: x.productId in products && x.quantity >= 1
    ensures DistinctProducts(CartSnapshot(rows, c))
    ensures forall it | it in CartSnapshot(rows, c) :: it.productId in products && it.quantity >= 1
  {
    var s := CartSnapshot(rows, c);
    ItemsOfDistinct(rows, c);
    forall it | it in s ensures it.productId in products && it.quantity >= 1 {
      var k :| 0 <= k < |s| && s[k] == it;
      assert ItemsOf(rows, c)[k] in rows;
    }
  }

  /** After deleteMany on cart c, cart c has no rows left and every other cart keeps its rows. */
  lemma {:induction false} ClearedCartIsEmpty(rows: seq<CartItem>, c: CartId, d: CartId)
    ensures ItemsOf(WithoutCart(rows, c), c) == []
    ensures d != c ==> ItemsOf(WithoutCart(rows, c), d) == ItemsOf(rows, d)
  {
    if rows != [] {
      ClearedCartIsEmpty(rows[1..], c, d);
      if rows[0].cartId != c {
        assert ([rows[0]] + WithoutCart(rows[1..], c))[1..] == WithoutCart(rows[1..], c);
      }
    }
  }

  /** A row whose quantity changes keeps the rows well formed. */
  lemma UpdateKeepsRowsWellFormed(rows: seq<CartItem>, i: nat, x: CartItem, cartIds: set<CartId>, productIds: set<ProductId>)
    requires RowsWellFormed(rows, cartIds, productIds) && i < |rows|
    requires SameKey(x, rows[i].cartId, rows[i].productId) && x.quantity >= 1
    ensures RowsWellFormed(rows[i := x], cartIds, productIds)
  {
    var s := rows[i := x];
    forall a, b | 0 <= a < b < |s| ensures !SameKey(s[b], s[a].cartId, s[a].productId) {
      assert !SameKey(rows[b], rows[a].cartId, rows[a].productId);
    }
    forall y | y in s ensures y.productId in productIds && y.quantity >= 1 {
      var k :| 0 <= k < |s| && s[k] == y;
      if k != i {
        assert rows[k] in rows;
      }
    }
  }

  /** A new row under a key no row has keeps the rows well formed. */
  lemma AppendKeepsRowsWellFormed(rows: seq<CartItem>, x: CartItem, cartIds: set<CartId>, productIds: set<ProductId>)
    requires RowsWellFormed(rows, cartIds, productIds)
    requires x.cartId in cartIds && x.productId in productIds && x.quantity >= 1
    requires forall i | 0 <= i < |rows| :: !SameKey(rows[i], x.cartId, x.productId)
    ensures RowsWellFormed(rows + [x], cartIds, productIds)
  {
    var s := rows + [x];
    forall a, b | 0 <= a < b < |s| ensures !SameKey(s[b], s[a].cartId, s[a].productId) {
      if b < |rows| {
        assert s[a] == rows[a] && s[b] == rows[b];
      } else {
        assert s[a] == rows[a];
      }
    }
  }

  /** Deleting a row keeps the rows well formed. */
  lemma DeleteKeepsRowsWellFormed(rows: seq<CartItem>, i: nat, cartIds: set<CartId>, productIds: set<ProductId>)
    requires RowsWellFormed(rows, cartIds, productIds) && i < |rows|
    ensures RowsWellFormed(rows[..i] + rows[i + 1..], cartIds, productIds)
  {
    DeleteUnique(rows, i);
    assert forall y | y in rows[..i] + rows[i + 1..] :: y in rows;
  }

  /** Deleting one cart's rows keeps the rows well formed. */
  lemma ClearKeepsRowsWellFormed(rows: seq<CartItem>, c: CartId, cartIds: set<CartId>, productIds: set<ProductId>)
    requires RowsWellFormed(rows, cartIds, productIds)
    ensures RowsWellFormed(WithoutCart(rows, c), cartIds, productIds)
  {
    WithoutCartUnique(rows, c);
  }
}
