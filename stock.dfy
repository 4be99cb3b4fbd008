/** Product stock as order creation takes it and order cancellation gives it back. */
module Stock {
  import opened Tables

  /** The total quantity of product p across the items. */
  function QtyOf(items: seq<OrderItem>, p: ProductId): int {
    if items == [] then 0
    else QtyOf(items[..|items| - 1], p) + (if items[|items| - 1].productId == p then items[|items| - 1].quantity else 0)
  }

  /** Every item names an existing product whose stock covers the item's quantity. */
  predicate StockCovers(products: map<ProductId, Product>, items: seq<OrderItem>) {
    forall i | 0 <= i < |items| :: items[i].productId in products && items[i].quantity <= products[items[i].productId].stock
  }

  /** The product table after every item's quantity is taken off its product's stock. */
  function Destocked(products: map<ProductId, Product>, items: seq<OrderItem>): map<ProductId, Product> {
    map p | p in products :: products[p].(stock := products[p].stock - QtyOf(items, p))
  }

  /** The product table after every item's quantity is put back on its product's stock. */
  function Restocked(products: map<ProductId, Product>, items: seq<OrderItem>): map<ProductId, Product> {
    map p | p in products :: products[p].(stock := products[p].stock + QtyOf(items, p))
  }

  /** Items of positive quantity add up to a non-negative quantity of every product. */
  lemma {:induction false} QtyOfNonNegative(items: seq<OrderItem>, p: ProductId)
    requires forall it | it in items :: it.quantity >= 1
    ensures QtyOf(items, p) >= 0
  {
    if items != [] {
      assert forall it | it in items[..|items| - 1] :: it in items;
      QtyOfNonNegative(items[..|items| - 1], p);
    }
  }

  /** With distinct products, the quantity of p is that of its one item, or 0 without one. */
  lemma {:induction false} QtyOfDistinct(items: seq<OrderItem>, p: ProductId)
    requires DistinctProducts(items)
    ensures forall i | 0 <= i < |items| && items[i].productId == p :: QtyOf(items, p) == items[i].quantity
    ensures (forall i | 0 <= i < |items| :: items[i].productId != p) ==> QtyOf(items, p) == 0
  {
    if items != [] {
      var n := |items| - 1;
      var front := items[..n];
      assert DistinctProducts(front) by {
        forall i, j | 0 <= i < j < |front| ensures front[i].productId != front[j].productId {
          assert front[i] == items[i] && front[j] == items[j];
        }
      }
      QtyOfDistinct(front, p);
      if items[n].productId == p {
        forall i | 0 <= i < n ensures front[i].productId != p {
          assert front[i] == items[i];
        }
      } else {
        forall i | 0 <= i < n && items[i].productId == p ensures QtyOf(items, p) == items[i].quantity {
          assert front[i] == items[i];
        }
      }
    }
  }

  /** Taking one more item off the stock is one more single-product update. */
  lemma DestockStep(products: map<ProductId, Product>, items: seq<OrderItem>, k: nat)
    requires k < |items| && items[k].productId in products
    ensures var p := items[k].productId; var before := Destocked(products, items[..k]);
      Destocked(products, items[..k + 1]) == before[p := before[p].(stock := before[p].stock - items[k].quantity)]
  {
    assert items[..k + 1][..k] == items[..k];
  }

  /** Putting one more item back on the stock is one more single-product update. */
  lemma RestockStep(products: map<ProductId, Product>, items: seq<OrderItem>, k: nat)
    requires k < |items| && items[k].productId in products
    ensures var p := items[k].productId; var before := Restocked(products, items[..k]);
      Restocked(products, items[..k + 1]) == before[p := before[p].(stock := before[p].stock + items[k].quantity)]
  {
    assert items[..k + 1][..k] == items[..k];
  }

  /** Giving back what was taken for the same items restores every product exactly. */
  lemma RestockUndoesDestock(products: map<ProductId, Product>, items: seq<OrderItem>)
    ensures Restocked(Destocked(products, items), items) == products
  {
  }

  /** When stock covers a list of items that names each product once, taking
      the items leaves no stock negative. */
  lemma DestockedNonNegative(products: map<ProductId, Product>, items: seq<OrderItem>)
    requires forall p | p in products :: products[p].stock >= 0
    requires DistinctProducts(items) && StockCovers(products, items)
    ensures forall p | p in Destocked(products, items) :: Destocked(products, items)[p].stock >= 0
  {
    forall p | p in products ensures products[p].stock - QtyOf(items, p) >= 0 {
      QtyOfDistinct(items, p);
    }
  }

  /** Stock moves never change a price. */
  lemma StockMovesKeepPrices(products: map<ProductId, Product>, items: seq<OrderItem>)
    ensures Prices(Destocked(products, items)) == Prices(products)
    ensures Prices(Restocked(products, items)) == Prices(products)
  {
  }

  /** Cancelling moves each product named by an item up by exactly that item's
      quantity, and leaves every other product as it was. */
  lemma RestockedPerItem(products: map<ProductId, Product>, items: seq<OrderItem>)
    requires DistinctProducts(items)
    ensures Restocked(products, items).Keys == products.Keys
    ensures forall i | 0 <= i < |items| && items[i].productId in products ::
      Restocked(products, items)[items[i].productId]
      == products[items[i].productId].(stock := products[items[i].productId].stock + items[i].quantity)
    ensures forall p | p in products && (forall i | 0 <= i < |items| :: items[i].productId != p) ::
      Restocked(products, items)[p] == products[p]
  {
    forall p | p in products {
      QtyOfDistinct(items, p);
    }
  }

  /** Ordering moves each product named by an item down by exactly that item's
      quantity, and leaves every other product as it was. */
  lemma DestockedPerItem(products: map<ProductId, Product>, items: seq<OrderItem>)
    requires DistinctProducts(items)
    ensures Destocked(products, items).Keys == products.Keys
    ensures forall i | 0 <= i < |items| && items[i].productId in products ::
      Destocked(products, items)[items[i].productId]
      == products[items[i].productId].(stock := products[items[i].productId].stock - items[i].quantity)
    ensures forall p | p in products && (forall i | 0 <= i < |items| :: items[i].productId != p) ::
      Destocked(products, items)[p] == products[p]
  {
    forall p | p in products {
      QtyOfDistinct(items, p);
    }
  }
}
