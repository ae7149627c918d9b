/** The inventory page of `src/pages/Stocks.tsx`: the name/SKU search, the summary
    cards, the red stock badge and the stock-movement dialog. */
module StocksPage {
  import opened Wrappers
  import opened Seqs
  import opened Text
  import opened Records
  import Api

  /** The search predicate: the lower-cased name includes the lower-cased term, or
      the product has a SKU whose lower-cased form does. */
  predicate ProductMatches(p: Product, term: string) {
    Contains(Lower(p.name), Lower(term)) || (p.sku.Some? && Contains(Lower(p.sku.value), Lower(term)))
  }

  function MatchesTerm(term: string): Product -> bool {
    (p: Product) => ProductMatches(p, term)
  }

  /** `filtered`: the products matching the term, in list order. */
  function FilteredProducts(products: seq<Product>, term: string): (r: seq<Product>)
    ensures forall i :: 0 <= i < |r| ==> ProductMatches(r[i], term) && r[i] in products
    ensures forall i :: 0 <= i < |products| && ProductMatches(products[i], term) ==> products[i] in r
    ensures multiset(r) <= multiset(products)
  {
    Filter(products, MatchesTerm(term))
  }

  /** The search works product by product, so it keeps the order of the list. */
  lemma FilteredProductsAppend(a: seq<Product>, b: seq<Product>, term: string)
    ensures FilteredProducts(a + b, term) == FilteredProducts(a, term) + FilteredProducts(b, term)
  {
    FilterAppend(a, b, MatchesTerm(term));
  }

  /** An empty search box lists every product. */
  lemma FilteredProductsEmptyTerm(products: seq<Product>)
    ensures FilteredProducts(products, "") == products
  {
    forall i | 0 <= i < |products| ensures MatchesTerm("")(products[i]) {
      ContainsEmpty(Lower(products[i].name));
    }
    FilterKeepsAll(products, MatchesTerm(""));
  }

  /** A product without a SKU is found by its name only. */
  lemma NoSkuSearchesName(p: Product, term: string)
    requires p.sku.None?
    ensures ProductMatches(p, term) <==> Contains(Lower(p.name), Lower(term))
  {
  }

  /** The search ignores the case of the term. */
  lemma FilteredProductsIgnoresCase(products: seq<Product>, term: string)
    ensures FilteredProducts(products, Lower(term)) == FilteredProducts(products, term)
  {
    LowerIdempotent(term);
    FilterCongruent(products, MatchesTerm(Lower(term)), MatchesTerm(term));
  }

  /** The red badge: stock at or below the minimum. */
  predicate StockHighlighted(p: Product) {
    p.stock <= p.minStock
  }

  /** Where flags agree with stock, the "Stock Bajo" card counts exactly the
      products whose badge is red. */
  lemma LowStockCardCountsRedBadges(products: seq<Product>)
    requires Api.LowFlagsAgree(products)
    ensures LowStockCount(products) == |Filter(products, (p: Product) => StockHighlighted(p))|
  {
    FilterCongruent(products, (p: Product) => p.isLowStock, (p: Product) => StockHighlighted(p));
  }

  /** "Valor Inventario": the sum of price times stock (`reduce` from the left). */
  function InventoryValue(products: seq<Product>): int {
    if products == [] then 0
    else InventoryValue(products[..|products| - 1]) + products[|products| - 1].price * products[|products| - 1].stock
  }

  lemma {:induction false} InventoryValueAppend(a: seq<Product>, b: seq<Product>)
    ensures InventoryValue(a + b) == InventoryValue(a) + InventoryValue(b)
  {
    if b != [] {
      InventoryValueAppend(a, b[..|b| - 1]);
      assert (a + b)[..|a + b| - 1] == a + b[..|b| - 1];
    } else {
      assert a + b == a;
    }
  }

  /** With no negative prices or stock, the inventory value is not negative. */
  lemma {:induction false} InventoryValueNonNegative(products: seq<Product>)
    requires forall i :: 0 <= i < |products| ==> products[i].price >= 0 && products[i].stock >= 0
    ensures InventoryValue(products) >= 0
  {
    if products != [] {
      InventoryValueNonNegative(products[..|products| - 1]);
    }
  }

  function ItemValue(p: Product): int {
    p.price * p.stock
  }

  lemma InventoryValueSingle(p: Product)
    ensures InventoryValue([p]) == ItemValue(p)
  {
    assert [p][..0] == [];
  }

  /** Replacing one product changes the value by the difference of the two items. */
  lemma InventoryValueUpdate(products: seq<Product>, i: nat, p: Product)
    requires i < |products|
    ensures InventoryValue(products[i := p]) == InventoryValue(products) - ItemValue(products[i]) + ItemValue(p)
  {
    var pre := products[..i];
    var post := products[i + 1..];
    assert products == pre + [products[i]] + post;
    assert products[i := p] == pre + [p] + post;
    InventoryValueAppend(pre + [products[i]], post);
    InventoryValueAppend(pre, [products[i]]);
    InventoryValueAppend(pre + [p], post);
    InventoryValueAppend(pre, [p]);
    InventoryValueSingle(products[i]);
    InventoryValueSingle(p);
  }

  /** A stock movement changes the inventory value by the product's price times the
      change in its stock. */
  lemma MoveChangesValue(products: seq<Product>, productId: string, kind: MoveType, quantity: int)
    requires Api.PlanMove(products, productId, kind, quantity).Ok?
    ensures var m := Api.PlanMove(products, productId, kind, quantity).value;
            InventoryValue(Api.Restock(products, m))
            == InventoryValue(products) + products[m.index].price * (m.after - m.before)
  {
    var m := Api.PlanMove(products, productId, kind, quantity).value;
    var orig := products[m.index];
    var moved := Api.Restock(products, m)[m.index];
    assert Api.Restock(products, m) == products[m.index := moved];
    InventoryValueUpdate(products, m.index, moved);
    assert ItemValue(moved) - ItemValue(orig) == orig.price * (m.after - m.before) by {
      assert moved.price == orig.price && moved.stock == m.after && orig.stock == m.before;
      MulSub(orig.price, m.after, m.before);
    }
  }

  lemma MulSub(a: int, b: int, c: int)
    ensures a * b - a * c == a * (b - c)
  {
  }

  /** "Stock Resultante": the stock the dialog previews for the movement. */
  function PreviewStock(kind: MoveType, stock: int, quantity: int): (r: int)
    ensures kind == Purchase ==> r - stock == quantity
    ensures kind == Sale ==> stock - r == quantity
  {
    StockAfter(kind, stock, quantity)
  }

  /** The preview is the stock the store sets when the movement goes through. */
  lemma PreviewMatchesMove(products: seq<Product>, selected: Product, kind: MoveType, quantity: int)
    requires Api.PlanMove(products, selected.id, kind, quantity).Ok?
    requires products[Api.PlanMove(products, selected.id, kind, quantity).value.index].stock == selected.stock
    ensures var m := Api.PlanMove(products, selected.id, kind, quantity).value;
            Api.Restock(products, m)[m.index].stock == PreviewStock(kind, selected.stock, quantity)
  {
  }

  /** The request `handleStockMove` sends: none without a selected product,
      otherwise the selected product's id, the movement type and the quantity. */
  datatype MoveRequest = MoveRequest(productId: string, kind: MoveType, quantity: int)

  function HandleStockMove(selected: Option<Product>, kind: MoveType, quantity: int): (r: Option<MoveRequest>)
    ensures r.None? <==> selected.None?
    ensures r.Some? ==> r.value == MoveRequest(selected.value.id, kind, quantity)
  {
    match selected
    case None => None
    case Some(p) => Some(MoveRequest(p.id, kind, quantity))
  }
}
