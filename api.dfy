/** The in-memory store behind the pages (`ApiService` in `src/services/api.ts`):
    sales, leads, products and the inventory audit trail, changed in place by its
    methods. Generated ids and timestamps (`Math.random`, `new Date`) are passed in. */
module Api {
  import opened Wrappers
  import opened Seqs
  import opened Records

  /** The three seed products: lavender oil, a facial mask already below its
      minimum, and a massage service held as practically unlimited stock. */
  function SeedProducts(): (r: seq<Product>)
    ensures LowFlagsAgree(r)
  {
    [ Product("1", "Lavender Oil", Some("LAV-001"), 25, 45, 10, false),
      Product("2", "Facial Mask", Some("MSK-099"), 15, 3, 5, true),
      Product("3", "Deep Tissue Massage", Some("SRV-001"), 85, 999, 0, false) ]
  }

  /** Every product's low-stock flag says whether its stock is at or below its minimum. */
  predicate LowFlagsAgree(products: seq<Product>) {
    forall i :: 0 <= i < |products| ==> products[i].isLowStock == (products[i].stock <= products[i].minStock)
  }

  /** Every audit entry records a movement as it was applied: the stock after is the
      stock before moved by the quantity, and no sale took more than was in stock. */
  predicate Audited(ts: seq<InventoryTransaction>) {
    forall i :: 0 <= i < |ts| ==>
      && ts[i].stockAfter == StockAfter(ts[i].kind, ts[i].stockBefore, ts[i].quantity)
      && (ts[i].kind == Sale ==> ts[i].quantity <= ts[i].stockBefore)
  }

  function HasId(productId: string): Product -> bool {
    (p: Product) => p.id == productId
  }

  /** A movement `moveStock` is about to apply: which product, its stock before and after. */
  datatype Movement = Movement(index: nat, before: int, after: int)

  /** The checks of `moveStock`: the first product with the id, then enough stock
      for a sale. */
  function PlanMove(products: seq<Product>, productId: string, kind: MoveType, quantity: int): (r: Result<Movement, string>)
    ensures r == Err("Product not found") <==> forall i :: 0 <= i < |products| ==> products[i].id != productId
    ensures r == Err("Insufficient stock") <==>
              exists i :: 0 <= i < |products| && products[i].id == productId && kind == Sale && products[i].stock < quantity
                          && forall j :: 0 <= j < i ==> products[j].id != productId
    ensures r.Ok? ==> && r.value.index < |products|
                      && products[r.value.index].id == productId
                      && (forall j :: 0 <= j < r.value.index ==> products[j].id != productId)
                      && r.value.before == products[r.value.index].stock
                      && r.value.after == StockAfter(kind, r.value.before, quantity)
                      && (kind == Sale ==> quantity <= r.value.before)
  {
    match FindIndex(products, HasId(productId))
    case None => Err("Product not found")
    case Some(i) =>
      var before := products[i].stock;
      if kind == Sale && before < quantity then Err("Insufficient stock")
      else Ok(Movement(i, before, StockAfter(kind, before, quantity)))
  }

  /** The products after a movement: the moved product takes its new stock and a
      low-stock flag recomputed from it; everything else is untouched. */
  function Restock(products: seq<Product>, m: Movement): (r: seq<Product>)
    requires m.index < |products|
    ensures |r| == |products|
    ensures r[m.index].stock == m.after && r[m.index].isLowStock == (m.after <= products[m.index].minStock)
    ensures r[m.index] == products[m.index].(stock := r[m.index].stock, isLowStock := r[m.index].isLowStock)
    ensures forall i :: 0 <= i < |products| && i != m.index ==> r[i] == products[i]
  {
    var p := products[m.index];
    products[m.index := p.(stock := m.after, isLowStock := m.after <= p.minStock)]
  }

  /** A movement keeps every low-stock flag in agreement with its stock. */
  lemma MoveKeepsLowFlags(products: seq<Product>, productId: string, kind: MoveType, quantity: int)
    requires LowFlagsAgree(products)
    requires PlanMove(products, productId, kind, quantity).Ok?
    ensures LowFlagsAgree(Restock(products, PlanMove(products, productId, kind, quantity).value))
  {
  }

  /** A sale never takes a product below zero when its stock was not negative. */
  lemma SaleKeepsStockNonNegative(products: seq<Product>, productId: string, quantity: int)
    requires forall i :: 0 <= i < |products| ==> products[i].stock >= 0
    requires PlanMove(products, productId, Sale, quantity).Ok?
    ensures forall i :: 0 <= i < |products| ==> Restock(products, PlanMove(products, productId, Sale, quantity).value)[i].stock >= 0
  {
  }

  /** Buying a quantity and then selling the same quantity leaves the products as
      they were, when their flags agreed with their stock. */
  lemma PurchaseThenSaleRestores(products: seq<Product>, productId: string, quantity: int)
    requires LowFlagsAgree(products)
    requires PlanMove(products, productId, Purchase, quantity).Ok?
    requires quantity >= 0
    requires forall i :: 0 <= i < |products| ==> products[i].stock >= 0
    ensures PlanMove(Restock(products, PlanMove(products, productId, Purchase, quantity).value), productId, Sale, quantity).Ok?
    ensures Restock(Restock(products, PlanMove(products, productId, Purchase, quantity).value),
                    PlanMove(Restock(products, PlanMove(products, productId, Purchase, quantity).value), productId, Sale, quantity).value)
            == products
  {
    var m := PlanMove(products, productId, Purchase, quantity).value;
    var bought := Restock(products, m);
    var m2 := PlanMove(bought, productId, Sale, quantity);
    assert m2.Ok? && m2.value.index == m.index by {
      assert FindIndex(bought, HasId(productId)) == Some(m.index) by {
        forall j | 0 <= j < m.index ensures !HasId(productId)(bought[j]) {
          assert bought[j] == products[j];
        }
        assert HasId(productId)(bought[m.index]);
      }
    }
    var sold := Restock(bought, m2.value);
    assert sold[m.index] == products[m.index];
    assert sold == products;
  }

  /** The audit entry of a movement: before and after are the product's stock. */
  function MoveRecord(m: Movement, txId: string, productId: string, kind: MoveType, quantity: int, createdAt: string): InventoryTransaction {
    InventoryTransaction(txId, productId, kind, quantity, m.before, m.after, createdAt)
  }

  /** The entry a planned movement records keeps the audit trail consistent. */
  lemma MoveRecordAudited(products: seq<Product>, productId: string, kind: MoveType, quantity: int,
                          txId: string, createdAt: string, ts: seq<InventoryTransaction>)
    requires Audited(ts)
    requires PlanMove(products, productId, kind, quantity).Ok?
    ensures Audited([MoveRecord(PlanMove(products, productId, kind, quantity).value, txId, productId, kind, quantity, createdAt)] + ts)
  {
    var t := MoveRecord(PlanMove(products, productId, kind, quantity).value, txId, productId, kind, quantity, createdAt);
    var ts' := [t] + ts;
    assert forall i :: 1 <= i < |ts'| ==> ts'[i] == ts[i - 1];
  }

  /** The sum of the sale amounts (`reduce` over `amount`). */
  function TotalSales(sales: seq<DailyLog>): int {
    if sales == [] then 0 else sales[0].amount + TotalSales(sales[1..])
  }

  /** The integer part of `getDashboardStats` (the 70% profit figure is left out). */
  datatype Stats = Stats(totalSales: int, salesCount: nat, lowStockCount: nat, recentLeads: seq<Lead>)

  function DashboardStats(sales: seq<DailyLog>, leads: seq<Lead>, products: seq<Product>): (r: Stats)
    ensures r.totalSales == TotalSales(sales) && r.salesCount == |sales|
    ensures r.lowStockCount == LowStockCount(products) && r.lowStockCount <= |products|
    ensures |r.recentLeads| <= 5 && r.recentLeads <= leads
    ensures |leads| >= 5 ==> |r.recentLeads| == 5
    ensures |leads| < 5 ==> r.recentLeads == leads
    ensures (forall i :: 0 <= i < |sales| ==> sales[i].amount >= 0) ==> r.totalSales >= 0
  {
    NonNegativeTotal(sales);
    Stats(TotalSales(sales), |sales|, LowStockCount(products), Take(leads, 5))
  }

  lemma {:induction false} NonNegativeTotal(sales: seq<DailyLog>)
    ensures (forall i :: 0 <= i < |sales| ==> sales[i].amount >= 0) ==> TotalSales(sales) >= 0
  {
    if sales != [] {
      NonNegativeTotal(sales[1..]);
      if forall i :: 0 <= i < |sales| ==> sales[i].amount >= 0 {
        assert forall i :: 0 <= i < |sales[1..]| ==> sales[1..][i].amount == sales[i + 1].amount;
      }
    }
  }

  /** Recording a sale adds its amount to the total and one to the count. */
  lemma RecordedSaleStats(s: DailyLog, sales: seq<DailyLog>, leads: seq<Lead>, products: seq<Product>)
    ensures DashboardStats([s] + sales, leads, products).totalSales == s.amount + DashboardStats(sales, leads, products).totalSales
    ensures DashboardStats([s] + sales, leads, products).salesCount == DashboardStats(sales, leads, products).salesCount + 1
  {
    assert ([s] + sales)[1..] == sales;
  }

  /** A movement changes the low-stock count only through the moved product's flag. */
  lemma {:induction false} LowStockCountAfterUpdate(products: seq<Product>, i: nat, p: Product)
    requires i < |products|
    ensures LowStockCount(products[i := p]) + (if products[i].isLowStock then 1 else 0)
            == LowStockCount(products) + (if p.isLowStock then 1 else 0)
  {
    var low := (q: Product) => q.isLowStock;
    var updated := products[i := p];
    assert products == products[..i] + [products[i]] + products[i + 1..];
    assert updated == products[..i] + [p] + products[i + 1..];
    FilterAppend(products[..i] + [products[i]], products[i + 1..], low);
    FilterAppend(products[..i], [products[i]], low);
    FilterAppend(products[..i] + [p], products[i + 1..], low);
    FilterAppend(products[..i], [p], low);
  }

  /** The fields a new product may bring; id, stock and flag are always set by the store. */
  datatype ProductDraft = ProductDraft(name: string, sku: Option<string>, price: int, minStock: int)

  /** The fields a new lead may bring; id, status and creation time fall back to the
      store's own when absent. */
  datatype LeadDraft = LeadDraft(
    id: Option<string>,
    name: string,
    phone: string,
    email: Option<string>,
    branchId: string,
    source: LeadSource,
    message: string,
    status: Option<LeadStatus>,
    createdAt: Option<string>)

  /** `{ id, status: 'new', created_at, ...leadData }`: the draft's fields win. */
  function NewLead(draft: LeadDraft, id: string, createdAt: string): (r: Lead)
    ensures draft.status.None? ==> r.status == New
    ensures draft.status.Some? ==> r.status == draft.status.value
    ensures draft.id.None? ==> r.id == id
    ensures draft.id.Some? ==> r.id == draft.id.value
    ensures draft.createdAt.None? ==> r.createdAt == createdAt
    ensures draft.createdAt.Some? ==> r.createdAt == draft.createdAt.value
    ensures r.name == draft.name && r.phone == draft.phone && r.message == draft.message
    ensures r.email == draft.email && r.branchId == draft.branchId && r.source == draft.source
  {
    Lead(draft.id.GetOr(id), draft.name, draft.phone, draft.email, draft.branchId, draft.source,
         draft.message, draft.status.GetOr(New), draft.createdAt.GetOr(createdAt))
  }

  /** `updateLeadStatus` on values: the first lead with the id takes the new status. */
  function SetLeadStatus(leads: seq<Lead>, leadId: string, status: LeadStatus): (r: Result<(seq<Lead>, nat), string>)
    ensures r.Err? <==> forall i :: 0 <= i < |leads| ==> leads[i].id != leadId
    ensures r.Err? ==> r.error == "Lead not found"
    ensures r.Ok? ==> var (ls, k) := r.value;
                      && |ls| == |leads| && k < |leads|
                      && leads[k].id == leadId
                      && (forall j :: 0 <= j < k ==> leads[j].id != leadId)
                      && ls[k] == leads[k].(status := status)
                      && (forall j :: 0 <= j < |leads| && j != k ==> ls[j] == leads[j])
  {
    match FindIndex(leads, (l: Lead) => l.id == leadId)
    case None => Err("Lead not found")
    case Some(k) => Ok((leads[k := leads[k].(status := status)], k))
  }

  /** Setting a lead back to the status it had restores the list. */
  lemma SetLeadStatusUndo(leads: seq<Lead>, leadId: string, status: LeadStatus)
    requires SetLeadStatus(leads, leadId, status).Ok?
    ensures var (ls, k) := SetLeadStatus(leads, leadId, status).value;
            SetLeadStatus(ls, leadId, leads[k].status) == Ok((leads, k))
  {
    var (ls, k) := SetLeadStatus(leads, leadId, status).value;
    var back := SetLeadStatus(ls, leadId, leads[k].status);
    assert back.Ok? by {
      assert ls[k].id == leadId;
    }
    assert forall j :: 0 <= j < k ==> ls[j] == leads[j];
    assert back.value.0 == leads;
  }

  class ApiService {
    var sales: seq<DailyLog>
    var leads: seq<Lead>
    var products: seq<Product>
    var transactions: seq<InventoryTransaction>

    /** The audit trail only ever records movements as they were applied. */
    ghost predicate Valid()
      reads this
    {
      Audited(transactions)
    }

    /** The store starts from the mock sales and leads, the seed products and no transactions. */
    constructor (initialSales: seq<DailyLog>, initialLeads: seq<Lead>)
      ensures Valid()
      ensures sales == initialSales && leads == initialLeads
      ensures products == SeedProducts() && transactions == []
    {
      sales := initialSales;
      leads := initialLeads;
      products := SeedProducts();
      transactions := [];
    }

    method GetDashboardStats() returns (stats: Stats)
      ensures stats == DashboardStats(sales, leads, products)
    {
      var total := TotalSales(sales);
      stats := Stats(total, |sales|, LowStockCount(products), Take(leads, 5));
    }

    /** Appends a product with no stock, flagged as low on stock. */
    method CreateProduct(draft: ProductDraft, id: string) returns (p: Product)
      modifies this
      requires Valid()
      ensures Valid()
      ensures p == Product(id, draft.name, draft.sku, draft.price, 0, draft.minStock, true)
      ensures products == old(products) + [p]
      ensures unchanged(this`sales) && unchanged(this`leads) && unchanged(this`transactions)
      ensures draft.minStock >= 0 && LowFlagsAgree(old(products)) ==> LowFlagsAgree(products)
    {
      p := Product(id, draft.name, draft.sku, draft.price, 0, draft.minStock, true);
      products := products + [p];
    }

    /** `moveStock`: errors leave the store as it was; a movement updates the product's
        stock and low-stock flag and puts its audit entry first. */
    method MoveStock(productId: string, kind: MoveType, quantity: int, txId: string, createdAt: string)
      returns (r: Result<InventoryTransaction, string>)
      modifies this
      requires Valid()
      ensures Valid()
      ensures unchanged(this`sales) && unchanged(this`leads)
      ensures match PlanMove(old(products), productId, kind, quantity)
              case Err(e) => r == Err(e) && products == old(products) && transactions == old(transactions)
              case Ok(m) =>
                && r == Ok(MoveRecord(m, txId, productId, kind, quantity, createdAt))
                && products == Restock(old(products), m)
                && transactions == [r.value] + old(transactions)
    {
      var found := FindIndex(products, HasId(productId));
      if found.None? {
        return Err("Product not found");
      }
      var i := found.value;
      var before := products[i].stock;
      if kind == Sale && before < quantity {
        return Err("Insufficient stock");
      }
      var after := if kind == Purchase then before + quantity else before - quantity;
      products := products[i := products[i].(stock := after, isLowStock := after <= products[i].minStock)];
      var t := InventoryTransaction(txId, productId, kind, quantity, before, after, createdAt);
      MoveRecordAudited(old(products), productId, kind, quantity, txId, createdAt, transactions);
      transactions := [t] + transactions;
      r := Ok(t);
    }

    /** `createSale`: a sale of a product first sells one unit of it; when that fails
        the sale is not recorded. */
    method CreateSale(s: DailyLog, txId: string, createdAt: string) returns (r: Result<DailyLog, string>)
      modifies this
      requires Valid()
      ensures Valid()
      ensures unchanged(this`leads)
      ensures r.Err? ==> sales == old(sales) && products == old(products) && transactions == old(transactions)
      ensures r.Ok? ==> r.value == s && sales == [s] + old(sales)
      ensures (s.productId.None? || s.productId == Some("")) ==>
                r.Ok? && products == old(products) && transactions == old(transactions)
      ensures s.productId.Some? && s.productId.value != "" ==>
                match PlanMove(old(products), s.productId.value, Sale, 1)
                case Err(e) => r == Err(e)
                case Ok(m) =>
                  && r.Ok? && products == Restock(old(products), m)
                  && transactions == [MoveRecord(m, txId, s.productId.value, Sale, 1, createdAt)] + old(transactions)
    {
      if s.productId.Some? && s.productId.value != "" {
        var moved := MoveStock(s.productId.value, Sale, 1, txId, createdAt);
        if moved.Err? {
          return Err(moved.error);
        }
      }
      sales := [s] + sales;
      r := Ok(s);
    }

    /** `createLead`: the new lead goes first. */
    method CreateLead(draft: LeadDraft, id: string, createdAt: string) returns (l: Lead)
      modifies this
      requires Valid()
      ensures Valid()
      ensures l == NewLead(draft, id, createdAt)
      ensures leads == [l] + old(leads)
      ensures unchanged(this`sales) && unchanged(this`products) && unchanged(this`transactions)
    {
      l := NewLead(draft, id, createdAt);
      leads := [l] + leads;
    }

    /** `updateLeadStatus`: the first lead with the id takes the status; a copy of it
        is returned. */
    method UpdateLeadStatus(leadId: string, status: LeadStatus) returns (r: Result<Lead, string>)
      modifies this
      requires Valid()
      ensures Valid()
      ensures unchanged(this`sales) && unchanged(this`products) && unchanged(this`transactions)
      ensures match SetLeadStatus(old(leads), leadId, status)
              case Err(e) => r == Err(e) && leads == old(leads)
              case Ok((ls, k)) => leads == ls && r == Ok(ls[k])
    {
      var found := FindIndex(leads, (l: Lead) => l.id == leadId);
      if found.None? {
        return Err("Lead not found");
      }
      var k := found.value;
      leads := leads[k := leads[k].(status := status)];
      r := Ok(leads[k]);
    }
  }
}
