/** The record shapes of `src/types.ts` as the code reads them, and the two
    inventory quantities that both the mock store and the stock page compute. */
module Records {
  import opened Wrappers
  import opened Seqs

  datatype LeadStatus = New | Contacted | Sold | Discarded
  datatype LeadSource = WhatsApp | Call | Web | OtherSource

  datatype Lead = Lead(
    id: string,
    name: string,
    phone: string,
    email: Option<string>,
    branchId: string,
    source: LeadSource,
    message: string,
    status: LeadStatus,
    createdAt: string)

  /** A product. The code reads `price` (types.ts declares `sales_price`);
      money and stock are whole numbers here. */
  datatype Product = Product(
    id: string,
    name: string,
    sku: Option<string>,
    price: int,
    stock: int,
    minStock: int,
    isLowStock: bool)

  datatype MoveType = Purchase | Sale

  datatype InventoryTransaction = InventoryTransaction(
    id: string,
    productId: string,
    kind: MoveType,
    quantity: int,
    stockBefore: int,
    stockAfter: int,
    createdAt: string)

  /** A sale as logged by the sales page (`DailyLog`). */
  datatype DailyLog = DailyLog(
    id: string,
    date: string,
    sellerId: string,
    branchId: string,
    productId: Option<string>,
    clientName: string,
    serviceRendered: string,
    amount: int,
    paymentMethod: string,
    notes: Option<string>,
    createdAt: string)

  datatype AppointmentStatus = Scheduled | Confirmed | Completed | Cancelled

  datatype Appointment = Appointment(
    id: string,
    branchId: string,
    clientName: string,
    date: string,
    time: string,
    status: AppointmentStatus,
    serviceType: string,
    notes: Option<string>)

  datatype Branch = Branch(id: string, name: string, code: string, address: string)

  /** The stock a movement leaves: a purchase adds `quantity`, a sale takes it away.
      The stock store applies it and the movement dialog previews it. */
  function StockAfter(kind: MoveType, stock: int, quantity: int): int {
    match kind
    case Purchase => stock + quantity
    case Sale => stock - quantity
  }

  /** The number of products flagged low on stock, as the dashboard statistics and
      the stock page's "Stock Bajo" card report it. */
  function LowStockCount(products: seq<Product>): (r: nat)
    ensures r <= |products|
    ensures r == 0 <==> forall i :: 0 <= i < |products| ==> !products[i].isLowStock
    ensures r == |products| <==> forall i :: 0 <= i < |products| ==> products[i].isLowStock
  {
    FilterLengthIff(products, (p: Product) => p.isLowStock);
    |Filter(products, (p: Product) => p.isLowStock)|
  }

  /** The count over two lists is the sum of their counts. */
  lemma LowStockCountAppend(a: seq<Product>, b: seq<Product>)
    ensures LowStockCount(a + b) == LowStockCount(a) + LowStockCount(b)
  {
    FilterAppend(a, b, (p: Product) => p.isLowStock);
  }
}
