/** The daily sales page of `src/pages/Sales.tsx`: the search box, the products a
    sale may be made of, prefilling the form from a product, the submit guard and
    the CSV export. */
module SalesPage {
  import opened Wrappers
  import opened Seqs
  import opened Text
  import opened Records

  /** The search predicate: the lower-cased client name or service includes the
      lower-cased term. */
  predicate Matches(s: DailyLog, term: string) {
    Contains(Lower(s.clientName), Lower(term)) || Contains(Lower(s.serviceRendered), Lower(term))
  }

  function MatchesTerm(term: string): DailyLog -> bool {
    (s: DailyLog) => Matches(s, term)
  }

  /** `filteredSales`: the sales matching the term, in list order. */
  function FilteredSales(sales: seq<DailyLog>, term: string): (r: seq<DailyLog>)
    ensures forall i :: 0 <= i < |r| ==> Matches(r[i], term) && r[i] in sales
    ensures forall i :: 0 <= i < |sales| && Matches(sales[i], term) ==> sales[i] in r
    ensures multiset(r) <= multiset(sales)
  {
    Filter(sales, MatchesTerm(term))
  }

  /** The search works sale by sale, so it keeps the order of the list. */
  lemma FilteredSalesAppend(a: seq<DailyLog>, b: seq<DailyLog>, term: string)
    ensures FilteredSales(a + b, term) == FilteredSales(a, term) + FilteredSales(b, term)
  {
    FilterAppend(a, b, MatchesTerm(term));
  }

  /** An empty search box shows every sale. */
  lemma FilteredSalesEmptyTerm(sales: seq<DailyLog>)
    ensures FilteredSales(sales, "") == sales
  {
    forall i | 0 <= i < |sales| ensures MatchesTerm("")(sales[i]) {
      ContainsEmpty(Lower(sales[i].clientName));
    }
    FilterKeepsAll(sales, MatchesTerm(""));
  }

  /** The search ignores the case of the term. */
  lemma FilteredSalesIgnoresCase(sales: seq<DailyLog>, term: string)
    ensures FilteredSales(sales, Lower(term)) == FilteredSales(sales, term)
  {
    LowerIdempotent(term);
    FilterCongruent(sales, MatchesTerm(Lower(term)), MatchesTerm(term));
  }

  predicate InStock(p: Product) {
    p.stock > 0
  }

  /** `availableProducts`: the products with stock left, in order. */
  function AvailableProducts(products: seq<Product>): (r: seq<Product>)
    ensures forall i :: 0 <= i < |r| ==> r[i].stock > 0 && r[i] in products
    ensures forall i :: 0 <= i < |products| && products[i].stock > 0 ==> products[i] in r
    ensures multiset(r) <= multiset(products)
  {
    Filter(products, InStock)
  }

  /** The products are checked one by one, so their order is kept. */
  lemma AvailableProductsAppend(a: seq<Product>, b: seq<Product>)
    ensures AvailableProducts(a + b) == AvailableProducts(a) + AvailableProducts(b)
  {
    FilterAppend(a, b, InStock);
  }

  /** With stock everywhere every product is offered, as listed; with none, none is. */
  lemma AvailableProductsAllOrNone(products: seq<Product>)
    ensures (forall i :: 0 <= i < |products| ==> products[i].stock > 0) ==> AvailableProducts(products) == products
    ensures (forall i :: 0 <= i < |products| ==> products[i].stock <= 0) ==> AvailableProducts(products) == []
  {
    FilterLengthIff(products, InStock);
    if forall i :: 0 <= i < |products| ==> products[i].stock > 0 {
      FilterKeepsAll(products, InStock);
    }
  }

  /** The new-sale form; every field is the text of its input. */
  datatype SaleForm = SaleForm(
    date: string,
    branchId: string,
    productId: string,
    clientName: string,
    serviceRendered: string,
    amount: string,
    paymentMethod: string)

  /** `handleProductSelect`: choosing a known product fills in its id, its name as
      the service and its price as the amount; an unknown id leaves the form alone. */
  function HandleProductSelect(form: SaleForm, products: seq<Product>, productId: string): (r: SaleForm)
    ensures (forall i :: 0 <= i < |products| ==> products[i].id != productId) ==> r == form
    ensures (exists i :: 0 <= i < |products| && products[i].id == productId) ==>
              exists i :: 0 <= i < |products| && products[i].id == productId
                && (forall j :: 0 <= j < i ==> products[j].id != productId)
                && r == form.(productId := productId, serviceRendered := products[i].name, amount := IntToString(products[i].price))
  {
    match Find(products, (p: Product) => p.id == productId)
    case None => form
    case Some(p) => form.(productId := p.id, serviceRendered := p.name, amount := IntToString(p.price))
  }

  /** The amount a product selection writes reads back as the product's price. */
  lemma SelectedAmountParses(form: SaleForm, products: seq<Product>, productId: string)
    requires exists i :: 0 <= i < |products| && products[i].id == productId
    ensures var r := HandleProductSelect(form, products, productId);
            exists i :: 0 <= i < |products| && products[i].id == productId && ParseInteger(r.amount) == Some(products[i].price)
  {
    var r := HandleProductSelect(form, products, productId);
    var i :| 0 <= i < |products| && products[i].id == productId
             && r == form.(productId := productId, serviceRendered := products[i].name, amount := IntToString(products[i].price));
    ParseIntToString(products[i].price);
  }

  /** "Confirmar Venta" is disabled until a product is chosen. */
  predicate SubmitDisabled(form: SaleForm) {
    form.productId == ""
  }

  /** Choosing a known product enables the submit button, provided product ids are
      not empty. */
  lemma SelectingEnablesSubmit(form: SaleForm, products: seq<Product>, productId: string)
    requires productId != ""
    requires exists i :: 0 <= i < |products| && products[i].id == productId
    ensures !SubmitDisabled(HandleProductSelect(form, products, productId))
  {
  }

  // ---------------------------------------------------------------- CSV export

  /** The labels of `EXCEL_FIELDS.DAILY_LOG`, in declaration order. */
  function DailyLogLabels(): (r: seq<string>)
    ensures |r| == 8
    ensures forall k :: 0 <= k < |r| ==> r[k] != "" && ',' !in r[k] && '\n' !in r[k]
  {
    ["Fecha", "Vendedora", "Sucursal", "Cliente", "Servicio/Producto", "Monto", "Metodo Pago", "Notas"]
  }

  /** The header line: the labels joined by commas. */
  function CsvHeader(): (r: string)
    ensures Split(r, ',') == DailyLogLabels()
    ensures '\n' !in r
  {
    SplitJoin(DailyLogLabels(), ',');
    JoinKeepsOut(DailyLogLabels(), ',', '\n');
    Join(DailyLogLabels(), ',')
  }

  /** Joining never introduces a character other than the separator. */
  lemma {:induction false} JoinKeepsOut(parts: seq<string>, sep: char, c: char)
    requires c != sep
    requires forall k :: 0 <= k < |parts| ==> c !in parts[k]
    ensures c !in Join(parts, sep)
  {
    if |parts| > 1 {
      JoinKeepsOut(parts[1..], sep, c);
    }
  }

  function HasBranchId(id: string): Branch -> bool {
    (b: Branch) => b.id == id
  }

  /** The branch column: the name of the first branch with that id when that name
      is not empty, else the id. */
  function BranchCell(s: DailyLog, branches: seq<Branch>): (r: string)
    ensures r == s.branchId || exists k :: 0 <= k < |branches| && branches[k].id == s.branchId && r == branches[k].name && r != ""
    ensures (forall k :: 0 <= k < |branches| ==> branches[k].id != s.branchId) ==> r == s.branchId
    ensures forall k :: 0 <= k < |branches| && branches[k].id == s.branchId
                        && (forall j :: 0 <= j < k ==> branches[j].id != s.branchId)
                        ==> r == (if branches[k].name != "" then branches[k].name else s.branchId)
    ensures s.branchId != "" ==> r != ""
  {
    match FindIndex(branches, HasBranchId(s.branchId))
    case Some(k) => if branches[k].name != "" then branches[k].name else s.branchId
    case None => s.branchId
  }

  /** The first branch with the id decides: branches listed after it do not matter. */
  lemma BranchCellFirstMatchWins(s: DailyLog, a: seq<Branch>, b: seq<Branch>)
    requires exists k :: 0 <= k < |a| && a[k].id == s.branchId
    ensures BranchCell(s, a + b) == BranchCell(s, a)
  {
    var k := FindIndex(a, HasBranchId(s.branchId)).value;
    var ab := a + b;
    assert forall j :: 0 <= j <= k ==> ab[j] == a[j];
    assert forall j :: 0 <= j < k ==> ab[j].id != s.branchId;
  }

  /** Branches without the id, listed before the others, do not matter. */
  lemma {:induction false} BranchCellSkipsOthers(s: DailyLog, a: seq<Branch>, b: seq<Branch>)
    requires forall k :: 0 <= k < |a| ==> a[k].id != s.branchId
    ensures BranchCell(s, a + b) == BranchCell(s, b)
  {
    var ab := a + b;
    assert forall j :: 0 <= j < |a| ==> ab[j].id != s.branchId;
    assert forall j :: 0 <= j < |b| ==> ab[|a| + j] == b[j];
    match FindIndex(b, HasBranchId(s.branchId))
    case None =>
      forall j | 0 <= j < |ab| ensures ab[j].id != s.branchId {
        if j >= |a| {
          assert ab[j] == b[j - |a|];
        }
      }
    case Some(k) =>
      forall j | 0 <= j < |a| + k ensures ab[j].id != s.branchId {
        if j >= |a| {
          assert ab[j] == b[j - |a|];
        }
      }
  }

  /** The eight cells of a sale's row, in header order; missing notes are blank. */
  function RowCells(s: DailyLog, branches: seq<Branch>): (r: seq<string>)
    ensures |r| == |DailyLogLabels()|
  {
    [s.date, s.sellerId, BranchCell(s, branches), s.clientName, s.serviceRendered,
     IntToString(s.amount), s.paymentMethod, s.notes.GetOr("")]
  }

  function CsvRow(s: DailyLog, branches: seq<Branch>): string {
    Join(RowCells(s, branches), ',')
  }

  /** A row reads back as its eight cells when no cell holds a comma; the amount
      cell reads back as the amount. */
  lemma CsvRowFields(s: DailyLog, branches: seq<Branch>)
    requires forall k :: 0 <= k < 8 ==> ',' !in RowCells(s, branches)[k]
    ensures |Split(CsvRow(s, branches), ',')| == |DailyLogLabels()|
    ensures Split(CsvRow(s, branches), ',') == RowCells(s, branches)
    ensures ParseInteger(Split(CsvRow(s, branches), ',')[5]) == Some(s.amount)
  {
    SplitJoin(RowCells(s, branches), ',');
    ParseIntToString(s.amount);
  }

  function CsvRows(sales: seq<DailyLog>, branches: seq<Branch>): (r: seq<string>)
    ensures |r| == |sales|
    ensures forall i :: 0 <= i < |sales| ==> r[i] == CsvRow(sales[i], branches)
  {
    seq(|sales|, i requires 0 <= i < |sales| => CsvRow(sales[i], branches))
  }

  const CsvPrefix: string := "data:text/csv;charset=utf-8,"

  /** A concatenation splits back into its two parts. */
  lemma ConcatParts(a: string, b: string)
    ensures |a + b| == |a| + |b|
    ensures (a + b)[..|a|] == a && (a + b)[|a|..] == b
  {
  }

  /** The text after the data-URI prefix: the header, a line break and the rows
      joined by line breaks. */
  function CsvBody(sales: seq<DailyLog>, branches: seq<Branch>): string {
    CsvHeader() + "\n" + Join(CsvRows(sales, branches), '\n')
  }

  /** The data URI of the export: the prefix followed by the header and the rows. */
  function CsvContent(sales: seq<DailyLog>, branches: seq<Branch>): (r: string)
    ensures |r| > |CsvPrefix| && r[..|CsvPrefix|] == CsvPrefix
    ensures r[|CsvPrefix|..] == CsvBody(sales, branches)
  {
    ConcatParts(CsvPrefix, CsvBody(sales, branches));
    CsvPrefix + CsvBody(sales, branches)
  }

  /** No row holds a line break when no cell does. */
  lemma RowsKeepLines(sales: seq<DailyLog>, branches: seq<Branch>)
    requires forall i, k :: 0 <= i < |sales| && 0 <= k < 8 ==> '\n' !in RowCells(sales[i], branches)[k]
    ensures forall i :: 0 <= i < |sales| ==> '\n' !in CsvRows(sales, branches)[i]
  {
    forall i | 0 <= i < |sales| ensures '\n' !in CsvRows(sales, branches)[i] {
      JoinKeepsOut(RowCells(sales[i], branches), ',', '\n');
    }
  }

  /** A line followed by a line break and lines joined by line breaks reads back
      as those lines (an empty last line when there are none). */
  lemma LinesOf(header: string, rows: seq<string>)
    requires '\n' !in header
    requires forall i :: 0 <= i < |rows| ==> '\n' !in rows[i]
    ensures Split(header + "\n" + Join(rows, '\n'), '\n') == [header] + (if rows == [] then [""] else rows)
  {
    assert header + "\n" + Join(rows, '\n') == header + ['\n'] + Join(rows, '\n');
    SplitAfterField(header, Join(rows, '\n'), '\n');
    if rows != [] {
      SplitJoin(rows, '\n');
    }
  }

  /** Read line by line, the export is the header and then one line per sale in
      list order (a single empty line when there are no sales), provided no cell
      holds a line break. */
  lemma CsvLines(sales: seq<DailyLog>, branches: seq<Branch>)
    requires forall i, k :: 0 <= i < |sales| && 0 <= k < 8 ==> '\n' !in RowCells(sales[i], branches)[k]
    ensures Split(CsvContent(sales, branches)[|CsvPrefix|..], '\n')
            == [CsvHeader()] + (if sales == [] then [""] else CsvRows(sales, branches))
  {
    RowsKeepLines(sales, branches);
    LinesOf(CsvHeader(), CsvRows(sales, branches));
  }
}
