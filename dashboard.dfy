/** The dashboard's reporting pipeline (`src/pages/Dashboard.tsx`): payload and
    date normalisation, the cancellation test, the month-to-date filter, and the
    two chart aggregations (sales per day of the month, sales per seller). */
module Dashboard {
  import opened Wrappers
  import opened Seqs
  import opened Text
  import Records

  // ---------------------------------------------------------------- inputs

  /** A fetched payload: an array, an object (with or without a `data` key), or
      any other value (`null`, a number, a string). */
  datatype Payload<T> = Array(items: seq<T>) | Object(data: Option<Payload<T>>) | Scalar

  /** The seller object a sale may embed. */
  datatype SellerRef = SellerRef(id: Option<string>, name: Option<string>)

  /** A sale as the dashboard reads it: loosely typed, every key optional.
      `branchId` and `sellerId` hold the `String(...)` form of the value. */
  datatype Sale = Sale(
    id: int,
    date: Option<string>,
    branchId: Option<string>,
    sellerId: Option<string>,
    sellerName: Option<string>,
    seller: Option<SellerRef>,
    deletedAtSnake: Option<string>,
    deletedAtCamel: Option<string>,
    isDeletedSnake: Option<bool>,
    isDeletedCamel: Option<bool>,
    status: Option<string>)

  /** A local calendar date as `Date` reports it (year, month, day of month). */
  datatype CalendarDate = CalendarDate(year: int, month: int, day: int)

  datatype DayBucket = DayBucket(day: string, count: nat)
  datatype SellerCount = SellerCount(name: string, count: nat)

  /** JavaScript truthiness of an optional string: present and non-empty. */
  predicate Truthy(s: Option<string>) {
    s.Some? && s.value != ""
  }

  // ---------------------------------------------------------------- normalisation

  /** `normalizeArray`: the payload if it is an array, else its `data` if that is an
      array, else the empty list. */
  function NormalizeArray<T>(payload: Payload<T>): seq<T> {
    match payload
    case Array(items) => items
    case Object(Some(Array(items))) => items
    case _ => []
  }

  /** The three cases of `normalizeArray`, and that re-normalising its output as an
      array changes nothing. */
  lemma NormalizeArrayCases<T>(payload: Payload<T>)
    ensures payload.Array? ==> NormalizeArray(payload) == payload.items
    ensures payload.Object? && payload.data.Some? && payload.data.value.Array?
            ==> NormalizeArray(payload) == payload.data.value.items
    ensures !payload.Array? && !(payload.Object? && payload.data.Some? && payload.data.value.Array?)
            ==> NormalizeArray(payload) == []
    ensures NormalizeArray(Array(NormalizeArray(payload))) == NormalizeArray(payload)
  {
  }

  /** `normalizeDate`: "" for a missing or empty value, else at most the first ten
      characters (the `YYYY-MM-DD` part of a timestamp). */
  function NormalizeDate(d: Option<string>): (r: string)
    ensures |r| <= 10 && r <= d.GetOr("")
    ensures |d.GetOr("")| <= 10 ==> r == d.GetOr("")
    ensures |d.GetOr("")| >= 10 ==> r == d.GetOr("")[..10]
    ensures r == "" <==> d.GetOr("") == ""
  {
    var s := d.GetOr("");
    if s == "" then "" else if |s| >= 10 then s[..10] else s
  }

  /** Normalising a normalised date changes nothing. */
  lemma NormalizeDateIdempotent(d: Option<string>)
    ensures NormalizeDate(Some(NormalizeDate(d))) == NormalizeDate(d)
  {
  }

  /** `isSaleCancelled`: soft-deleted under any of the four keys, or a status that
      lower-cases to "cancelled" or "canceled". */
  predicate IsSaleCancelled(s: Sale) {
    Truthy(s.deletedAtSnake) || Truthy(s.deletedAtCamel)
    || s.isDeletedSnake == Some(true) || s.isDeletedCamel == Some(true)
    || Lower(s.status.GetOr("")) == "cancelled" || Lower(s.status.GetOr("")) == "canceled"
  }

  /** No deletion marker is set. */
  predicate NotDeleted(s: Sale) {
    !Truthy(s.deletedAtSnake) && !Truthy(s.deletedAtCamel)
    && s.isDeletedSnake != Some(true) && s.isDeletedCamel != Some(true)
  }

  /** The status test ignores letter case: every spelling of "cancelled" or
      "canceled", in any mix of cases, marks a sale cancelled; two statuses that
      differ only in case get the same verdict; and a sale with no deletion marker
      and a status that is neither word in any case is active. */
  lemma CancelledIgnoresCase(s: Sale, t: string, t': string)
    ensures (|t| == 9 && forall i :: 0 <= i < 9 ==> LowerChar(t[i]) == "cancelled"[i])
            ==> IsSaleCancelled(s.(status := Some(t)))
    ensures (|t| == 8 && forall i :: 0 <= i < 8 ==> LowerChar(t[i]) == "canceled"[i])
            ==> IsSaleCancelled(s.(status := Some(t)))
    ensures Lower(t) == Lower(t') ==> (IsSaleCancelled(s.(status := Some(t))) <==> IsSaleCancelled(s.(status := Some(t'))))
    ensures NotDeleted(s) && Lower(t) != "cancelled" && Lower(t) != "canceled"
            ==> !IsSaleCancelled(s.(status := Some(t)))
    ensures NotDeleted(s) && s.status.None? ==> !IsSaleCancelled(s)
  {
    if |t| == 9 && forall i :: 0 <= i < 9 ==> LowerChar(t[i]) == "cancelled"[i] {
      assert Lower(t) == "cancelled";
    }
    if |t| == 8 && forall i :: 0 <= i < 8 ==> LowerChar(t[i]) == "canceled"[i] {
      assert Lower(t) == "canceled";
    }
    assert Lower("") == "";
  }

  // ---------------------------------------------------------------- month to date

  /** `!(d < startStr || d > endStr)` on date strings. */
  predicate InWindow(d: string, startStr: string, endStr: string) {
    !(LexLess(d, startStr) || LexLess(endStr, d))
  }

  /** The window is inclusive at both ends. */
  lemma InWindowInclusive(d: string, startStr: string, endStr: string)
    ensures InWindow(d, startStr, endStr)
            <==> (d == startStr || LexLess(startStr, d)) && (d == endStr || LexLess(d, endStr))
  {
    LexTrichotomy(d, startStr);
    LexTrichotomy(d, endStr);
  }

  predicate BranchMatches(s: Sale, selectedBranch: string) {
    selectedBranch == "all" || s.branchId.GetOr("") == selectedBranch
  }

  /** The test `mtdSales` applies to one sale. */
  predicate InMonthToDate(s: Sale, startStr: string, endStr: string, selectedBranch: string) {
    var d := NormalizeDate(s.date);
    d != "" && InWindow(d, startStr, endStr) && BranchMatches(s, selectedBranch) && !IsSaleCancelled(s)
  }

  /** `mtdSales`: the active sales of the selected branch dated inside the window,
      in their original order. No cancelled sale survives. */
  function MtdSales(sales: seq<Sale>, startStr: string, endStr: string, selectedBranch: string): (r: seq<Sale>)
    ensures |r| <= |sales|
    ensures forall i :: 0 <= i < |r| ==> r[i] in sales && !IsSaleCancelled(r[i]) && NormalizeDate(r[i].date) != ""
    ensures forall i :: 0 <= i < |r| ==> InWindow(NormalizeDate(r[i].date), startStr, endStr)
    ensures forall i :: 0 <= i < |r| ==> BranchMatches(r[i], selectedBranch)
    ensures forall i :: 0 <= i < |sales| && InMonthToDate(sales[i], startStr, endStr, selectedBranch) ==> sales[i] in r
  {
    Filter(sales, s => InMonthToDate(s, startStr, endStr, selectedBranch))
  }

  /** The filter works sale by sale, so it keeps the order of concatenated lists. */
  lemma MtdSalesAppend(a: seq<Sale>, b: seq<Sale>, startStr: string, endStr: string, selectedBranch: string)
    ensures MtdSales(a + b, startStr, endStr, selectedBranch)
            == MtdSales(a, startStr, endStr, selectedBranch) + MtdSales(b, startStr, endStr, selectedBranch)
  {
    FilterAppend(a, b, s => InMonthToDate(s, startStr, endStr, selectedBranch));
  }

  /** The "sales count (MTD)" card: the number of month-to-date sales. */
  function SoldLeadsCount(mtd: seq<Sale>): nat {
    |mtd|
  }

  /** Cancelling a sale removes it from the month-to-date list, so the count card
      drops by exactly one for that sale. */
  lemma CancelledSaleNotCounted(before: seq<Sale>, s: Sale, after: seq<Sale>,
                                startStr: string, endStr: string, selectedBranch: string)
    requires IsSaleCancelled(s)
    ensures SoldLeadsCount(MtdSales(before + [s] + after, startStr, endStr, selectedBranch))
            == SoldLeadsCount(MtdSales(before + after, startStr, endStr, selectedBranch))
  {
    MtdSalesAppend(before + [s], after, startStr, endStr, selectedBranch);
    MtdSalesAppend(before, [s], startStr, endStr, selectedBranch);
    MtdSalesAppend(before, after, startStr, endStr, selectedBranch);
    assert MtdSales([s], startStr, endStr, selectedBranch) == [];
  }

  predicate IsSold(l: Records.Lead) {
    l.status == Records.Sold
  }

  /** `soldLeads`: the first ten of the recent leads whose status is "sold" (all of
      them when fewer), in list order. */
  function SoldLeads(recentLeads: Option<seq<Records.Lead>>): (r: seq<Records.Lead>)
    ensures var sold := Filter(recentLeads.GetOr([]), IsSold);
            r <= sold && |r| == if |sold| < 10 then |sold| else 10
    ensures forall i :: 0 <= i < |r| ==> r[i].status == Records.Sold && r[i] in recentLeads.GetOr([])
  {
    Take(Filter(recentLeads.GetOr([]), IsSold), 10)
  }

  /** The list is read lead by lead from the front: once ten sold leads are seen,
      later leads change nothing; before that, the sold leads of a later part
      follow those of the earlier part. */
  lemma SoldLeadsAppend(a: seq<Records.Lead>, b: seq<Records.Lead>)
    ensures |Filter(a, IsSold)| >= 10 ==> SoldLeads(Some(a + b)) == SoldLeads(Some(a))
    ensures |Filter(a, IsSold)| + |Filter(b, IsSold)| <= 10
            ==> SoldLeads(Some(a + b)) == SoldLeads(Some(a)) + SoldLeads(Some(b))
  {
    FilterAppend(a, b, IsSold);
    var sa, sb := Filter(a, IsSold), Filter(b, IsSold);
    assert SoldLeads(Some(a + b)) == Take(sa + sb, 10);
    assert SoldLeads(Some(a)) == Take(sa, 10);
    if |sa| >= 10 {
      TakeOfAppend(sa, sb, 10);
    } else if |sa| + |sb| <= 10 {
      assert SoldLeads(Some(b)) == Take(sb, 10) == sb;
    }
  }

  // ---------------------------------------------------------------- sales per day

  /** The day-of-month bucket a sale falls in: its normalised date, read as local
      midnight by `parse` (the stand-in for `new Date(...)`, `None` for an invalid
      date), when that date lies in `now`'s year and month. */
  function SaleDay(s: Sale, parse: string -> Option<CalendarDate>, now: CalendarDate): Option<int> {
    var d := NormalizeDate(s.date);
    if d == "" then None
    else match parse(d + "T00:00:00")
      case None => None
      case Some(dd) => if dd.year == now.year && dd.month == now.month then Some(dd.day) else None
  }

  /** How many sales fall on day `day`. */
  function DayCount(sales: seq<Sale>, parse: string -> Option<CalendarDate>, now: CalendarDate, day: int): nat {
    if sales == [] then 0
    else DayCount(sales[..|sales| - 1], parse, now, day)
         + (if SaleDay(sales[|sales| - 1], parse, now) == Some(day) then 1 else 0)
  }

  /** How many sales fall on one of the days `1..days`. */
  function CountedDays(sales: seq<Sale>, parse: string -> Option<CalendarDate>, now: CalendarDate, days: int): (r: nat)
    ensures r <= |sales|
  {
    if sales == [] then 0
    else
      var d := SaleDay(sales[|sales| - 1], parse, now);
      CountedDays(sales[..|sales| - 1], parse, now, days) + (if d.Some? && 1 <= d.value <= days then 1 else 0)
  }

  function SumDayCounts(b: seq<DayBucket>): nat {
    if b == [] then 0 else b[0].count + SumDayCounts(b[1..])
  }

  lemma {:induction false} SumDayCountsIncrement(b: seq<DayBucket>, k: nat)
    requires k < |b|
    ensures SumDayCounts(b[k := b[k].(count := b[k].count + 1)]) == SumDayCounts(b) + 1
  {
    if k > 0 {
      SumDayCountsIncrement(b[1..], k - 1);
      assert b[k := b[k].(count := b[k].count + 1)][1..] == b[1..][k - 1 := b[k].(count := b[k].count + 1)];
    }
  }

  lemma DayCountSnoc(sales: seq<Sale>, s: Sale, parse: string -> Option<CalendarDate>, now: CalendarDate, day: int)
    ensures DayCount(sales + [s], parse, now, day)
            == DayCount(sales, parse, now, day) + (if SaleDay(s, parse, now) == Some(day) then 1 else 0)
  {
    assert (sales + [s])[..|sales|] == sales;
  }

  lemma CountedDaysSnoc(sales: seq<Sale>, s: Sale, parse: string -> Option<CalendarDate>, now: CalendarDate, days: int)
    ensures CountedDays(sales + [s], parse, now, days)
            == CountedDays(sales, parse, now, days)
               + (if SaleDay(s, parse, now).Some? && 1 <= SaleDay(s, parse, now).value <= days then 1 else 0)
  {
    assert (sales + [s])[..|sales|] == sales;
  }

  /** The label of the bucket at position `k`: `String(k + 1)`. */
  function DayLabel(k: int): string {
    IntToString(k + 1)
  }

  /** Bucket `k` is labelled with the day `k + 1`. */
  ghost predicate Labelled(base: seq<DayBucket>) {
    forall k :: 0 <= k < |base| ==> base[k].day == DayLabel(k)
  }

  /** `indexByDay` maps the labels "1".."N" to their positions and holds nothing else. */
  ghost predicate IndexesDays(indexByDay: map<string, nat>, n: nat) {
    && (forall k :: 0 <= k < n ==> DayLabel(k) in indexByDay && indexByDay[DayLabel(k)] == k)
    && (forall key :: key in indexByDay ==> indexByDay[key] < n && DayLabel(indexByDay[key]) == key)
  }

  /** Every day of the range has its label in the index. */
  lemma DayIndexed(indexByDay: map<string, nat>, n: nat, day: int)
    requires IndexesDays(indexByDay, n)
    ensures 1 <= day <= n ==> IntToString(day) in indexByDay
  {
    if 1 <= day <= n {
      assert DayLabel(day - 1) == IntToString(day);
    }
  }

  /** `Array.from({ length: daysInRange }, ...)`: the zeroed buckets "1".."N". */
  method InitDayBuckets(daysInRange: nat) returns (base: seq<DayBucket>)
    ensures |base| == daysInRange
    ensures forall k :: 0 <= k < daysInRange ==> base[k] == DayBucket(IntToString(k + 1), 0)
    ensures SumDayCounts(base) == 0
  {
    base := [];
    for i := 0 to daysInRange
      invariant |base| == i
      invariant forall k :: 0 <= k < i ==> base[k] == DayBucket(IntToString(k + 1), 0)
    {
      base := base + [DayBucket(IntToString(i + 1), 0)];
    }
    ZeroBucketsSum(base);
  }

  /** `base.forEach((row, idx) => indexByDay.set(row.day, idx))`: since the labels
      are distinct, each label "k+1" maps to its own position `k`, and every key
      is the label of the position it maps to. */
  method IndexDayBuckets(base: seq<DayBucket>) returns (indexByDay: map<string, nat>)
    requires Labelled(base)
    ensures forall k :: 0 <= k < |base| ==> DayLabel(k) in indexByDay && indexByDay[DayLabel(k)] == k
    ensures forall key :: key in indexByDay ==> indexByDay[key] < |base| && DayLabel(indexByDay[key]) == key
  {
    indexByDay := map[];
    for idx := 0 to |base|
      invariant IndexesDays(indexByDay, idx)
    {
      forall k | 0 <= k < idx ensures DayLabel(k) != DayLabel(idx) {
        IntToStringInjective(k + 1, idx + 1);
      }
      assert base[idx].day == DayLabel(idx);
      indexByDay := indexByDay[base[idx].day := idx];
    }
  }

  /** The body of the `mtdSales.forEach` callback up to the lookup: which bucket,
      if any, a sale increments. It returns early exactly where the callback does. */
  method BucketIndex(s: Sale, parse: string -> Option<CalendarDate>, now: CalendarDate,
                     daysInRange: nat, indexByDay: map<string, nat>)
    returns (idx: Option<nat>)
    requires IndexesDays(indexByDay, daysInRange)
    ensures idx.Some? <==> SaleDay(s, parse, now).Some? && 1 <= SaleDay(s, parse, now).value <= daysInRange
    ensures idx.Some? ==> idx.value + 1 == SaleDay(s, parse, now).value
  {
    var d := NormalizeDate(s.date);
    if d == "" {
      return None;
    }
    var parsed := parse(d + "T00:00:00");
    if parsed.None? || parsed.value.year != now.year || parsed.value.month != now.month {
      return None;
    }
    var dayNumber := IntToString(parsed.value.day);
    DayIndexed(indexByDay, daysInRange, parsed.value.day);
    if dayNumber !in indexByDay {
      return None;
    }
    assert DayLabel(indexByDay[dayNumber]) == dayNumber;
    IntToStringInjective(indexByDay[dayNumber] + 1, parsed.value.day);
    return Some(indexByDay[dayNumber]);
  }

  /** Bucket `k` holds the count of day `k + 1`, and the buckets together hold
      every sale dated on one of their days. */
  ghost predicate BucketsCount(base: seq<DayBucket>, sales: seq<Sale>, parse: string -> Option<CalendarDate>, now: CalendarDate) {
    && (forall day :: 1 <= day <= |base| ==> base[day - 1].count == DayCount(sales, parse, now, day))
    && SumDayCounts(base) == CountedDays(sales, parse, now, |base|)
  }

  /** Counting one more sale: incrementing the bucket of its day (or none) keeps
      the buckets exact. */
  lemma CountOneMore(base: seq<DayBucket>, next: seq<DayBucket>, sales: seq<Sale>, s: Sale,
                     parse: string -> Option<CalendarDate>, now: CalendarDate, idx: Option<nat>)
    requires BucketsCount(base, sales, parse, now)
    requires idx.Some? <==> SaleDay(s, parse, now).Some? && 1 <= SaleDay(s, parse, now).value <= |base|
    requires idx.Some? ==> idx.value + 1 == SaleDay(s, parse, now).value
    requires next == if idx.Some? then base[idx.value := base[idx.value].(count := base[idx.value].count + 1)] else base
    ensures BucketsCount(next, sales + [s], parse, now)
  {
    CountedDaysSnoc(sales, s, parse, now, |base|);
    forall day | 1 <= day <= |base|
      ensures next[day - 1].count == DayCount(sales + [s], parse, now, day)
    {
      DayCountSnoc(sales, s, parse, now, day);
    }
    if idx.Some? {
      SumDayCountsIncrement(base, idx.value);
    }
  }

  /** Zeroed buckets count an empty list of sales. */
  lemma BucketsCountNone(base: seq<DayBucket>, parse: string -> Option<CalendarDate>, now: CalendarDate)
    requires forall k :: 0 <= k < |base| ==> base[k].count == 0
    requires SumDayCounts(base) == 0
    ensures BucketsCount(base, [], parse, now)
  {
    forall day | 1 <= day <= |base| ensures base[day - 1].count == DayCount([], parse, now, day) {
    }
  }

  /** Buckets that count the whole list hold each day's count and at most one per sale. */
  lemma BucketsCountAll(base: seq<DayBucket>, sales: seq<Sale>, parse: string -> Option<CalendarDate>, now: CalendarDate)
    requires BucketsCount(base, sales, parse, now)
    ensures forall k :: 0 <= k < |base| ==> base[k].count == DayCount(sales, parse, now, k + 1)
    ensures SumDayCounts(base) == CountedDays(sales, parse, now, |base|) <= |sales|
  {
    forall k | 0 <= k < |base| ensures base[k].count == DayCount(sales, parse, now, k + 1) {
      assert base[(k + 1) - 1].count == DayCount(sales, parse, now, k + 1);
    }
  }

  /** One step of the loop: the bucket of the sale's day, if any, goes up by one;
      the labels stay. */
  method CountSale(base: seq<DayBucket>, s: Sale, parse: string -> Option<CalendarDate>, now: CalendarDate,
                   indexByDay: map<string, nat>, ghost sales: seq<Sale>)
    returns (next: seq<DayBucket>)
    requires Labelled(base) && IndexesDays(indexByDay, |base|)
    requires BucketsCount(base, sales, parse, now)
    ensures Labelled(next) && |next| == |base|
    ensures BucketsCount(next, sales + [s], parse, now)
  {
    var idx := BucketIndex(s, parse, now, |base|, indexByDay);
    next := base;
    if idx.Some? {
      next := base[idx.value := base[idx.value].(count := base[idx.value].count + 1)];
    }
    CountOneMore(base, next, sales, s, parse, now, idx);
  }

  /** The chart of days `1..days`: bucket `k` is labelled with day `k + 1` and holds
      the number of sales dated on that day. */
  function DayChart(sales: seq<Sale>, parse: string -> Option<CalendarDate>, now: CalendarDate, days: nat): seq<DayBucket> {
    seq(days, k requires 0 <= k < days => DayBucket(DayLabel(k), DayCount(sales, parse, now, k + 1)))
  }

  /** `salesByDayChartData`: one bucket per day from 1 to today, labelled "1".."N",
      each holding the number of month-to-date sales dated on that day. */
  method SalesByDayChartData(mtd: seq<Sale>, parse: string -> Option<CalendarDate>, now: CalendarDate)
    returns (base: seq<DayBucket>)
    requires 1 <= now.day <= 31
    ensures base == DayChart(mtd, parse, now, now.day)
    ensures |base| == now.day
    ensures forall k :: 0 <= k < |base| ==> base[k].day == IntToString(k + 1)
    ensures forall k :: 0 <= k < |base| ==> base[k].count == DayCount(mtd, parse, now, k + 1)
    ensures SumDayCounts(base) == CountedDays(mtd, parse, now, now.day) <= |mtd|
  {
    var daysInRange := now.day;
    base := InitDayBuckets(daysInRange);
    var indexByDay := IndexDayBuckets(base);
    BucketsCountNone(base, parse, now);
    assert mtd[..0] == [];

    for i := 0 to |mtd|
      invariant |base| == daysInRange
      invariant Labelled(base)
      invariant BucketsCount(base, mtd[..i], parse, now)
    {
      base := CountSale(base, mtd[i], parse, now, indexByDay, mtd[..i]);
      PrefixSnoc(mtd, i);
    }
    assert mtd[..|mtd|] == mtd;
    BucketsCountAll(base, mtd, parse, now);
    assert forall k :: 0 <= k < |base| ==> base[k] == DayChart(mtd, parse, now, now.day)[k];
  }

  lemma {:induction false} ZeroBucketsSum(b: seq<DayBucket>)
    requires forall k :: 0 <= k < |b| ==> b[k].count == 0
    ensures SumDayCounts(b) == 0
  {
    if b != [] {
      ZeroBucketsSum(b[1..]);
    }
  }

  // ---------------------------------------------------------------- sales per seller

  /** `getSellerLabel`: the embedded seller's name, else `seller_name`, else
      "Seller {id}" when there is a seller id, else "Sin vendedora". */
  function SellerLabel(s: Sale): (r: string)
    ensures r != ""
    ensures s.seller.Some? && Truthy(s.seller.value.name) ==> r == s.seller.value.name.value
  {
    if s.seller.Some? && Truthy(s.seller.value.name) then s.seller.value.name.value
    else if Truthy(s.sellerName) then s.sellerName.value
    else if s.sellerId.Some? then "Seller " + s.sellerId.value
    else "Sin vendedora"
  }

  /** The fallback chain, step by step. */
  lemma SellerLabelFallbacks(s: Sale)
    ensures !(s.seller.Some? && Truthy(s.seller.value.name)) && Truthy(s.sellerName)
            ==> SellerLabel(s) == s.sellerName.value
    ensures !(s.seller.Some? && Truthy(s.seller.value.name)) && !Truthy(s.sellerName) && s.sellerId.Some?
            ==> SellerLabel(s) == "Seller " + s.sellerId.value
    ensures !(s.seller.Some? && Truthy(s.seller.value.name)) && !Truthy(s.sellerName) && s.sellerId.None?
            ==> SellerLabel(s) == "Sin vendedora"
  {
  }

  function SellerLabels(sales: seq<Sale>): (r: seq<string>)
    ensures |r| == |sales| && forall i :: 0 <= i < |sales| ==> r[i] == SellerLabel(sales[i])
  {
    seq(|sales|, i requires 0 <= i < |sales| => SellerLabel(sales[i]))
  }

  /** One bar per label of `labels` listed in `names`, counting that label's
      occurrences. */
  function Tally(names: seq<string>, labels: seq<string>): (r: seq<SellerCount>)
    ensures |r| == |names|
    ensures forall k :: 0 <= k < |names| ==> r[k] == SellerCount(names[k], multiset(labels)[names[k]])
  {
    if names == [] then [] else [SellerCount(names[0], multiset(labels)[names[0]])] + Tally(names[1..], labels)
  }

  /** The entries of the label map in insertion (first-seen) order, before sorting. */
  function SellerTally(mtd: seq<Sale>): seq<SellerCount> {
    var labels := SellerLabels(mtd);
    Tally(Dedup(labels), labels)
  }

  function SumCounts(cs: seq<SellerCount>): nat {
    if cs == [] then 0 else cs[0].count + SumCounts(cs[1..])
  }

  /** Counting one more label adds one to the tally of the distinct names that
      contain it, and nothing otherwise. */
  lemma {:induction false} TallySnoc(names: seq<string>, labels: seq<string>, x: string)
    requires Distinct(names)
    ensures SumCounts(Tally(names, labels + [x])) == SumCounts(Tally(names, labels)) + (if x in names then 1 else 0)
  {
    if names != [] {
      TallySnoc(names[1..], labels, x);
      assert x in names <==> x == names[0] || x in names[1..];
      assert x == names[0] ==> x !in names[1..];
    }
  }

  lemma {:induction false} ZeroTally(names: seq<string>)
    ensures SumCounts(Tally(names, [])) == 0
  {
    if names != [] {
      ZeroTally(names[1..]);
    }
  }

  /** When every label is among the distinct names, the tally sums to the number of labels. */
  lemma {:induction false} TallySum(names: seq<string>, labels: seq<string>)
    requires Distinct(names)
    requires forall i :: 0 <= i < |labels| ==> labels[i] in names
    ensures SumCounts(Tally(names, labels)) == |labels|
  {
    if labels == [] {
      ZeroTally(names);
    } else {
      var pre := labels[..|labels| - 1];
      assert labels == pre + [labels[|labels| - 1]];
      TallySum(names, pre);
      TallySnoc(names, pre, labels[|labels| - 1]);
    }
  }

  predicate SortedByCountDesc(cs: seq<SellerCount>) {
    forall i, j :: 0 <= i < j < |cs| ==> cs[i].count >= cs[j].count
  }

  /** The entries with count `c`, in order. */
  function WithCount(cs: seq<SellerCount>, c: nat): (r: seq<SellerCount>)
    ensures |r| <= |cs|
    ensures forall k :: 0 <= k < |r| ==> r[k].count == c
  {
    if cs == [] then []
    else (if cs[0].count == c then [cs[0]] else []) + WithCount(cs[1..], c)
  }

  /** Inserts `x` ahead of the first entry whose count does not exceed its own. */
  function InsertByCount(x: SellerCount, s: seq<SellerCount>): (r: seq<SellerCount>)
    ensures |r| == |s| + 1
  {
    if s == [] || s[0].count <= x.count then [x] + s
    else [s[0]] + InsertByCount(x, s[1..])
  }

  /** `Array.prototype.sort` with comparator `b.count - a.count` (stable), as an
      insertion sort. */
  function SortByCountDesc(s: seq<SellerCount>): (r: seq<SellerCount>)
    ensures |r| == |s|
  {
    if s == [] then [] else InsertByCount(s[0], SortByCountDesc(s[1..]))
  }

  lemma {:induction false} InsertPermutes(x: SellerCount, s: seq<SellerCount>)
    ensures multiset(InsertByCount(x, s)) == multiset(s) + multiset{x}
  {
    if !(s == [] || s[0].count <= x.count) {
      InsertPermutes(x, s[1..]);
      assert s == [s[0]] + s[1..];
    }
  }

  /** A bound on every count survives insertion of an entry within the bound. */
  lemma {:induction false} InsertBounded(x: SellerCount, s: seq<SellerCount>, b: nat)
    requires x.count <= b
    requires forall k :: 0 <= k < |s| ==> s[k].count <= b
    ensures forall k :: 0 <= k < |InsertByCount(x, s)| ==> InsertByCount(x, s)[k].count <= b
  {
    if !(s == [] || s[0].count <= x.count) {
      InsertBounded(x, s[1..], b);
    }
  }

  lemma {:induction false} InsertSorted(x: SellerCount, s: seq<SellerCount>)
    requires SortedByCountDesc(s)
    ensures SortedByCountDesc(InsertByCount(x, s))
  {
    if !(s == [] || s[0].count <= x.count) {
      InsertSorted(x, s[1..]);
      InsertBounded(x, s[1..], s[0].count);
    }
  }

  lemma {:induction false} InsertSum(x: SellerCount, s: seq<SellerCount>)
    ensures SumCounts(InsertByCount(x, s)) == x.count + SumCounts(s)
  {
    if !(s == [] || s[0].count <= x.count) {
      InsertSum(x, s[1..]);
      assert (([s[0]] + InsertByCount(x, s[1..])))[1..] == InsertByCount(x, s[1..]);
    } else {
      assert ([x] + s)[1..] == s;
    }
  }

  /** Insertion puts `x` ahead of every entry with the same count. */
  lemma {:induction false} InsertStable(x: SellerCount, s: seq<SellerCount>, c: nat)
    ensures WithCount(InsertByCount(x, s), c) == (if x.count == c then [x] else []) + WithCount(s, c)
  {
    if s == [] || s[0].count <= x.count {
      assert ([x] + s)[1..] == s;
      if s != [] && s[0].count == c && x.count == c {
        assert s[0].count <= x.count;
      }
    } else {
      var rest := InsertByCount(x, s[1..]);
      InsertStable(x, s[1..], c);
      assert ([s[0]] + rest)[1..] == rest;
      assert x.count == c ==> s[0].count != c;
    }
  }

  /** The sort is a permutation. */
  lemma {:induction false} SortPermutes(s: seq<SellerCount>)
    ensures multiset(SortByCountDesc(s)) == multiset(s)
  {
    if s != [] {
      SortPermutes(s[1..]);
      InsertPermutes(s[0], SortByCountDesc(s[1..]));
      assert s == [s[0]] + s[1..];
    }
  }

  /** The sort orders by count, highest first. */
  lemma {:induction false} SortSorted(s: seq<SellerCount>)
    ensures SortedByCountDesc(SortByCountDesc(s))
  {
    if s != [] {
      SortSorted(s[1..]);
      InsertSorted(s[0], SortByCountDesc(s[1..]));
    }
  }

  /** The sort is stable: the entries of each count keep their relative order. */
  lemma {:induction false} SortStable(s: seq<SellerCount>, c: nat)
    ensures WithCount(SortByCountDesc(s), c) == WithCount(s, c)
  {
    if s != [] {
      SortStable(s[1..], c);
      InsertStable(s[0], SortByCountDesc(s[1..]), c);
    }
  }

  lemma {:induction false} SortSum(s: seq<SellerCount>)
    ensures SumCounts(SortByCountDesc(s)) == SumCounts(s)
  {
    if s != [] {
      SortSum(s[1..]);
      InsertSum(s[0], SortByCountDesc(s[1..]));
    }
  }

  /** Each bar of the seller chart counts exactly its label's sales. */
  lemma ChartCountsLabels(mtd: seq<Sale>, k: nat)
    requires k < |SortByCountDesc(SellerTally(mtd))|
    ensures SortByCountDesc(SellerTally(mtd))[k].count == multiset(SellerLabels(mtd))[SortByCountDesc(SellerTally(mtd))[k].name]
  {
    var labels := SellerLabels(mtd);
    var entries := Tally(Dedup(labels), labels);
    var chart := SortByCountDesc(entries);
    SortPermutes(entries);
    assert chart[k] in multiset(entries);
    var j :| 0 <= j < |entries| && entries[j] == chart[k];
  }

  predicate HasBar(chart: seq<SellerCount>, name: string) {
    exists k :: 0 <= k < |chart| && chart[k].name == name
  }

  /** Sorting keeps every name that has an entry. */
  lemma SortKeepsName(entries: seq<SellerCount>, j: nat)
    requires j < |entries|
    ensures HasBar(SortByCountDesc(entries), entries[j].name)
  {
    var chart := SortByCountDesc(entries);
    SortPermutes(entries);
    assert entries[j] in multiset(chart);
    var k :| 0 <= k < |chart| && chart[k] == entries[j];
  }

  /** Every sale's label has a bar in the seller chart. */
  lemma ChartCoversSale(mtd: seq<Sale>, i: nat)
    requires i < |mtd|
    ensures HasBar(SortByCountDesc(SellerTally(mtd)), SellerLabel(mtd[i]))
  {
    var labels := SellerLabels(mtd);
    var names := Dedup(labels);
    assert labels[i] in names;
    var j :| 0 <= j < |names| && names[j] == labels[i];
    var entries := Tally(names, labels);
    assert entries == SellerTally(mtd);
    assert entries[j].name == SellerLabel(mtd[i]);
    SortKeepsName(entries, j);
  }

  /** The seller chart is sorted by count, highest first, and its counts add up to
      the number of month-to-date sales. */
  lemma SellerChartFacts(mtd: seq<Sale>)
    ensures SortedByCountDesc(SortByCountDesc(SellerTally(mtd)))
    ensures SumCounts(SortByCountDesc(SellerTally(mtd))) == |mtd|
  {
    var labels := SellerLabels(mtd);
    var entries := SellerTally(mtd);
    SortSorted(entries);
    SortSum(entries);
    TallySum(Dedup(labels), labels);
  }

  /** `counts` and `order` are the label map after reading `prefix`. */
  ghost predicate LabelMap(counts: map<string, nat>, order: seq<string>, prefix: seq<string>) {
    && order == Dedup(prefix)
    && (forall l :: l in counts <==> l in order)
    && (forall l :: l in counts ==> counts[l] == multiset(prefix)[l])
  }

  /** Reading one more label: its entry becomes `n`, one more than it had been seen. */
  lemma CountsStep(counts: map<string, nat>, prefix: seq<string>, lbl: string, n: nat)
    requires forall l :: l in counts ==> counts[l] == multiset(prefix)[l]
    requires n == multiset(prefix)[lbl] + 1
    ensures forall l :: l in counts[lbl := n] ==> counts[lbl := n][l] == multiset(prefix + [lbl])[l]
  {
    var m := multiset(prefix + [lbl]);
    assert m == multiset(prefix) + multiset{lbl};
    var c := counts[lbl := n];
    forall l | l in c ensures c[l] == m[l] {
      if l != lbl {
        assert c[l] == counts[l];
      }
    }
  }

  /** Adding a label to the map adds it to the key order and nothing else. */
  lemma KeysStep(counts: map<string, nat>, order: seq<string>, lbl: string, n: nat)
    requires forall l :: l in counts <==> l in order
    requires lbl !in counts
    ensures forall l :: l in counts[lbl := n] <==> l in order + [lbl]
  {
  }

  lemma LabelMapNew(counts: map<string, nat>, order: seq<string>, prefix: seq<string>, lbl: string)
    requires LabelMap(counts, order, prefix) && lbl !in counts
    ensures LabelMap(counts[lbl := 1], order + [lbl], prefix + [lbl])
  {
    assert order + [lbl] == Dedup(prefix + [lbl]) by {
      DedupMembers(prefix, lbl);
      DedupSnoc(prefix, lbl);
    }
    assert forall l :: l in counts[lbl := 1] <==> l in order + [lbl] by {
      KeysStep(counts, order, lbl, 1);
    }
    assert forall l :: l in counts[lbl := 1] ==> counts[lbl := 1][l] == multiset(prefix + [lbl])[l] by {
      DedupMembers(prefix, lbl);
      CountsStep(counts, prefix, lbl, 1);
    }
  }

  lemma LabelMapSeen(counts: map<string, nat>, order: seq<string>, prefix: seq<string>, lbl: string)
    requires LabelMap(counts, order, prefix) && lbl in counts
    ensures LabelMap(counts[lbl := counts[lbl] + 1], order, prefix + [lbl])
  {
    assert lbl in prefix;
    DedupSnoc(prefix, lbl);
    assert order == Dedup(prefix + [lbl]);
    CountsStep(counts, prefix, lbl, counts[lbl] + 1);
  }

  /** The label map built by the loop: labels in first-seen order, each with the
      number of times it occurs. */
  method CountByLabel(labels: seq<string>) returns (counts: map<string, nat>, order: seq<string>)
    ensures order == Dedup(labels)
    ensures forall l :: l in counts <==> l in order
    ensures forall l :: l in counts ==> counts[l] == multiset(labels)[l]
  {
    counts := map[];
    order := [];
    for i := 0 to |labels|
      invariant LabelMap(counts, order, labels[..i])
    {
      var lbl := labels[i];
      assert labels[..i + 1] == labels[..i] + [lbl];
      if lbl !in counts {
        LabelMapNew(counts, order, labels[..i], lbl);
        order := order + [lbl];
        counts := counts[lbl := 1];
      } else {
        LabelMapSeen(counts, order, labels[..i], lbl);
        counts := counts[lbl := counts[lbl] + 1];
      }
    }
    assert labels[..|labels|] == labels;
  }

  /** `salesBySellerChartData`: count the month-to-date sales per seller label in a
      `Map` (labels in first-seen order), then sort the entries by count, highest
      first; see `SellerChartFacts` for what the result satisfies. */
  method SalesBySellerChartData(mtd: seq<Sale>) returns (chart: seq<SellerCount>)
    ensures chart == SortByCountDesc(SellerTally(mtd))
    ensures SortedByCountDesc(chart)
    ensures SumCounts(chart) == |mtd|
  {
    var labels := seq(|mtd|, i requires 0 <= i < |mtd| => SellerLabel(mtd[i]));
    assert labels == SellerLabels(mtd);
    var counts, order := CountByLabel(labels);
    var entries := seq(|order|, k requires 0 <= k < |order| => SellerCount(order[k], counts[order[k]]));
    assert entries == SellerTally(mtd);
    chart := SortByCountDesc(entries);
    SellerChartFacts(mtd);
  }
}
