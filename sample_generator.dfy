/** The stand-alone sample-data script (generate_sample_data): the same
    day-by-day generation as the dashboard's built-in data, with its own
    catalogue, stronger seasonal and weekend factors, a 40% new-customer
    rate, and dates written out as YYYY-MM-DD text. */
module SampleGenerator {
  import opened Dates
  import opened Sales
  import opened Generation

  const GenCatalog: Catalog := Catalog(
    ["Electronics", "Clothing", "Home & Garden", "Sports", "Books", "Beauty"],
    [["iPhone 15", "MacBook Pro", "AirPods", "iPad", "Apple Watch"],
     ["Premium T-Shirt", "Designer Jeans", "Running Shoes", "Winter Jacket", "Summer Dress"],
     ["Coffee Maker", "Plant Pot Set", "Bed Sheets", "Table Lamp", "Robot Vacuum"],
     ["Running Shoes", "Yoga Mat", "Dumbbell Set", "Basketball", "Mountain Bike"],
     ["Bestseller Novel", "Cookbook", "Self-Help Guide", "Biography", "Programming Book"],
     ["Anti-Aging Cream", "Lipstick Set", "Shampoo", "Sunscreen", "Perfume"]],
    [(99, 2499), (19, 299), (15, 599), (25, 899), (9, 79), (12, 149)],
    ["CA", "TX", "FL", "NY", "PA", "IL", "OH", "GA", "NC", "MI"])

  lemma GenCatalogValid()
    ensures ValidCatalog(GenCatalog)
  {
  }

  /** base_transactions. */
  const BaseTransactions: int := 20

  /** The seasonal multiplier in tenths: 1.8 in November and December, 0.6
      in January and February, 1.3 in June to August, 1.0 otherwise. */
  function Season(month: int): (s: int)
    ensures s == 18 <==> month == 11 || month == 12
    ensures s == 6 <==> month == 1 || month == 2
    ensures s == 13 <==> month == 6 || month == 7 || month == 8
    ensures s == 10 <==> !(month in {1, 2, 6, 7, 8, 11, 12})
  {
    if month == 11 || month == 12 then 18
    else if month == 1 || month == 2 then 6
    else if month == 6 || month == 7 || month == 8 then 13
    else 10
  }

  /** The weekend multiplier in tenths: 1.4 on Saturday and Sunday. */
  function Weekend(weekday: int): (w: int)
    ensures w == 14 <==> weekday >= 5
    ensures w == 10 <==> weekday < 5
  {
    if weekday >= 5 then 14 else 10
  }

  /** max(1, int(20 * seasonal_mult * weekend_mult * noise)), the noise in
      hundredths: at least one sale, whatever the noise. */
  function DailyTransactions(day: Date, noise: int): (n: int)
    requires ValidDate(day)
    ensures n >= 1
  {
    DailyCount(BaseTransactions, Season(day.month), Weekend(Weekday(day)), noise)
  }

  /** For the same kind of day and the same noise, the holiday months never
      have fewer sales than any other month and the summer months never
      fewer than the ordinary ones. */
  lemma HolidaysBusiest(a: Date, b: Date, noise: int)
    requires ValidDate(a) && ValidDate(b)
    requires Weekend(Weekday(a)) == Weekend(Weekday(b))
    ensures a.month >= 11 ==> DailyTransactions(a, noise) >= DailyTransactions(b, noise)
    ensures 6 <= a.month <= 8 && Season(b.month) <= 10 ==> DailyTransactions(a, noise) >= DailyTransactions(b, noise)
  {
    var w := Weekend(Weekday(a));
    if noise < 0 {
      NegativeNoiseOneSale(BaseTransactions, Season(a.month), w, noise);
      NegativeNoiseOneSale(BaseTransactions, Season(b.month), w, noise);
      return;
    }
    if a.month >= 11 || (6 <= a.month <= 8 && Season(b.month) <= 10) {
      ScaledMonotone(BaseTransactions, Season(b.month), w, Season(a.month), w, noise);
      DailyCountMonotone(BaseTransactions, Season(b.month), w, noise, BaseTransactions, Season(a.month), w, noise);
    }
  }

  // ---- customer ids ----

  /** A draw brings a new customer with probability 0.4. */
  predicate IsNew(draws: nat -> Draw, k: nat) {
    CoinBelow(draws(k).coin, 4)
  }

  /** customer_id before sale k: 1000 plus the new customers so far. */
  function IdCounter(draws: nat -> Draw, k: nat): (c: int)
    ensures c >= 1000
  {
    if k == 0 then 1000 else IdCounter(draws, k - 1) + (if IsNew(draws, k - 1) then 1 else 0)
  }

  /** The customer of sale k: the incremented counter for a new customer,
      otherwise np.random.randint(1000, counter + 1), an id in
      [1000, counter]. */
  function CustomerId(draws: nat -> Draw, k: nat): int {
    var c := IdCounter(draws, k);
    if IsNew(draws, k) then c + 1 else 1000 + draws(k).returning % (c - 1000 + 1)
  }

  /** The customer id of every sale. */
  function GenIds(draws: nat -> Draw): nat -> int {
    (k: nat) => CustomerId(draws, k)
  }

  /** The sales before k that brought a new customer. */
  function NewBefore(draws: nat -> Draw, k: nat): set<nat> {
    set j: nat | j < k && IsNew(draws, j)
  }

  lemma NewBeforeStep(draws: nat -> Draw, k: nat)
    ensures NewBefore(draws, k + 1) == NewBefore(draws, k) + (if IsNew(draws, k) then {k} else {})
    ensures k !in NewBefore(draws, k)
  {
  }

  /** The counter is 1000 plus the number of new-customer draws: it grows by
      exactly one on each. */
  lemma {:induction false} CounterCountsNew(draws: nat -> Draw, k: nat)
    ensures IdCounter(draws, k) == 1000 + |NewBefore(draws, k)|
  {
    if k > 0 {
      CounterCountsNew(draws, k - 1);
      NewBeforeStep(draws, k - 1);
    } else {
      assert NewBefore(draws, 0) == {};
    }
  }

  /** The counter never decreases. */
  lemma {:induction false} IdCounterMonotone(draws: nat -> Draw, i: nat, j: nat)
    requires i <= j
    ensures IdCounter(draws, i) <= IdCounter(draws, j)
    decreases j
  {
    if i < j {
      IdCounterMonotone(draws, i, j - 1);
    }
  }

  /** Every id lies in [1000, counter] once it is assigned. */
  lemma IdRange(draws: nat -> Draw, k: nat)
    ensures 1000 <= CustomerId(draws, k) <= IdCounter(draws, k + 1)
  {
  }

  /** A new customer's id is above every id assigned before it. */
  lemma NewIdAboveEarlier(draws: nat -> Draw, k: nat, j: nat)
    requires IsNew(draws, k) && j < k
    ensures CustomerId(draws, j) < CustomerId(draws, k)
  {
    IdRange(draws, j);
    IdCounterMonotone(draws, j + 1, k);
  }

  /** New customers get 1001 onward, so id 1000 is never minted; yet a first
      sale that draws a returning customer is given id 1000. */
  lemma Id1000NeverMinted(draws: nat -> Draw, k: nat)
    ensures IsNew(draws, k) ==> CustomerId(draws, k) >= 1001
    ensures !IsNew(draws, 0) ==> CustomerId(draws, 0) == 1000
  {
  }

  /** The distinct customers of a generated table lie in [1000, counter]. */
  lemma CustomersWithinCounter(t: Table, draws: nat -> Draw, x: int)
    requires forall k :: 0 <= k < |t| ==> t[k].customerId == CustomerId(draws, k)
    requires x in CustomerIds(t)
    ensures 1000 <= x <= IdCounter(draws, |t|)
  {
    var k :| 0 <= k < |t| && t[k].customerId == x;
    IdRange(draws, k);
    IdCounterMonotone(draws, k + 1, |t|);
  }

  // ---- the rows written to the CSV file ----

  /** One row of sales_data: the sale with its date as YYYY-MM-DD text. */
  datatype SampleRow = SampleRow(
    date: string,
    productName: string,
    category: string,
    quantity: int,
    unitPrice: int,      // cents
    totalAmount: int,    // cents
    customerId: int,
    customerLocation: string)

  function ToRow(t: Transaction): (r: SampleRow)
    requires ValidDate(t.date)
  {
    SampleRow(FormatDate(t.date), t.productName, t.category, t.quantity,
      t.unitPrice, t.totalAmount, t.customerId, t.customerLocation)
  }

  /** Reads a row back into a sale; None when its date is not YYYY-MM-DD. */
  function FromRow(r: SampleRow): (t: Option<Transaction>)
  {
    match ParseDate(r.date)
    case None => None
    case Some(d) => Some(Transaction(d, r.productName, r.category, r.quantity,
      r.unitPrice, r.totalAmount, r.customerId, r.customerLocation))
  }

  /** Writing a sale as a row and reading it back gives the same sale. */
  lemma RowRoundTrip(t: Transaction)
    requires ValidDate(t.date)
    ensures FromRow(ToRow(t)) == Some(t)
  {
    FormatDateRoundTrip(t.date);
  }

  /** The rows of a table, in order. */
  function Rows(t: Table): (rows: seq<SampleRow>)
    requires forall k :: 0 <= k < |t| ==> ValidDate(t[k].date)
  {
    seq(|t|, k requires 0 <= k < |t| => ToRow(t[k]))
  }

  lemma RowsAppend(a: Table, b: Table)
    requires forall k :: 0 <= k < |a| ==> ValidDate(a[k].date)
    requires forall k :: 0 <= k < |b| ==> ValidDate(b[k].date)
    ensures forall k :: 0 <= k < |a + b| ==> ValidDate((a + b)[k].date)
    ensures Rows(a + b) == Rows(a) + Rows(b)
  {
    var u := a + b;
    forall k | 0 <= k < |u| ensures ValidDate(u[k].date) && Rows(u)[k] == (Rows(a) + Rows(b))[k] {
      if k < |a| { assert u[k] == a[k]; } else { assert u[k] == b[k - |a|]; }
    }
  }

  // ---- the generator ----

  /** The sales generate_sample_data makes for a start day, daily noise and
      draws, before its dates are written as text. */
  function GenSales(start: Date, noise: nat -> int, draws: nat -> Draw): (t: Table)
    requires ValidDate(start) && start.year + SpanDays <= 9999
    ensures forall k :: 0 <= k < |t| ==> ValidDate(t[k].date)
  {
    GenCatalogValid();
    var days := SampleDays(start);
    Blocks(GenCatalog, days, DayCounts(BaseTransactions, Season, Weekend, days, noise), draws, GenIds(draws), SpanDays)
  }

  /** The customer logic of one sale: a new customer takes the incremented
      counter, a returning one a random id in [1000, counter]. */
  method NextCustomer(draws: nat -> Draw, k: nat, counter: int) returns (customerId: int, next: int)
    requires counter == IdCounter(draws, k)
    ensures customerId == CustomerId(draws, k) && next == IdCounter(draws, k + 1)
  {
    var r := draws(k);
    next := counter;
    if CoinBelow(r.coin, 4) {
      next := next + 1;
      customerId := next;
    } else {
      customerId := 1000 + r.returning % (next - 1000 + 1);
    }
  }

  lemma DayRowsStep(c: Catalog, day: Date, first: nat, j: nat, draws: nat -> Draw, sale: Transaction)
    requires ValidCatalog(c) && ValidDate(day)
    requires sale == MakeRecord(c, day, draws(first + j), CustomerId(draws, first + j))
    ensures DayBlock(c, day, first, j + 1, draws, GenIds(draws)) == DayBlock(c, day, first, j, draws, GenIds(draws)) + [sale]
    ensures Rows(DayBlock(c, day, first, j, draws, GenIds(draws)) + [sale])
      == Rows(DayBlock(c, day, first, j, draws, GenIds(draws))) + [ToRow(sale)]
  {
    var before := DayBlock(c, day, first, j, draws, GenIds(draws));
    assert DayBlock(c, day, first, j + 1, draws, GenIds(draws)) == before + [sale];
    RowsAppend(before, [sale]);
    assert Rows([sale]) == [ToRow(sale)];
  }

  /** The inner loop of generate_sample_data: n more rows on one day, row k
      built from draw k, with the counter taking a new id or a returning one. */
  method DayRows(cat: Catalog, rows: seq<SampleRow>, counter: int, day: Date, n: nat, draws: nat -> Draw)
    returns (out: seq<SampleRow>, next: int)
    requires ValidCatalog(cat) && ValidDate(day) && counter == IdCounter(draws, |rows|)
    ensures out == rows + Rows(DayBlock(cat, day, |rows|, n, draws, GenIds(draws)))
    ensures next == IdCounter(draws, |out|)
  {
    out, next := rows, counter;
    ghost var block: Table := [];
    var j := 0;
    while j < n
      invariant 0 <= j <= n && block == DayBlock(cat, day, |rows|, j, draws, GenIds(draws))
      invariant out == rows + Rows(block)
      invariant next == IdCounter(draws, |out|)
    {
      var r := draws(|out|);
      var customerId;
      customerId, next := NextCustomer(draws, |out|, next);
      var sale := MakeRecord(cat, day, r, customerId);
      assert |out| == |rows| + j;
      DayRowsStep(cat, day, |rows|, j, draws, sale);
      block := block + [sale];
      out := out + [ToRow(sale)];
      j := j + 1;
    }
  }

  /** The rows of d + 1 days are those of d days and then day d's rows. */
  lemma RowsOfNextDay(c: Catalog, days: seq<Date>, counts: seq<nat>, draws: nat -> Draw, d: nat)
    requires ValidCatalog(c) && |counts| == |days| && d < |days|
    requires forall i :: 0 <= i < |days| ==> ValidDate(days[i])
    ensures Rows(Blocks(c, days, counts, draws, GenIds(draws), d + 1))
      == Rows(Blocks(c, days, counts, draws, GenIds(draws), d))
         + Rows(DayBlock(c, days[d], Offset(counts, d), counts[d], draws, GenIds(draws)))
  {
    RowsAppend(Blocks(c, days, counts, draws, GenIds(draws), d), DayBlock(c, days[d], Offset(counts, d), counts[d], draws, GenIds(draws)));
  }

  /** generate_sample_data with the run's start day (the current day minus
      365 days), the daily noise and the per-sale draws as inputs; the rows
      it passes to the data frame. */
  method GenerateSampleData(start: Date, noise: nat -> int, draws: nat -> Draw) returns (rows: seq<SampleRow>)
    requires ValidDate(start) && start.year + SpanDays <= 9999
    ensures rows == Rows(GenSales(start, noise, draws))
  {
    var days := SampleDays(start);
    ghost var counts := DayCounts(BaseTransactions, Season, Weekend, days, noise);
    GenCatalogValid();
    rows := [];
    var customerId := 1000;
    var d := 0;
    while d < |days|
      invariant 0 <= d <= |days|
      invariant rows == Rows(Blocks(GenCatalog, days, counts, draws, GenIds(draws), d))
      invariant customerId == IdCounter(draws, |rows|)
    {
      var day := days[d];
      var seasonal := Season(day.month);
      var weekend := Weekend(Weekday(day));
      var n := DailyCount(BaseTransactions, seasonal, weekend, noise(d));
      DayCount(BaseTransactions, Season, Weekend, days, noise, d);
      RowsOfNextDay(GenCatalog, days, counts, draws, d);
      rows, customerId := DayRows(GenCatalog, rows, customerId, day, n, draws);
      d := d + 1;
    }
  }

  // ---- what the rows satisfy ----

  /** One block of at least one row per day. */
  lemma GenSalesLength(start: Date, noise: nat -> int, draws: nat -> Draw)
    requires ValidDate(start) && start.year + SpanDays <= 9999
    ensures |GenSales(start, noise, draws)| == Offset(DayCounts(BaseTransactions, Season, Weekend, SampleDays(start), noise), SpanDays)
    ensures |GenSales(start, noise, draws)| >= SpanDays
  {
    OffsetGrows(DayCounts(BaseTransactions, Season, Weekend, SampleDays(start), noise), 0, SpanDays);
  }

  /** Day d's block holds exactly that day's DailyTransactions rows. */
  lemma GenSalesPerDay(start: Date, noise: nat -> int, d: nat)
    requires ValidDate(start) && start.year + SpanDays <= 9999 && d < SpanDays
    ensures var counts := DayCounts(BaseTransactions, Season, Weekend, SampleDays(start), noise);
      Offset(counts, d + 1) - Offset(counts, d) == DailyTransactions(SampleDays(start)[d], noise(d))
  {
    DayCount(BaseTransactions, Season, Weekend, SampleDays(start), noise, d);
  }

  /** Row k of day d's block carries that day as YYYY-MM-DD text, the
      catalogue sale draw k makes and the id the counter gives it. */
  lemma GeneratedRow(start: Date, noise: nat -> int, draws: nat -> Draw, d: nat, k: nat)
    requires ValidDate(start) && start.year + SpanDays <= 9999 && d < SpanDays
    requires Offset(DayCounts(BaseTransactions, Season, Weekend, SampleDays(start), noise), d) <= k
      < Offset(DayCounts(BaseTransactions, Season, Weekend, SampleDays(start), noise), d + 1)
    ensures k < |GenSales(start, noise, draws)|
    ensures ValidCatalog(GenCatalog)
      && GenSales(start, noise, draws)[k] == MakeRecord(GenCatalog, SampleDays(start)[d], draws(k), CustomerId(draws, k))
    ensures Rows(GenSales(start, noise, draws))[k].date == FormatDate(SampleDays(start)[d])
  {
    var days := SampleDays(start);
    GenCatalogValid();
    BlocksEntry(GenCatalog, days, DayCounts(BaseTransactions, Season, Weekend, days, noise), draws, GenIds(draws), SpanDays, d, k);
  }

  /** Each row reads back as a sale of the catalogue: one of its category's
      products at a price in range, a quantity of 1 to 3 and the total of
      price times quantity. */
  lemma RowsInCatalog(start: Date, noise: nat -> int, draws: nat -> Draw, k: nat)
    requires ValidDate(start) && start.year + SpanDays <= 9999
    requires k < |GenSales(start, noise, draws)|
    ensures ValidCatalog(GenCatalog)
      && FromRow(Rows(GenSales(start, noise, draws))[k]).Some?
      && InCatalog(GenCatalog, FromRow(Rows(GenSales(start, noise, draws))[k]).value)
  {
    var t := GenSales(start, noise, draws);
    GenCatalogValid();
    RowRoundTrip(t[k]);
    var e := DayOfSale(start, noise, k);
    GeneratedRow(start, noise, draws, e, k);
  }

  /** Every row falls in the block of some day. */
  lemma DayOfSale(start: Date, noise: nat -> int, k: nat) returns (d: nat)
    requires ValidDate(start) && start.year + SpanDays <= 9999
    requires k < Offset(DayCounts(BaseTransactions, Season, Weekend, SampleDays(start), noise), SpanDays)
    ensures d < SpanDays
    ensures var counts := DayCounts(BaseTransactions, Season, Weekend, SampleDays(start), noise);
      Offset(counts, d) <= k < Offset(counts, d + 1)
  {
    var counts := DayCounts(BaseTransactions, Season, Weekend, SampleDays(start), noise);
    d := BlockOf(counts, SpanDays, k);
  }

  /** The rows' dates, read back, are in chronological order. */
  lemma RowsChronological(start: Date, noise: nat -> int, draws: nat -> Draw, i: nat, j: nat)
    requires ValidDate(start) && start.year + SpanDays <= 9999
    requires i < j < |GenSales(start, noise, draws)|
    ensures var rows := Rows(GenSales(start, noise, draws));
      ParseDate(rows[i].date).Some? && ParseDate(rows[j].date).Some?
      && DateLe(ParseDate(rows[i].date).value, ParseDate(rows[j].date).value)
  {
    var t := GenSales(start, noise, draws);
    var days := SampleDays(start);
    GenCatalogValid();
    BlocksSorted(GenCatalog, days, DayCounts(BaseTransactions, Season, Weekend, days, noise), draws, GenIds(draws), SpanDays);
    FormatDateRoundTrip(t[i].date);
    FormatDateRoundTrip(t[j].date);
  }

  /** The distinct customers of the generated data lie in [1000, counter]. */
  lemma GenCustomers(start: Date, noise: nat -> int, draws: nat -> Draw, x: int)
    requires ValidDate(start) && start.year + SpanDays <= 9999
    requires x in CustomerIds(GenSales(start, noise, draws))
    ensures 1000 <= x <= IdCounter(draws, |GenSales(start, noise, draws)|)
  {
    var t := GenSales(start, noise, draws);
    var days := SampleDays(start);
    GenCatalogValid();
    forall k | 0 <= k < |t| ensures t[k].customerId == CustomerId(draws, k) {
      BlocksIds(GenCatalog, days, DayCounts(BaseTransactions, Season, Weekend, days, noise), draws, GenIds(draws), SpanDays, k);
    }
    CustomersWithinCounter(t, draws, x);
  }
}
