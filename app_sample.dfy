/** The dashboard's built-in sample data (load_sample_data): one year of
    days, a seasonal and weekend-dependent number of sales per day, and a
    customer-id counter that mints new ids and reuses earlier ones. */
module AppSampleData {
  import opened Dates
  import opened Sales
  import opened Generation

  const AppCatalog: Catalog := Catalog(
    ["Electronics", "Clothing", "Home & Garden", "Sports", "Books", "Beauty"],
    [["Smartphone", "Laptop", "Headphones", "Tablet", "Smart Watch"],
     ["T-Shirt", "Jeans", "Sneakers", "Jacket", "Dress"],
     ["Coffee Maker", "Plant Pot", "Bed Sheets", "Lamp", "Vacuum"],
     ["Running Shoes", "Yoga Mat", "Dumbbell", "Basketball", "Bicycle"],
     ["Fiction Novel", "Cookbook", "Self-Help", "Biography", "Textbook"],
     ["Moisturizer", "Lipstick", "Shampoo", "Sunscreen", "Perfume"]],
    [(50, 1200), (15, 150), (10, 300), (20, 400), (8, 50), (5, 80)],
    ["CA", "TX", "FL", "NY", "PA", "IL", "OH", "GA", "NC", "MI",
     "NJ", "VA", "WA", "AZ", "MA", "TN", "IN", "MO", "MD", "WI"])

  lemma AppCatalogValid()
    ensures ValidCatalog(AppCatalog)
  {
  }

  /** The number of sales on an average weekday outside the seasons. */
  const BaseTransactions: int := 15

  /** The seasonal multiplier in tenths: 1.5 in the holiday months, 0.7 in
      the two months after them, 1.0 otherwise. */
  function Season(month: int): (s: int)
    ensures s == 15 <==> month == 11 || month == 12
    ensures s == 7 <==> month == 1 || month == 2
    ensures s == 10 <==> !(month in {1, 2, 11, 12})
    ensures 7 <= s <= 15
  {
    if month == 11 || month == 12 then 15
    else if month == 1 || month == 2 then 7
    else 10
  }

  /** The weekend multiplier in tenths: 1.2 on Saturday and Sunday. */
  function Weekend(weekday: int): (w: int)
    ensures w == 12 <==> weekday >= 5
    ensures w == 10 <==> weekday < 5
  {
    if weekday >= 5 then 12 else 10
  }

  /** The number of sales on a day, given that day's noise in hundredths. */
  function DailyTransactions(day: Date, noise: int): (n: int)
    requires ValidDate(day)
    ensures n >= 1
  {
    DailyCount(BaseTransactions, Season(day.month), Weekend(Weekday(day)), noise)
  }

  /** For the same noise and the same kind of day, a holiday month has at
      least as many sales as any other month, and January and February have
      no more than any other. */
  lemma SeasonOrder(a: Date, b: Date, noise: int)
    requires ValidDate(a) && ValidDate(b)
    requires Weekend(Weekday(a)) == Weekend(Weekday(b))
    ensures a.month >= 11 ==> DailyTransactions(a, noise) >= DailyTransactions(b, noise)
    ensures a.month <= 2 ==> DailyTransactions(a, noise) <= DailyTransactions(b, noise)
  {
    var w := Weekend(Weekday(a));
    if noise < 0 {
      NegativeNoiseOneSale(BaseTransactions, Season(a.month), w, noise);
      NegativeNoiseOneSale(BaseTransactions, Season(b.month), w, noise);
      return;
    }
    if a.month >= 11 {
      ScaledMonotone(BaseTransactions, Season(b.month), w, Season(a.month), w, noise);
      DailyCountMonotone(BaseTransactions, Season(b.month), w, noise, BaseTransactions, Season(a.month), w, noise);
    }
    if a.month <= 2 {
      ScaledMonotone(BaseTransactions, Season(a.month), w, Season(b.month), w, noise);
      DailyCountMonotone(BaseTransactions, Season(a.month), w, noise, BaseTransactions, Season(b.month), w, noise);
    }
  }

  /** For the same noise and month, a weekend day has at least as many
      sales as a weekday. */
  lemma WeekendNeverFewer(a: Date, b: Date, noise: int)
    requires ValidDate(a) && ValidDate(b) && a.month == b.month
    requires Weekday(a) >= 5
    ensures DailyTransactions(a, noise) >= DailyTransactions(b, noise)
  {
    var s := Season(a.month);
    if noise < 0 {
      NegativeNoiseOneSale(BaseTransactions, s, Weekend(Weekday(a)), noise);
      NegativeNoiseOneSale(BaseTransactions, s, Weekend(Weekday(b)), noise);
      return;
    }
    ScaledMonotone(BaseTransactions, s, Weekend(Weekday(b)), s, Weekend(Weekday(a)), noise);
    DailyCountMonotone(BaseTransactions, s, Weekend(Weekday(b)), noise, BaseTransactions, s, Weekend(Weekday(a)), noise);
  }

  /** More noise on a day never gives fewer sales. */
  lemma MoreNoiseNeverFewer(day: Date, n1: int, n2: int)
    requires ValidDate(day) && n1 <= n2
    ensures DailyTransactions(day, n1) <= DailyTransactions(day, n2)
  {
    var s, w := Season(day.month), Weekend(Weekday(day));
    ScaledMonotoneInNoise(BaseTransactions, s, w, n1, n2);
    DailyCountMonotone(BaseTransactions, s, w, n1, BaseTransactions, s, w, n2);
  }

  // ---- customer ids ----

  /** A draw mints a new id with probability 0.3, and always while no id
      has been minted yet. */
  predicate Mints(draws: nat -> Draw, k: nat)
    decreases k, 1
  {
    CoinBelow(draws(k).coin, 3) || Counter(draws, k) <= 1000
  }

  /** customer_id_counter before sale k: 1000 plus the ids minted so far. */
  function Counter(draws: nat -> Draw, k: nat): (c: int)
    ensures c >= 1000
    decreases k, 0
  {
    if k == 0 then 1000 else Counter(draws, k - 1) + (if Mints(draws, k - 1) then 1 else 0)
  }

  /** The customer of sale k: the counter itself when minting, otherwise
      np.random.randint(1000, counter), an id in [1000, counter). */
  function CustomerId(draws: nat -> Draw, k: nat): int {
    var c := Counter(draws, k);
    if Mints(draws, k) then c else 1000 + draws(k).returning % (c - 1000)
  }

  /** The ids minted by the sales before k. */
  function MintedBefore(draws: nat -> Draw, k: nat): set<int> {
    set j: nat | j < k && Mints(draws, j) :: CustomerId(draws, j)
  }

  /** The first sale always mints id 1000, whatever its coin. */
  lemma FirstCustomerIs1000(draws: nat -> Draw)
    ensures Mints(draws, 0) && CustomerId(draws, 0) == 1000 && Counter(draws, 1) == 1001
  {
  }

  /** The counter never decreases. */
  lemma {:induction false} CounterMonotone(draws: nat -> Draw, i: nat, j: nat)
    requires i <= j
    ensures Counter(draws, i) <= Counter(draws, j)
    decreases j
  {
    if i < j {
      CounterMonotone(draws, i, j - 1);
    }
  }

  lemma MintedBeforeStep(draws: nat -> Draw, k: nat)
    ensures MintedBefore(draws, k + 1) == MintedBefore(draws, k) + (if Mints(draws, k) then {CustomerId(draws, k)} else {})
  {
    var a, b := MintedBefore(draws, k + 1), MintedBefore(draws, k) + (if Mints(draws, k) then {CustomerId(draws, k)} else {});
    forall x | x in a ensures x in b {
      var j: nat :| j < k + 1 && Mints(draws, j) && CustomerId(draws, j) == x;
      if j < k {
        assert x in MintedBefore(draws, k);
      }
    }
  }

  /** The ids minted before sale k are exactly 1000 up to the counter. */
  lemma {:induction false} MintedAreConsecutive(draws: nat -> Draw, k: nat)
    ensures MintedBefore(draws, k) == Interval(1000, Counter(draws, k))
  {
    if k > 0 {
      MintedAreConsecutive(draws, k - 1);
      MintedBeforeStep(draws, k - 1);
    }
  }

  /** Every id lies in [1000, counter) once it is assigned. */
  lemma IdRange(draws: nat -> Draw, k: nat)
    ensures 1000 <= CustomerId(draws, k) < Counter(draws, k + 1)
  {
  }

  /** A returning customer's id was minted by an earlier sale. */
  lemma ReturningWasMinted(draws: nat -> Draw, k: nat)
    requires !Mints(draws, k)
    ensures CustomerId(draws, k) in MintedBefore(draws, k)
  {
    MintedAreConsecutive(draws, k);
    var c := CustomerId(draws, k);
    assert 1000 <= c < Counter(draws, k);
  }

  /** A newly minted id exceeds every id assigned before it. */
  lemma NewIdAboveEarlier(draws: nat -> Draw, k: nat, j: nat)
    requires Mints(draws, k) && j < k
    ensures CustomerId(draws, j) < CustomerId(draws, k)
  {
    IdRange(draws, j);
    CounterMonotone(draws, j + 1, k);
  }

  // ---- the generator ----

  /** The sale a draw produces on a day for a customer. */
  function AppRecord(day: Date, r: Draw, customerId: int): (t: Transaction)
    ensures t.date == day && t.customerId == customerId
    ensures ValidCatalog(AppCatalog) && InCatalog(AppCatalog, t)
  {
    AppCatalogValid();
    MakeRecord(AppCatalog, day, r, customerId)
  }

  /** The customer id of every sale, as the counter assigns it. */
  function AppIds(draws: nat -> Draw): nat -> int {
    (k: nat) => CustomerId(draws, k)
  }

  /** The inner loop of load_sample_data: n more sales on one day, sale k
      built from draw k, with the counter minting or reusing ids. */
  method DaySales(cat: Catalog, sales: Table, counter: int, day: Date, n: nat, draws: nat -> Draw)
    returns (out: Table, next: int)
    requires ValidCatalog(cat) && counter == Counter(draws, |sales|)
    ensures out == sales + DayBlock(cat, day, |sales|, n, draws, AppIds(draws))
    ensures next == Counter(draws, |out|)
  {
    out, next := sales, counter;
    var j := 0;
    while j < n
      invariant 0 <= j <= n && out == sales + DayBlock(cat, day, |sales|, j, draws, AppIds(draws))
      invariant next == Counter(draws, |out|)
    {
      var r := draws(|out|);
      var customerId;
      if CoinBelow(r.coin, 3) || next <= 1000 {
        customerId := next;
        next := next + 1;
      } else {
        customerId := 1000 + r.returning % (next - 1000);
      }
      assert |out| == |sales| + j && customerId == CustomerId(draws, |out|);
      assert DayBlock(cat, day, |sales|, j + 1, draws, AppIds(draws)) == DayBlock(cat, day, |sales|, j, draws, AppIds(draws)) + [MakeRecord(cat, day, r, customerId)];
      out := out + [MakeRecord(cat, day, r, customerId)];
      j := j + 1;
    }
  }

  /** The sales of load_sample_data for a start day, daily noise and draws. */
  function AppSales(start: Date, noise: nat -> int, draws: nat -> Draw): (t: Table)
    requires ValidDate(start) && start.year + SpanDays <= 9999
  {
    AppCatalogValid();
    var days := SampleDays(start);
    Blocks(AppCatalog, days, DayCounts(BaseTransactions, Season, Weekend, days, noise), draws, AppIds(draws), SpanDays)
  }

  /** load_sample_data, with the run's start day (the current day minus 365
      days), the daily noise and the per-sale draws as inputs. */
  method LoadSampleData(start: Date, noise: nat -> int, draws: nat -> Draw) returns (sales: Table)
    requires ValidDate(start) && start.year + SpanDays <= 9999
    ensures sales == AppSales(start, noise, draws)
  {
    var days := SampleDays(start);
    ghost var counts := DayCounts(BaseTransactions, Season, Weekend, days, noise);
    AppCatalogValid();
    sales := [];
    var counter := 1000;
    var d := 0;
    while d < |days|
      invariant 0 <= d <= |days|
      invariant sales == Blocks(AppCatalog, days, counts, draws, AppIds(draws), d)
      invariant |sales| == Offset(counts, d)
      invariant counter == Counter(draws, |sales|)
    {
      var day := days[d];
      var seasonal := Season(day.month);
      var weekend := Weekend(Weekday(day));
      var n := DailyCount(BaseTransactions, seasonal, weekend, noise(d));
      DayCount(BaseTransactions, Season, Weekend, days, noise, d);
      sales, counter := DaySales(AppCatalog, sales, counter, day, n, draws);
      d := d + 1;
    }
  }

  /** One block of at least one sale per day: 366 days give at least 366 sales. */
  lemma AppSalesLength(start: Date, noise: nat -> int, draws: nat -> Draw)
    requires ValidDate(start) && start.year + SpanDays <= 9999
    ensures |AppSales(start, noise, draws)| == Offset(DayCounts(BaseTransactions, Season, Weekend, SampleDays(start), noise), SpanDays)
    ensures |AppSales(start, noise, draws)| >= SpanDays
  {
    var days := SampleDays(start);
    var counts := DayCounts(BaseTransactions, Season, Weekend, days, noise);
    AppCatalogValid();
    OffsetGrows(counts, 0, SpanDays);
  }

  /** The sales of day d are the records Offset(counts, d) up to
      Offset(counts, d + 1); sale k is dated day d and built from draw k and
      the customer id the counter gives it. */
  lemma AppSalesDay(start: Date, noise: nat -> int, draws: nat -> Draw, d: nat, k: nat)
    requires ValidDate(start) && start.year + SpanDays <= 9999 && d < SpanDays
    requires Offset(DayCounts(BaseTransactions, Season, Weekend, SampleDays(start), noise), d) <= k < Offset(DayCounts(BaseTransactions, Season, Weekend, SampleDays(start), noise), d + 1)
    ensures k < |AppSales(start, noise, draws)|
    ensures AppSales(start, noise, draws)[k] == AppRecord(SampleDays(start)[d], draws(k), CustomerId(draws, k))
    ensures AppSales(start, noise, draws)[k].date == SampleDays(start)[d]
  {
    var days := SampleDays(start);
    AppCatalogValid();
    BlocksEntry(AppCatalog, days, DayCounts(BaseTransactions, Season, Weekend, days, noise), draws, AppIds(draws), SpanDays, d, k);
  }

  /** Every sale is a catalogue sale: a listed category and one of its
      products, a price within the category's range, a quantity of 1 to 3,
      a total of price times quantity and a listed state. */
  lemma AppSalesInCatalog(start: Date, noise: nat -> int, draws: nat -> Draw, k: nat)
    requires ValidDate(start) && start.year + SpanDays <= 9999
    requires k < |AppSales(start, noise, draws)|
    ensures ValidCatalog(AppCatalog) && InCatalog(AppCatalog, AppSales(start, noise, draws)[k])
  {
    var counts := DayCounts(BaseTransactions, Season, Weekend, SampleDays(start), noise);
    AppSalesLength(start, noise, draws);
    var d := BlockOf(counts, SpanDays, k);
    AppSalesDay(start, noise, draws, d, k);
  }

  /** Day d's block holds exactly that day's DailyTransactions sales. */
  lemma AppSalesPerDay(start: Date, noise: nat -> int, d: nat)
    requires ValidDate(start) && start.year + SpanDays <= 9999 && d < SpanDays
    ensures var counts := DayCounts(BaseTransactions, Season, Weekend, SampleDays(start), noise);
      Offset(counts, d + 1) - Offset(counts, d) == DailyTransactions(SampleDays(start)[d], noise(d))
  {
    DayCount(BaseTransactions, Season, Weekend, SampleDays(start), noise, d);
  }

  /** The sales come out in date order. */
  lemma AppSalesChronological(start: Date, noise: nat -> int, draws: nat -> Draw)
    requires ValidDate(start) && start.year + SpanDays <= 9999
    ensures Chronological(AppSales(start, noise, draws))
  {
    var days := SampleDays(start);
    AppCatalogValid();
    BlocksSorted(AppCatalog, days, DayCounts(BaseTransactions, Season, Weekend, days, noise), draws, AppIds(draws), SpanDays);
  }

  /** A table whose sale k has the counter's customer id for k holds exactly
      the ids 1000 up to the final counter. */
  lemma CustomersAreMinted(t: Table, draws: nat -> Draw)
    requires forall k :: 0 <= k < |t| ==> t[k].customerId == CustomerId(draws, k)
    ensures CustomerIds(t) == Interval(1000, Counter(draws, |t|))
  {
    forall x | x in CustomerIds(t) ensures x in Interval(1000, Counter(draws, |t|)) {
      CustomerWasMinted(t, draws, x);
    }
    forall x | x in Interval(1000, Counter(draws, |t|)) ensures x in CustomerIds(t) {
      MintedIsCustomer(t, draws, x);
    }
  }

  lemma CustomerWasMinted(t: Table, draws: nat -> Draw, x: int)
    requires forall k :: 0 <= k < |t| ==> t[k].customerId == CustomerId(draws, k)
    requires x in CustomerIds(t)
    ensures 1000 <= x < Counter(draws, |t|)
  {
    var k :| 0 <= k < |t| && t[k].customerId == x;
    IdRange(draws, k);
    CounterMonotone(draws, k + 1, |t|);
  }

  lemma MintedIsCustomer(t: Table, draws: nat -> Draw, x: int)
    requires forall k :: 0 <= k < |t| ==> t[k].customerId == CustomerId(draws, k)
    requires 1000 <= x < Counter(draws, |t|)
    ensures x in CustomerIds(t)
  {
    MintedAreConsecutive(draws, |t|);
    assert x in MintedBefore(draws, |t|);
    var j: nat :| j < |t| && Mints(draws, j) && CustomerId(draws, j) == x;
    assert t[j].customerId == x;
  }

  /** The sample data's customers are exactly the ids 1000 up to the final
      counter: every minted id is used and no other id appears. */
  lemma AppSalesCustomers(start: Date, noise: nat -> int, draws: nat -> Draw)
    requires ValidDate(start) && start.year + SpanDays <= 9999
    ensures CustomerIds(AppSales(start, noise, draws)) == Interval(1000, Counter(draws, |AppSales(start, noise, draws)|))
  {
    var days := SampleDays(start);
    var t := AppSales(start, noise, draws);
    AppCatalogValid();
    forall k | 0 <= k < |t| ensures t[k].customerId == CustomerId(draws, k) {
      BlocksIds(AppCatalog, days, DayCounts(BaseTransactions, Season, Weekend, days, noise), draws, AppIds(draws), SpanDays, k);
    }
    CustomersAreMinted(t, draws);
  }
}
