/** What the two sample-data generators share: the random numbers one sale
    consumes, the daily transaction count, the per-day record offsets and
    the construction of one sale from a draw and a product catalogue.
    Multipliers are held in tenths and the normal noise in hundredths, so
    no floating point is needed. */
module Generation {
  import opened Dates
  import opened Sales

  /** The random numbers one transaction consumes, as raw naturals; each is
      reduced into the range of the numpy call it stands for. */
  datatype Draw = Draw(
    category: nat,   // np.random.choice(categories)
    product: nat,    // np.random.choice(products[category])
    cents: nat,      // np.random.uniform(min_price, max_price), rounded to cents
    quantity: nat,   // np.random.choice([1, 1, 1, 2, 2, 3], p=...)
    location: nat,   // np.random.choice(states)
    coin: nat,       // np.random.random(), in tenths
    returning: nat)  // np.random.randint(1000, ...)

  /** A product catalogue: category names, the products of each category,
      each category's price range in whole dollars, and the customer states. */
  datatype Catalog = Catalog(
    categories: seq<string>,
    products: seq<seq<string>>,
    prices: seq<(int, int)>,
    states: seq<string>)

  predicate ValidCatalog(c: Catalog) {
    |c.categories| > 0 && |c.products| == |c.categories| && |c.prices| == |c.categories| && |c.states| > 0
    && (forall i :: 0 <= i < |c.products| ==> |c.products[i]| > 0)
    && (forall i :: 0 <= i < |c.prices| ==> 0 <= c.prices[i].0 <= c.prices[i].1)
  }

  /** The integers lo, lo + 1, ..., hi - 1. */
  function Interval(lo: int, hi: int): (r: set<int>)
    ensures forall x :: x in r <==> lo <= x < hi
    decreases hi - lo
  {
    if hi <= lo then {} else Interval(lo, hi - 1) + {hi - 1}
  }

  /** The quantity choices; their weights are not modelled. */
  const Quantities: seq<int> := [1, 1, 1, 2, 2, 3]

  /** Whether a coin in tenths falls below a threshold in tenths
      (np.random.random() < threshold / 10). */
  predicate CoinBelow(coin: nat, tenths: nat) {
    coin % 10 < tenths
  }

  /** Python's int() of a quotient: division truncating toward zero. */
  function TruncDiv(a: int, b: int): (q: int)
    requires b > 0
    ensures a >= 0 ==> q * b <= a < q * b + b
    ensures a < 0 ==> q * b - b < a <= q * b
  {
    if a >= 0 then a / b else -((-a) / b)
  }

  /** Truncating division never reverses an order. */
  lemma TruncDivMonotone(a1: int, a2: int, b: int)
    requires b > 0 && a1 <= a2
    ensures TruncDiv(a1, b) <= TruncDiv(a2, b)
  {
    var q1, q2 := TruncDiv(a1, b), TruncDiv(a2, b);
    if a1 >= 0 {
      assert q1 * b <= a1 && a2 < q2 * b + b;
      assert (q2 + 1) * b == q2 * b + b;
      MulCancel(q1, q2 + 1, b);
    } else if a2 < 0 {
      assert q1 * b - b < a1 && a2 <= q2 * b;
      assert (q1 - 1) * b == q1 * b - b;
      MulCancel(q1 - 1, q2, b);
    } else {
      assert q1 * b < 1 * b;
      MulCancel(q1, 1, b);
      assert (-1) * b < q2 * b;
      MulCancel(-1, q2, b);
    }
  }

  lemma MulCancel(x: int, y: int, b: int)
    requires b > 0 && x * b < y * b
    ensures x < y
  {
  }

  /** The product base * season * weekend * noise at scale 10000 (season
      and weekend in tenths, noise in hundredths). */
  function Scaled(base: int, season: int, weekend: int, noise: int): int {
    base * season * weekend * noise
  }

  /** max(1, int(base * season * weekend * noise)): the whole part of the
      product when it is at least 1, and 1 otherwise (noise may be negative). */
  function DailyCount(base: int, season: int, weekend: int, noise: int): (n: int)
    ensures n >= 1
    ensures Scaled(base, season, weekend, noise) < 10000 ==> n == 1
    ensures Scaled(base, season, weekend, noise) >= 10000 ==>
      n * 10000 <= Scaled(base, season, weekend, noise) < n * 10000 + 10000
  {
    var q := TruncDiv(Scaled(base, season, weekend, noise), 10000);
    if q >= 1 then q else 1
  }

  /** A larger scaled product never gives fewer transactions. */
  lemma DailyCountMonotone(b1: int, s1: int, w1: int, n1: int, b2: int, s2: int, w2: int, n2: int)
    requires Scaled(b1, s1, w1, n1) <= Scaled(b2, s2, w2, n2)
    ensures DailyCount(b1, s1, w1, n1) <= DailyCount(b2, s2, w2, n2)
  {
    TruncDivMonotone(Scaled(b1, s1, w1, n1), Scaled(b2, s2, w2, n2), 10000);
  }

  /** With negative noise the product is never positive, so the day gets
      max(1, ...) = 1 sale. */
  lemma NegativeNoiseOneSale(base: int, season: int, weekend: int, noise: int)
    requires base >= 0 && season >= 0 && weekend >= 0 && noise < 0
    ensures Scaled(base, season, weekend, noise) <= 0
    ensures DailyCount(base, season, weekend, noise) == 1
  {
    var f := base * season * weekend;
    assert f >= 0;
    assert f * noise <= 0;
  }

  /** With non-negative noise, a larger season or weekend factor never
      gives fewer transactions. */
  lemma ScaledMonotone(base: int, s1: int, w1: int, s2: int, w2: int, noise: int)
    requires base >= 0 && noise >= 0 && 0 <= s1 <= s2 && 0 <= w1 <= w2
    ensures Scaled(base, s1, w1, noise) <= Scaled(base, s2, w2, noise)
  {
    var bn := base * noise;
    assert bn >= 0;
    assert s1 * w1 <= s2 * w1 <= s2 * w2 by {
      assert (s2 - s1) * w1 >= 0;
      assert s2 * (w2 - w1) >= 0;
    }
    assert Scaled(base, s1, w1, noise) == bn * (s1 * w1);
    assert Scaled(base, s2, w2, noise) == bn * (s2 * w2);
    assert bn * (s2 * w2 - s1 * w1) >= 0;
  }

  /** With non-negative factors, more noise never gives fewer transactions. */
  lemma ScaledMonotoneInNoise(base: int, season: int, weekend: int, n1: int, n2: int)
    requires base >= 0 && season >= 0 && weekend >= 0 && n1 <= n2
    ensures Scaled(base, season, weekend, n1) <= Scaled(base, season, weekend, n2)
  {
    var f := base * season * weekend;
    assert f >= 0;
    assert f * (n2 - n1) >= 0;
  }

  /** pd.date_range(now - 365 days, now, freq='D') holds both ends: 366 days. */
  const SpanDays: nat := 366

  /** The generated days, from start (the run's date minus 365 days) on. */
  function SampleDays(start: Date): (days: seq<Date>)
    requires ValidDate(start) && start.year + SpanDays <= 9999
    ensures |days| == SpanDays && days[0] == start
    ensures forall i :: 0 <= i < |days| ==> ValidDate(days[i]) && days[i].year < 9999
    ensures forall i :: 0 <= i < |days| - 1 ==> days[i + 1] == NextDay(days[i])
    ensures forall i, j :: 0 <= i < j < |days| ==> DateLt(days[i], days[j])
  {
    DateRange(start, SpanDays)
  }

  /** The sale count of every day, day i's from noise(i), with the season
      and weekend factors in tenths as functions of the month and weekday. */
  function DayCounts(base: int, season: int -> int, weekend: int -> int, days: seq<Date>, noise: nat -> int): (counts: seq<nat>)
    requires forall i :: 0 <= i < |days| ==> ValidDate(days[i])
    ensures |counts| == |days|
    ensures forall i :: 0 <= i < |days| ==> counts[i] >= 1
  {
    if days == [] then []
    else
      var last := |days| - 1;
      DayCounts(base, season, weekend, days[..last], noise)
        + [DailyCount(base, season(days[last].month), weekend(Weekday(days[last])), noise(last)) as nat]
  }

  /** Day i's count is the daily-count rule applied to that day and its noise. */
  lemma {:induction false} DayCount(base: int, season: int -> int, weekend: int -> int, days: seq<Date>, noise: nat -> int, i: nat)
    requires forall i :: 0 <= i < |days| ==> ValidDate(days[i])
    requires i < |days|
    ensures DayCounts(base, season, weekend, days, noise)[i]
      == DailyCount(base, season(days[i].month), weekend(Weekday(days[i])), noise(i))
  {
    var last := |days| - 1;
    if i < last {
      DayCount(base, season, weekend, days[..last], noise, i);
    }
  }

  /** The index of the first record of day d: the counts of the days before it. */
  function Offset(counts: seq<nat>, d: nat): nat
    requires d <= |counts|
  {
    if d == 0 then 0 else Offset(counts, d - 1) + counts[d - 1]
  }

  /** With at least one transaction a day, the offsets grow strictly and
      day d starts at or after record d. */
  lemma {:induction false} OffsetGrows(counts: seq<nat>, d: nat, e: nat)
    requires forall i :: 0 <= i < |counts| ==> counts[i] >= 1
    requires d <= e <= |counts|
    ensures Offset(counts, d) + (e - d) <= Offset(counts, e)
    ensures Offset(counts, d) >= d
  {
    if e > d {
      OffsetGrows(counts, d, e - 1);
    }
    if d > 0 {
      OffsetGrows(counts, d - 1, d - 1);
    }
  }

  /** The sale a draw produces on a day for a customer: the category, the
      product within it, the price in cents within the category's range
      (np.random.uniform rounded to cents, both ends reachable), the
      quantity and the state. */
  function MakeRecord(c: Catalog, day: Date, r: Draw, customerId: int): (t: Transaction)
    requires ValidCatalog(c)
    ensures t.date == day && t.customerId == customerId
    ensures InCatalog(c, t)
  {
    var ci := r.category % |c.categories|;
    var products := c.products[ci];
    var (lo, hi) := c.prices[ci];
    var price := lo * 100 + r.cents % ((hi - lo) * 100 + 1);
    var quantity := Quantities[r.quantity % |Quantities|];
    Transaction(day, products[r.product % |products|], c.categories[ci], quantity,
      price, price * quantity, customerId, c.states[r.location % |c.states|])
  }

  /** A sale the catalogue can produce: a listed category with one of its own
      products, a price within that category's range, a quantity of 1, 2 or
      3, a total of price times quantity, and a listed state. */
  predicate InCatalog(c: Catalog, t: Transaction)
    requires ValidCatalog(c)
  {
    (exists ci :: 0 <= ci < |c.categories| && t.category == c.categories[ci]
      && t.productName in c.products[ci]
      && c.prices[ci].0 * 100 <= t.unitPrice <= c.prices[ci].1 * 100)
    && 1 <= t.quantity <= 3
    && t.totalAmount == t.unitPrice * t.quantity
    && t.customerLocation in c.states
  }

  /** Offsets never decrease. */
  lemma {:induction false} OffsetMonotone(counts: seq<nat>, d: nat, e: nat)
    requires d <= e <= |counts|
    ensures Offset(counts, d) <= Offset(counts, e)
    decreases e
  {
    if d < e {
      OffsetMonotone(counts, d, e - 1);
    }
  }

  /** The day whose block holds record k. */
  lemma {:induction false} BlockOf(counts: seq<nat>, d: nat, k: nat) returns (e: nat)
    requires d <= |counts| && k < Offset(counts, d)
    ensures e < d && Offset(counts, e) <= k < Offset(counts, e + 1)
  {
    if k >= Offset(counts, d - 1) {
      e := d - 1;
    } else {
      e := BlockOf(counts, d - 1, k);
    }
  }

  /** The n sales one day gets: sale first + i is built from draw first + i
      and customer ids(first + i). */
  function DayBlock(c: Catalog, day: Date, first: nat, n: nat, draws: nat -> Draw, ids: nat -> int): (b: Table)
    requires ValidCatalog(c)
    ensures |b| == n && forall i :: 0 <= i < n ==> b[i].date == day
  {
    var b := seq(n, i requires 0 <= i < n => MakeRecord(c, day, draws(first + i), ids(first + i)));
    assert forall i :: 0 <= i < n ==> b[i] == MakeRecord(c, day, draws(first + i), ids(first + i));
    b
  }

  /** The sales of the first d days: each day's block of counts[d] sales
      after the blocks of the days before it. */
  function Blocks(c: Catalog, days: seq<Date>, counts: seq<nat>, draws: nat -> Draw, ids: nat -> int, d: nat): (t: Table)
    requires ValidCatalog(c) && |counts| == |days| && d <= |days|
    requires forall i :: 0 <= i < |days| ==> ValidDate(days[i])
    ensures |t| == Offset(counts, d)
    ensures forall k :: 0 <= k < |t| ==> ValidDate(t[k].date)
  {
    if d == 0 then []
    else Blocks(c, days, counts, draws, ids, d - 1) + DayBlock(c, days[d - 1], Offset(counts, d - 1), counts[d - 1], draws, ids)
  }

  /** Sale k of day e's block is built from draw k, customer ids(k) and the
      catalogue, dated day e. */
  lemma {:induction false} BlocksEntry(c: Catalog, days: seq<Date>, counts: seq<nat>, draws: nat -> Draw, ids: nat -> int, d: nat, e: nat, k: nat)
    requires ValidCatalog(c) && |counts| == |days| && e < d <= |days|
    requires forall i :: 0 <= i < |days| ==> ValidDate(days[i])
    requires Offset(counts, e) <= k < Offset(counts, e + 1)
    ensures k < |Blocks(c, days, counts, draws, ids, d)|
    ensures Blocks(c, days, counts, draws, ids, d)[k] == MakeRecord(c, days[e], draws(k), ids(k))
  {
    var prev := Blocks(c, days, counts, draws, ids, d - 1);
    if e < d - 1 {
      BlocksEntry(c, days, counts, draws, ids, d - 1, e, k);
    } else {
      var i := k - Offset(counts, d - 1);
      assert Blocks(c, days, counts, draws, ids, d)[k] == DayBlock(c, days[d - 1], Offset(counts, d - 1), counts[d - 1], draws, ids)[i];
    }
  }

  /** Every sale is dated one of the days. */
  lemma {:induction false} BlocksDates(c: Catalog, days: seq<Date>, counts: seq<nat>, draws: nat -> Draw, ids: nat -> int, d: nat, k: nat)
    requires ValidCatalog(c) && |counts| == |days| && d <= |days|
    requires forall i :: 0 <= i < |days| ==> ValidDate(days[i])
    requires k < |Blocks(c, days, counts, draws, ids, d)|
    ensures exists e :: 0 <= e < d && Blocks(c, days, counts, draws, ids, d)[k].date == days[e]
  {
    var prev := Blocks(c, days, counts, draws, ids, d - 1);
    var block := DayBlock(c, days[d - 1], Offset(counts, d - 1), counts[d - 1], draws, ids);
    if k < |prev| {
      BlocksDates(c, days, counts, draws, ids, d - 1, k);
      assert Blocks(c, days, counts, draws, ids, d)[k] == prev[k];
    } else {
      var i := k - |prev|;
      assert Blocks(c, days, counts, draws, ids, d)[k] == block[i];
      assert block[i] == MakeRecord(c, days[d - 1], draws(k), ids(k));
    }
  }

  /** Sale k carries customer ids(k). */
  lemma {:induction false} BlocksIds(c: Catalog, days: seq<Date>, counts: seq<nat>, draws: nat -> Draw, ids: nat -> int, d: nat, k: nat)
    requires ValidCatalog(c) && |counts| == |days| && d <= |days|
    requires forall i :: 0 <= i < |days| ==> ValidDate(days[i])
    requires k < |Blocks(c, days, counts, draws, ids, d)|
    ensures Blocks(c, days, counts, draws, ids, d)[k].customerId == ids(k)
  {
    var prev := Blocks(c, days, counts, draws, ids, d - 1);
    if k < |prev| {
      BlocksIds(c, days, counts, draws, ids, d - 1, k);
      assert Blocks(c, days, counts, draws, ids, d)[k] == prev[k];
    } else {
      var i := k - |prev|;
      var block := DayBlock(c, days[d - 1], Offset(counts, d - 1), counts[d - 1], draws, ids);
      assert Blocks(c, days, counts, draws, ids, d)[k] == block[i];
      assert block[i] == MakeRecord(c, days[d - 1], draws(k), ids(k));
    }
  }

  /** Appending a day's block keeps a table in date order, provided every
      earlier sale falls before that day. */
  lemma ExtendSorted(t: Table, b: Table, day: Date)
    requires Chronological(t)
    requires forall i :: 0 <= i < |t| ==> DateLt(t[i].date, day)
    requires forall k :: 0 <= k < |b| ==> b[k].date == day
    ensures Chronological(t + b)
  {
    var u := t + b;
    forall i, j | 0 <= i < j < |u| ensures DateLe(u[i].date, u[j].date) {
      if j < |t| {
        assert u[i] == t[i] && u[j] == t[j];
      } else if i < |t| {
        assert u[i] == t[i] && u[j] == b[j - |t|];
      } else {
        assert u[i] == b[i - |t|] && u[j] == b[j - |t|];
      }
    }
  }

  /** With the days in increasing order, the sales are in date order. */
  lemma {:induction false} BlocksSorted(c: Catalog, days: seq<Date>, counts: seq<nat>, draws: nat -> Draw, ids: nat -> int, d: nat)
    requires ValidCatalog(c) && |counts| == |days| && d <= |days|
    requires forall i :: 0 <= i < |days| ==> ValidDate(days[i])
    requires forall i, j :: 0 <= i < j < |days| ==> DateLt(days[i], days[j])
    ensures Chronological(Blocks(c, days, counts, draws, ids, d))
  {
    if d > 0 {
      var prev := Blocks(c, days, counts, draws, ids, d - 1);
      var block := DayBlock(c, days[d - 1], Offset(counts, d - 1), counts[d - 1], draws, ids);
      BlocksSorted(c, days, counts, draws, ids, d - 1);
      forall i | 0 <= i < |prev| ensures DateLt(prev[i].date, days[d - 1]) {
        BlocksDates(c, days, counts, draws, ids, d - 1, i);
        var e :| 0 <= e < d - 1 && prev[i].date == days[e];
        assert DateLt(days[e], days[d - 1]);
      }
      forall k | 0 <= k < |block| ensures block[k].date == days[d - 1] {
        assert block[k] == MakeRecord(c, days[d - 1], draws(Offset(counts, d - 1) + k), ids(Offset(counts, d - 1) + k));
      }
      ExtendSorted(prev, block, days[d - 1]);
    }
  }
}
