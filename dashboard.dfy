/** The table transformations behind the dashboard: the date-range filter,
    the chart aggregations, the rankings and the KPI summary. */
module Dashboard {
  import opened Dates
  import opened Sales
  import opened Grouping

  function Min(a: int, b: int): int {
    if a <= b then a else b
  }

  // ---- columns used as group keys ----

  function DateOf(r: Transaction): Date { r.date }
  function CategoryOf(r: Transaction): string { r.category }
  function ProductOf(r: Transaction): string { r.productName }
  function LocationOf(r: Transaction): string { r.customerLocation }
  /** The month column that process_data derives from the date. */
  function MonthOfRow(r: Transaction): Month { MonthOf(r.date) }

  // ---- date-range filter ----

  predicate InRange(d: Date, start: Date, end: Date) {
    DateLe(start, d) && DateLe(d, end)
  }

  /** The rows whose day lies in [start, end], both ends included. */
  function FilterByDate(t: Table, start: Date, end: Date): (r: Table)
    ensures |r| <= |t|
    ensures forall i :: 0 <= i < |r| ==> InRange(r[i].date, start, end)
  {
    if t == [] then []
    else (if InRange(t[0].date, start, end) then [t[0]] else []) + FilterByDate(t[1..], start, end)
  }

  /** Every row in range is kept as often as it occurs, and no other row is. */
  lemma {:induction false} FilterByDateCounts(t: Table, start: Date, end: Date)
    ensures forall x :: multiset(FilterByDate(t, start, end))[x] == if InRange(x.date, start, end) then multiset(t)[x] else 0
  {
    if t != [] {
      assert t == [t[0]] + t[1..];
      FilterByDateCounts(t[1..], start, end);
    }
  }

  /** Filtering keeps the original row order: it distributes over concatenation. */
  lemma {:induction false} FilterKeepsOrder(a: Table, b: Table, start: Date, end: Date)
    ensures FilterByDate(a + b, start, end) == FilterByDate(a, start, end) + FilterByDate(b, start, end)
  {
    if a == [] {
      assert a + b == b;
    } else {
      assert (a + b)[0] == a[0] && (a + b)[1..] == a[1..] + b;
      FilterKeepsOrder(a[1..], b, start, end);
    }
  }

  /** A range that covers every row keeps the table unchanged. */
  lemma {:induction false} FilterCoveringRange(t: Table, start: Date, end: Date)
    requires forall i :: 0 <= i < |t| ==> InRange(t[i].date, start, end)
    ensures FilterByDate(t, start, end) == t
  {
    if t != [] {
      FilterCoveringRange(t[1..], start, end);
    }
  }

  /** The earliest day in a non-empty table (df['date'].min()). */
  function MinDate(t: Table): (d: Date)
    requires |t| > 0
    ensures exists i :: 0 <= i < |t| && t[i].date == d
    ensures forall i :: 0 <= i < |t| ==> DateLe(d, t[i].date)
  {
    if |t| == 1 then t[0].date
    else
      var m := MinDate(t[1..]);
      assert forall i :: 1 <= i < |t| ==> t[i] == t[1..][i - 1];
      if DateLe(t[0].date, m) then t[0].date else m
  }

  /** The latest day in a non-empty table (df['date'].max()). */
  function MaxDate(t: Table): (d: Date)
    requires |t| > 0
    ensures exists i :: 0 <= i < |t| && t[i].date == d
    ensures forall i :: 0 <= i < |t| ==> DateLe(t[i].date, d)
  {
    if |t| == 1 then t[0].date
    else
      var m := MaxDate(t[1..]);
      assert forall i :: 1 <= i < |t| ==> t[i] == t[1..][i - 1];
      if DateLe(m, t[0].date) then t[0].date else m
  }

  /** The date widget's initial value: the table's own first and last day. */
  function DefaultSelection(t: Table): (sel: seq<Date>)
    ensures t != [] ==> |sel| == 2 && sel[0] == MinDate(t) && sel[1] == MaxDate(t)
    ensures t != [] ==> DateLe(sel[0], sel[1])
  {
    if t == [] then [] else [MinDate(t), MaxDate(t)]
  }

  /** The sidebar filter: an empty table is left alone, and so is a
      selection that does not have both ends yet. */
  function SelectDateRange(t: Table, selection: seq<Date>): (r: Table)
    ensures t == [] || |selection| != 2 ==> r == t
    ensures t != [] && |selection| == 2 ==>
      |r| <= |t| && forall i :: 0 <= i < |r| ==> InRange(r[i].date, selection[0], selection[1])
    ensures t != [] && |selection| == 2 ==> r == FilterByDate(t, selection[0], selection[1])
  {
    if t != [] && |selection| == 2 then FilterByDate(t, selection[0], selection[1]) else t
  }

  /** Filtering with the table's own span returns the table row for row. */
  lemma DefaultSelectionKeepsAll(t: Table)
    ensures SelectDateRange(t, DefaultSelection(t)) == t
  {
    if t != [] {
      FilterCoveringRange(t, MinDate(t), MaxDate(t));
    }
  }

  // ---- group orders ----

  predicate DateKeyLe(a: Group<Date>, b: Group<Date>) { DateLe(a.0, b.0) }
  predicate MonthKeyLe(a: Group<Month>, b: Group<Month>) { MonthLe(a.0, b.0) }
  predicate ByValueAscending(a: Group<string>, b: Group<string>) { a.1 <= b.1 }
  predicate ByValueDescending(a: Group<string>, b: Group<string>) { a.1 >= b.1 }

  lemma DateKeyOrder() ensures TotalPreorder(DateKeyLe) { DateLeIsTotalOrder(); }
  lemma MonthKeyOrder() ensures TotalPreorder(MonthKeyLe) { MonthLeIsTotalOrder(); }
  lemma AscendingOrder() ensures TotalPreorder(ByValueAscending) { }
  lemma DescendingOrder() ensures TotalPreorder(ByValueDescending) { }

  /** An entry of a sorted grouping is an entry of the grouping, so it holds
      the revenue of its key. */
  lemma SortedEntry<K(!new)>(t: Table, key: Transaction -> K, le: (Group<K>, Group<K>) -> bool, i: nat)
    requires TotalPreorder(le)
    requires i < |Sort(GroupSum(t, key), le)|
    ensures Sort(GroupSum(t, key), le)[i].0 in KeysOf(t, key)
    ensures Sort(GroupSum(t, key), le)[i].1 == RevenueWhere(t, key, Sort(GroupSum(t, key), le)[i].0)
  {
    var g := GroupSum(t, key);
    var e := Sort(g, le)[i];
    SortMembers(g, le);
    assert e in g;
    var m :| 0 <= m < |g| && g[m] == e;
    GroupSumEntry(t, key, m);
  }

  /** Facts shared by every sorted grouping: the keys, their values, their
      number and the total. */
  lemma SortedGrouping<K(!new)>(t: Table, key: Transaction -> K, le: (Group<K>, Group<K>) -> bool)
    requires TotalPreorder(le)
    ensures DistinctKeys(Sort(GroupSum(t, key), le))
    ensures KeySet(Sort(GroupSum(t, key), le)) == KeysOf(t, key)
    ensures |Sort(GroupSum(t, key), le)| == |KeysOf(t, key)|
    ensures SumValues(Sort(GroupSum(t, key), le)) == TotalRevenue(t)
    ensures SortedBy(Sort(GroupSum(t, key), le), le)
    ensures forall i :: 0 <= i < |Sort(GroupSum(t, key), le)| ==>
      Sort(GroupSum(t, key), le)[i].1 == RevenueWhere(t, key, Sort(GroupSum(t, key), le)[i].0)
  {
    var groups := GroupSum(t, key);
    SortGroups(groups, le);
    DistinctKeysCount(groups);
    forall i | 0 <= i < |Sort(groups, le)|
      ensures Sort(groups, le)[i].1 == RevenueWhere(t, key, Sort(groups, le)[i].0)
    {
      SortedEntry(t, key, le, i);
    }
  }

  // ---- aggregation views ----

  /** Daily sales for the trend line (df.groupby('date') sums, in key order). */
  function SalesByDate(t: Table): seq<Group<Date>> {
    DateKeyOrder();
    Sort(GroupSum(t, DateOf), DateKeyLe)
  }

  /** One entry per day present, in chronological order, each holding that
      day's revenue; together they add up to the whole revenue. */
  lemma SalesByDateFacts(t: Table)
    ensures forall i, j :: 0 <= i < j < |SalesByDate(t)| ==> DateLt(SalesByDate(t)[i].0, SalesByDate(t)[j].0)
    ensures KeySet(SalesByDate(t)) == KeysOf(t, DateOf)
    ensures forall i :: 0 <= i < |SalesByDate(t)| ==> SalesByDate(t)[i].1 == RevenueWhere(t, DateOf, SalesByDate(t)[i].0)
    ensures SumValues(SalesByDate(t)) == TotalRevenue(t)
  {
    DateKeyOrder();
    SortedGrouping(t, DateOf, DateKeyLe);
  }

  /** Sales per category for the pie chart. */
  function SalesByCategory(t: Table): seq<Group<string>> {
    GroupSum(t, CategoryOf)
  }

  /** One entry per category present, each holding that category's revenue;
      together they add up to the whole revenue. */
  lemma SalesByCategoryFacts(t: Table)
    ensures DistinctKeys(SalesByCategory(t))
    ensures KeySet(SalesByCategory(t)) == KeysOf(t, CategoryOf)
    ensures forall i :: 0 <= i < |SalesByCategory(t)| ==>
      SalesByCategory(t)[i].1 == RevenueWhere(t, CategoryOf, SalesByCategory(t)[i].0)
    ensures SumValues(SalesByCategory(t)) == TotalRevenue(t)
  {
    forall i | 0 <= i < |SalesByCategory(t)|
      ensures SalesByCategory(t)[i].1 == RevenueWhere(t, CategoryOf, SalesByCategory(t)[i].0)
    {
      GroupSumEntry(t, CategoryOf, i);
    }
  }

  /** A grouping sorted by value ascending: the shape both rankings are cut from. */
  predicate Ascending<K>(s: seq<Group<K>>) {
    forall i, j :: 0 <= i < j < |s| ==> s[i].1 <= s[j].1
  }

  predicate Descending<K>(s: seq<Group<K>>) {
    forall i, j :: 0 <= i < j < |s| ==> s[i].1 >= s[j].1
  }

  /** Every entry of s is a key of the table carrying that key's revenue. */
  predicate EntriesHold<K(==,!new)>(s: seq<Group<K>>, t: Table, key: Transaction -> K) {
    forall i :: 0 <= i < |s| ==> s[i].0 in KeysOf(t, key) && s[i].1 == RevenueWhere(t, key, s[i].0)
  }

  /** Keeping the last n entries of an ascending list keeps the n largest. */
  lemma KeepLast<K(!new)>(s: seq<Group<K>>, n: nat)
    requires DistinctKeys(s) && Ascending(s)
    ensures |s[|s| - Min(n, |s|)..]| == Min(n, |s|)
    ensures DistinctKeys(s[|s| - Min(n, |s|)..]) && Ascending(s[|s| - Min(n, |s|)..])
  {
    var lo := |s| - Min(n, |s|);
    var r := s[lo..];
    forall i, j | 0 <= i < j < |r| ensures r[i].0 != r[j].0 && r[i].1 <= r[j].1 {
      assert r[i] == s[lo + i] && r[j] == s[lo + j];
    }
  }

  /** An entry cut off the front of an ascending list is no larger than any kept. */
  lemma KeepLastOmitted<K(!new)>(s: seq<Group<K>>, n: nat, m: nat, j: nat)
    requires Ascending(s)
    requires m < |s| && s[m].0 !in KeySet(s[|s| - Min(n, |s|)..]) && |s| - Min(n, |s|) <= j < |s|
    ensures s[m].1 <= s[j].1
  {
    var lo := |s| - Min(n, |s|);
    assert m < lo by {
      forall x | lo <= x < |s| ensures s[x].0 in KeySet(s[lo..]) {
        assert s[lo..][x - lo] == s[x];
      }
    }
  }

  /** Keeping the first n entries of a descending list keeps the n largest. */
  lemma KeepFirst<K(!new)>(s: seq<Group<K>>, n: nat)
    requires DistinctKeys(s) && Descending(s)
    ensures |s[..Min(n, |s|)]| == Min(n, |s|)
    ensures DistinctKeys(s[..Min(n, |s|)]) && Descending(s[..Min(n, |s|)])
  {
  }

  /** An entry cut off the back of a descending list is no larger than any kept. */
  lemma KeepFirstOmitted<K(!new)>(s: seq<Group<K>>, n: nat, m: nat, i: nat)
    requires Descending(s)
    requires m < |s| && s[m].0 !in KeySet(s[..Min(n, |s|)]) && i < Min(n, |s|)
    ensures s[m].1 <= s[i].1
  {
    var hi := Min(n, |s|);
    assert m >= hi by {
      forall x | 0 <= x < hi ensures s[x].0 in KeySet(s[..hi]) {
        assert s[..hi][x] == s[x];
      }
    }
  }

  /** Every product with its revenue, smallest first. */
  function ProductsAscending(t: Table): seq<Group<string>> {
    AscendingOrder();
    Sort(GroupSum(t, ProductOf), ByValueAscending)
  }

  lemma ProductsAscendingFacts(t: Table)
    ensures DistinctKeys(ProductsAscending(t)) && Ascending(ProductsAscending(t))
    ensures KeySet(ProductsAscending(t)) == KeysOf(t, ProductOf)
    ensures |ProductsAscending(t)| == |KeysOf(t, ProductOf)|
    ensures EntriesHold(ProductsAscending(t), t, ProductOf)
  {
    AscendingOrder();
    SortedGrouping(t, ProductOf, ByValueAscending);
    var s := ProductsAscending(t);
    forall i, j | 0 <= i < j < |s| ensures s[i].1 <= s[j].1 {
      assert ByValueAscending(s[i], s[j]);
    }
    forall i | 0 <= i < |s| ensures s[i].0 in KeysOf(t, ProductOf) {
      SortedEntry(t, ProductOf, ByValueAscending, i);
    }
  }

  /** Product revenue sorted ascending, keeping the last ten. */
  function TopProducts(t: Table): seq<Group<string>> {
    var s := ProductsAscending(t);
    s[|s| - Min(10, |s|)..]
  }

  /** The ten best-selling products (all of them when there are fewer),
      smallest first so the largest bar is drawn last; no product left out
      earns more than one kept. */
  lemma TopProductsFacts(t: Table)
    ensures |TopProducts(t)| == Min(10, |KeysOf(t, ProductOf)|)
    ensures forall i, j :: 0 <= i < j < |TopProducts(t)| ==> TopProducts(t)[i].1 <= TopProducts(t)[j].1
    ensures DistinctKeys(TopProducts(t))
    ensures forall i :: 0 <= i < |TopProducts(t)| ==>
      TopProducts(t)[i].0 in KeysOf(t, ProductOf) && TopProducts(t)[i].1 == RevenueWhere(t, ProductOf, TopProducts(t)[i].0)
    ensures forall p, i :: p in KeysOf(t, ProductOf) && p !in KeySet(TopProducts(t)) && 0 <= i < |TopProducts(t)| ==>
      RevenueWhere(t, ProductOf, p) <= TopProducts(t)[i].1
  {
    TopProductsShape(t);
    TopProductsEntries(t);
    TopProductsLeftOut(t);
  }

  lemma TopProductsShape(t: Table)
    ensures |TopProducts(t)| == Min(10, |KeysOf(t, ProductOf)|)
    ensures forall i, j :: 0 <= i < j < |TopProducts(t)| ==> TopProducts(t)[i].1 <= TopProducts(t)[j].1
    ensures DistinctKeys(TopProducts(t))
  {
    ProductsAscendingFacts(t);
    KeepLast(ProductsAscending(t), 10);
  }

  lemma TopProductsEntries(t: Table)
    ensures forall i :: 0 <= i < |TopProducts(t)| ==>
      TopProducts(t)[i].0 in KeysOf(t, ProductOf) && TopProducts(t)[i].1 == RevenueWhere(t, ProductOf, TopProducts(t)[i].0)
  {
    var s := ProductsAscending(t);
    ProductsAscendingFacts(t);
    var lo := |s| - Min(10, |s|);
    var r := TopProducts(t);
    assert r == s[lo..];
    forall i | 0 <= i < |r|
      ensures r[i].0 in KeysOf(t, ProductOf) && r[i].1 == RevenueWhere(t, ProductOf, r[i].0)
    {
      assert r[i] == s[lo + i];
    }
  }

  lemma TopProductsLeftOut(t: Table)
    ensures forall p, i :: p in KeysOf(t, ProductOf) && p !in KeySet(TopProducts(t)) && 0 <= i < |TopProducts(t)| ==>
      RevenueWhere(t, ProductOf, p) <= TopProducts(t)[i].1
  {
    forall p, i | p in KeysOf(t, ProductOf) && p !in KeySet(TopProducts(t)) && 0 <= i < |TopProducts(t)|
      ensures RevenueWhere(t, ProductOf, p) <= TopProducts(t)[i].1
    {
      TopProductsOmitted(t, p, i);
    }
  }

  lemma TopProductsOmitted(t: Table, p: string, i: nat)
    requires p in KeysOf(t, ProductOf) && p !in KeySet(TopProducts(t)) && i < |TopProducts(t)|
    ensures RevenueWhere(t, ProductOf, p) <= TopProducts(t)[i].1
  {
    var s := ProductsAscending(t);
    ProductsAscendingFacts(t);
    var lo := |s| - Min(10, |s|);
    var m := IndexOfKey(s, p);
    assert s[m].1 == RevenueWhere(t, ProductOf, p);
    KeepLastOmitted(s, 10, m, lo + i);
  }

  /** Every key with its revenue, largest first. */
  function ValuesDescending(t: Table, key: Transaction -> string): seq<Group<string>> {
    DescendingOrder();
    Sort(GroupSum(t, key), ByValueDescending)
  }

  lemma ValuesDescendingFacts(t: Table, key: Transaction -> string)
    ensures DistinctKeys(ValuesDescending(t, key)) && Descending(ValuesDescending(t, key))
    ensures KeySet(ValuesDescending(t, key)) == KeysOf(t, key)
    ensures |ValuesDescending(t, key)| == |KeysOf(t, key)|
    ensures EntriesHold(ValuesDescending(t, key), t, key)
  {
    DescendingOrder();
    SortedGrouping(t, key, ByValueDescending);
    var s := ValuesDescending(t, key);
    forall i, j | 0 <= i < j < |s| ensures s[i].1 >= s[j].1 {
      assert ByValueDescending(s[i], s[j]);
    }
    forall i | 0 <= i < |s| ensures s[i].0 in KeysOf(t, key) {
      SortedEntry(t, key, ByValueDescending, i);
    }
  }

  /** Revenue per key sorted descending, keeping the first n. */
  function TopDescending(t: Table, key: Transaction -> string, n: nat): seq<Group<string>> {
    var s := ValuesDescending(t, key);
    s[..Min(n, |s|)]
  }

  /** The n largest keys (all of them when there are fewer), largest first;
      no key left out earns more than one kept. */
  lemma TopDescendingFacts(t: Table, key: Transaction -> string, n: nat)
    ensures |TopDescending(t, key, n)| == Min(n, |KeysOf(t, key)|)
    ensures forall i, j :: 0 <= i < j < |TopDescending(t, key, n)| ==>
      TopDescending(t, key, n)[i].1 >= TopDescending(t, key, n)[j].1
    ensures DistinctKeys(TopDescending(t, key, n))
    ensures forall i :: 0 <= i < |TopDescending(t, key, n)| ==>
      TopDescending(t, key, n)[i].0 in KeysOf(t, key)
      && TopDescending(t, key, n)[i].1 == RevenueWhere(t, key, TopDescending(t, key, n)[i].0)
    ensures forall k, i :: k in KeysOf(t, key) && k !in KeySet(TopDescending(t, key, n)) && 0 <= i < |TopDescending(t, key, n)| ==>
      RevenueWhere(t, key, k) <= TopDescending(t, key, n)[i].1
  {
    TopDescendingShape(t, key, n);
    TopDescendingEntries(t, key, n);
    TopDescendingLeftOut(t, key, n);
  }

  lemma TopDescendingShape(t: Table, key: Transaction -> string, n: nat)
    ensures |TopDescending(t, key, n)| == Min(n, |KeysOf(t, key)|)
    ensures forall i, j :: 0 <= i < j < |TopDescending(t, key, n)| ==>
      TopDescending(t, key, n)[i].1 >= TopDescending(t, key, n)[j].1
    ensures DistinctKeys(TopDescending(t, key, n))
  {
    ValuesDescendingFacts(t, key);
    KeepFirst(ValuesDescending(t, key), n);
  }

  lemma TopDescendingEntries(t: Table, key: Transaction -> string, n: nat)
    ensures forall i :: 0 <= i < |TopDescending(t, key, n)| ==>
      TopDescending(t, key, n)[i].0 in KeysOf(t, key)
      && TopDescending(t, key, n)[i].1 == RevenueWhere(t, key, TopDescending(t, key, n)[i].0)
  {
    var s := ValuesDescending(t, key);
    ValuesDescendingFacts(t, key);
    var r := TopDescending(t, key, n);
    assert r == s[..Min(n, |s|)];
    forall i | 0 <= i < |r| ensures r[i].0 in KeysOf(t, key) && r[i].1 == RevenueWhere(t, key, r[i].0) {
      assert r[i] == s[i];
    }
  }

  lemma TopDescendingLeftOut(t: Table, key: Transaction -> string, n: nat)
    ensures forall k, i :: k in KeysOf(t, key) && k !in KeySet(TopDescending(t, key, n)) && 0 <= i < |TopDescending(t, key, n)| ==>
      RevenueWhere(t, key, k) <= TopDescending(t, key, n)[i].1
  {
    forall k, i | k in KeysOf(t, key) && k !in KeySet(TopDescending(t, key, n)) && 0 <= i < |TopDescending(t, key, n)|
      ensures RevenueWhere(t, key, k) <= TopDescending(t, key, n)[i].1
    {
      TopDescendingOmitted(t, key, n, k, i);
    }
  }

  lemma TopDescendingOmitted(t: Table, key: Transaction -> string, n: nat, k: string, i: nat)
    requires k in KeysOf(t, key) && k !in KeySet(TopDescending(t, key, n)) && i < |TopDescending(t, key, n)|
    ensures RevenueWhere(t, key, k) <= TopDescending(t, key, n)[i].1
  {
    var s := ValuesDescending(t, key);
    ValuesDescendingFacts(t, key);
    var m := IndexOfKey(s, k);
    assert s[m].1 == RevenueWhere(t, key, k);
    KeepFirstOmitted(s, n, m, i);
  }

  /** Where a key sits in a grouping. */
  lemma IndexOfKey<K>(s: seq<Group<K>>, k: K) returns (m: nat)
    requires k in KeySet(s)
    ensures m < |s| && s[m].0 == k
  {
    m :| 0 <= m < |s| && s[m].0 == k;
  }

  /** Revenue per state, sorted descending, keeping the first fifteen. */
  function TopRegions(t: Table): seq<Group<string>> {
    TopDescending(t, LocationOf, 15)
  }

  /** The fifteen best-selling states (all when fewer), largest first; no
      state left out earns more than one kept. */
  lemma TopRegionsFacts(t: Table)
    ensures |TopRegions(t)| == Min(15, |KeysOf(t, LocationOf)|)
    ensures forall i, j :: 0 <= i < j < |TopRegions(t)| ==> TopRegions(t)[i].1 >= TopRegions(t)[j].1
    ensures forall i :: 0 <= i < |TopRegions(t)| ==>
      TopRegions(t)[i].0 in KeysOf(t, LocationOf) && TopRegions(t)[i].1 == RevenueWhere(t, LocationOf, TopRegions(t)[i].0)
    ensures forall k, i :: k in KeysOf(t, LocationOf) && k !in KeySet(TopRegions(t)) && 0 <= i < |TopRegions(t)| ==>
      RevenueWhere(t, LocationOf, k) <= TopRegions(t)[i].1
  {
    TopDescendingFacts(t, LocationOf, 15);
  }

  /** One line of the report's product ranking. */
  datatype RankedProduct = RankedProduct(rank: nat, product: string, revenue: int)

  /** The report's "Top 5 Products" list, numbered from 1. */
  function PdfTopProducts(t: Table): seq<RankedProduct> {
    var top := TopDescending(t, ProductOf, 5);
    seq(|top|, i requires 0 <= i < |top| => RankedProduct(i + 1, top[i].0, top[i].1))
  }

  /** Whether a product appears in the report's list. */
  predicate Listed(r: seq<RankedProduct>, p: string) {
    exists j :: 0 <= j < |r| && r[j].product == p
  }

  /** The five best-selling products (all when fewer), largest first, ranked
      1, 2, 3, ...; no product left out earns more than one listed. */
  lemma PdfTopProductsFacts(t: Table)
    ensures |PdfTopProducts(t)| == Min(5, |KeysOf(t, ProductOf)|)
    ensures forall i :: 0 <= i < |PdfTopProducts(t)| ==> PdfTopProducts(t)[i].rank == i + 1
    ensures forall i, j :: 0 <= i < j < |PdfTopProducts(t)| ==> PdfTopProducts(t)[i].revenue >= PdfTopProducts(t)[j].revenue
    ensures forall i, j :: 0 <= i < j < |PdfTopProducts(t)| ==> PdfTopProducts(t)[i].product != PdfTopProducts(t)[j].product
    ensures forall i :: 0 <= i < |PdfTopProducts(t)| ==>
      PdfTopProducts(t)[i].product in KeysOf(t, ProductOf)
      && PdfTopProducts(t)[i].revenue == RevenueWhere(t, ProductOf, PdfTopProducts(t)[i].product)
    ensures forall p, i :: p in KeysOf(t, ProductOf) && !Listed(PdfTopProducts(t), p) && 0 <= i < |PdfTopProducts(t)| ==>
      RevenueWhere(t, ProductOf, p) <= PdfTopProducts(t)[i].revenue
  {
    PdfTopProductsShape(t);
    PdfTopProductsEntries(t);
    PdfTopProductsLeftOut(t);
  }

  lemma PdfTopProductsShape(t: Table)
    ensures |PdfTopProducts(t)| == Min(5, |KeysOf(t, ProductOf)|)
    ensures forall i :: 0 <= i < |PdfTopProducts(t)| ==> PdfTopProducts(t)[i].rank == i + 1
    ensures forall i, j :: 0 <= i < j < |PdfTopProducts(t)| ==> PdfTopProducts(t)[i].revenue >= PdfTopProducts(t)[j].revenue
    ensures forall i, j :: 0 <= i < j < |PdfTopProducts(t)| ==> PdfTopProducts(t)[i].product != PdfTopProducts(t)[j].product
  {
    TopDescendingShape(t, ProductOf, 5);
  }

  lemma PdfTopProductsEntries(t: Table)
    ensures forall i :: 0 <= i < |PdfTopProducts(t)| ==>
      PdfTopProducts(t)[i].product in KeysOf(t, ProductOf)
      && PdfTopProducts(t)[i].revenue == RevenueWhere(t, ProductOf, PdfTopProducts(t)[i].product)
  {
    TopDescendingEntries(t, ProductOf, 5);
  }

  lemma PdfTopProductsLeftOut(t: Table)
    ensures forall p, i :: p in KeysOf(t, ProductOf) && !Listed(PdfTopProducts(t), p) && 0 <= i < |PdfTopProducts(t)| ==>
      RevenueWhere(t, ProductOf, p) <= PdfTopProducts(t)[i].revenue
  {
    var top := TopDescending(t, ProductOf, 5);
    var r := PdfTopProducts(t);
    TopDescendingLeftOut(t, ProductOf, 5);
    forall p | p in KeysOf(t, ProductOf) && !Listed(r, p)
      ensures p !in KeySet(top)
    {
      forall j | 0 <= j < |top| ensures top[j].0 != p {
        assert r[j].product == top[j].0;
      }
    }
  }

  // ---- KPIs ----

  /** A fraction num / den, standing for a floating-point quotient. */
  datatype Ratio = Ratio(num: int, den: int)

  /** Revenue per calendar month, in calendar order (the month-over-month series). */
  function MonthlySales(t: Table): seq<Group<Month>> {
    MonthKeyOrder();
    Sort(GroupSum(t, MonthOfRow), MonthKeyLe)
  }

  /** One entry per month present, in calendar order, each holding that
      month's revenue. */
  lemma MonthlySalesFacts(t: Table)
    ensures |MonthlySales(t)| == |KeysOf(t, MonthOfRow)|
    ensures forall i, j :: 0 <= i < j < |MonthlySales(t)| ==>
      MonthLe(MonthlySales(t)[i].0, MonthlySales(t)[j].0) && MonthlySales(t)[i].0 != MonthlySales(t)[j].0
    ensures KeySet(MonthlySales(t)) == KeysOf(t, MonthOfRow)
    ensures forall i :: 0 <= i < |MonthlySales(t)| ==> MonthlySales(t)[i].1 == MonthRevenue(t, MonthlySales(t)[i].0)
  {
    MonthKeyOrder();
    SortedGrouping(t, MonthOfRow, MonthKeyLe);
  }

  function MonthRevenue(t: Table, m: Month): int {
    RevenueWhere(t, MonthOfRow, m)
  }

  /** The growth rate is a number: the second-latest month, when there is
      one, has positive revenue. */
  predicate GrowthDefined(t: Table) {
    var ms := MonthlySales(t);
    |ms| < 2 || ms[|ms| - 2].1 > 0
  }

  /** The percentage change from prev to cur, as the fraction
      (cur - prev) * 100 / prev: negative exactly when revenue fell, zero
      exactly when it stayed level. */
  function Growth(cur: int, prev: int): (g: Ratio)
    ensures g.den == prev
    ensures prev > 0 ==> (g.num < 0 <==> cur < prev) && (g.num == 0 <==> cur == prev)
  {
    Ratio((cur - prev) * 100, prev)
  }

  /** Month-over-month growth in percent between the last two months of the
      series; 0 with fewer than two months. */
  function MomGrowth(t: Table): (g: Ratio)
    requires GrowthDefined(t)
    ensures g.den > 0
  {
    var ms := MonthlySales(t);
    var n := |ms|;
    if n >= 2 then Growth(ms[n - 1].1, ms[n - 2].1) else Ratio(0, 1)
  }

  /** With fewer than two months present the growth is 0. */
  lemma MomGrowthSingleMonth(t: Table)
    requires |KeysOf(t, MonthOfRow)| < 2
    ensures GrowthDefined(t) && MomGrowth(t) == Ratio(0, 1)
  {
    MonthlySalesFacts(t);
  }

  /** The growth compares the two chronologically last months present,
      whichever they are, and is negative exactly when revenue fell. */
  lemma MomGrowthOfLastTwoMonths(t: Table, latest: Month, previous: Month)
    requires GrowthDefined(t)
    requires latest in KeysOf(t, MonthOfRow)
    requires forall m :: m in KeysOf(t, MonthOfRow) ==> MonthLe(m, latest)
    requires previous in KeysOf(t, MonthOfRow) && previous != latest
    requires forall m :: m in KeysOf(t, MonthOfRow) && m != latest ==> MonthLe(m, previous)
    ensures MonthRevenue(t, previous) > 0
    ensures MomGrowth(t) == Growth(MonthRevenue(t, latest), MonthRevenue(t, previous))
    ensures MomGrowth(t).num < 0 <==> MonthRevenue(t, latest) < MonthRevenue(t, previous)
  {
    var ms := MonthlySales(t);
    var n := |ms|;
    MonthlySalesFacts(t);
    var a :| 0 <= a < n && ms[a].0 == latest;
    var b :| 0 <= b < n && ms[b].0 == previous;
    assert MonthLe(ms[n - 1].0, latest);
    assert a == n - 1;
    assert n >= 2;
    assert MonthLe(ms[n - 2].0, previous);
    assert b == n - 2;
  }

  /** The five summary metrics. */
  datatype Kpis = Kpis(
    totalRevenue: int,
    totalOrders: nat,
    uniqueCustomers: nat,
    avgOrderValue: Ratio,
    momGrowth: Ratio)

  /** calculate_kpis: revenue, order count, distinct customers, mean order
      value and month-over-month growth of a non-empty table. */
  function CalculateKpis(t: Table): (k: Kpis)
    requires |t| > 0 && GrowthDefined(t)
    ensures k.totalRevenue == TotalRevenue(t)
    ensures k.totalOrders == |t|
    ensures k.uniqueCustomers == |CustomerIds(t)| && 1 <= k.uniqueCustomers <= k.totalOrders
    ensures k.avgOrderValue.den == k.totalOrders && k.avgOrderValue.num == k.totalRevenue
    ensures k.momGrowth == MomGrowth(t)
  {
    CustomerIdsAtMostRows(t);
    assert t[0].customerId in CustomerIds(t);
    Kpis(TotalRevenue(t), |t|, |CustomerIds(t)|, Ratio(TotalRevenue(t), |t|), MomGrowth(t))
  }

  /** The revenue KPI equals the sum of the daily trend and of the category
      breakdown: grouping splits the revenue without loss or double counting. */
  lemma RevenueMatchesViews(t: Table)
    requires |t| > 0 && GrowthDefined(t)
    ensures CalculateKpis(t).totalRevenue == SumValues(SalesByDate(t))
    ensures CalculateKpis(t).totalRevenue == SumValues(SalesByCategory(t))
  {
    SalesByDateFacts(t);
    SalesByCategoryFacts(t);
  }
}
