/** The transaction record and the transaction table the dashboard works on.
    Money is held in integer cents. */
module Sales {
  import opened Dates

  /** One sale: the eight columns of the sales table. */
  datatype Transaction = Transaction(
    date: Date,
    productName: string,
    category: string,
    quantity: int,
    unitPrice: int,       // cents
    totalAmount: int,     // cents
    customerId: int,
    customerLocation: string)

  /** A table of sales, in row order. */
  type Table = seq<Transaction>

  /** Rows in date order. */
  predicate Chronological(t: Table) {
    forall i, j :: 0 <= i < j < |t| ==> DateLe(t[i].date, t[j].date)
  }

  /** The sum of the total_amount column. */
  function TotalRevenue(t: Table): (r: int)
    ensures (forall i :: 0 <= i < |t| ==> t[i].totalAmount >= 0) ==> r >= 0
  {
    if t == [] then 0 else t[0].totalAmount + TotalRevenue(t[1..])
  }

  lemma {:induction false} TotalRevenueAppend(a: Table, b: Table)
    ensures TotalRevenue(a + b) == TotalRevenue(a) + TotalRevenue(b)
  {
    if a != [] {
      assert (a + b)[1..] == a[1..] + b;
      TotalRevenueAppend(a[1..], b);
    } else {
      assert a + b == b;
    }
  }

  /** The distinct customer ids of a table. */
  function CustomerIds(t: Table): (ids: set<int>)
    ensures forall i :: 0 <= i < |t| ==> t[i].customerId in ids
    ensures forall x :: x in ids ==> exists i :: 0 <= i < |t| && t[i].customerId == x
  {
    if t == [] then {}
    else
      var rest := CustomerIds(t[1..]);
      assert forall i :: 1 <= i < |t| ==> t[i] == t[1..][i - 1];
      {t[0].customerId} + rest
  }

  /** There are never more distinct customers than rows. */
  lemma {:induction false} CustomerIdsAtMostRows(t: Table)
    ensures |CustomerIds(t)| <= |t|
  {
    if t != [] {
      CustomerIdsAtMostRows(t[1..]);
      assert CustomerIds(t) == {t[0].customerId} + CustomerIds(t[1..]);
    }
  }

}
