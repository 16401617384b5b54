/** Calendar days, the (year, month) period key, the weekday and the
    zero-padded YYYY-MM-DD text of a day. */
module Dates {

  /** A calendar day; the time of day is not part of the model. */
  datatype Date = Date(year: int, month: int, day: int)

  /** A calendar month, the key of a monthly period. */
  datatype Month = Month(year: int, month: int)

  datatype Option<T> = None | Some(value: T)

  predicate IsLeapYear(y: int) {
    y % 4 == 0 && (y % 100 != 0 || y % 400 == 0)
  }

  function DaysInMonth(y: int, m: int): (n: int)
    requires 1 <= m <= 12
    ensures 28 <= n <= 31
    ensures m == 2 ==> (n == 29 <==> IsLeapYear(y))
  {
    if m == 2 then (if IsLeapYear(y) then 29 else 28)
    else if m == 4 || m == 6 || m == 9 || m == 11 then 30
    else 31
  }

  /** The days a Python datetime can hold: years 1 to 9999. */
  predicate ValidDate(d: Date) {
    1 <= d.year <= 9999 && 1 <= d.month <= 12 && 1 <= d.day <= DaysInMonth(d.year, d.month)
  }

  /** Chronological order of days (non-strict). */
  predicate DateLe(a: Date, b: Date) {
    a.year < b.year
    || (a.year == b.year && a.month < b.month)
    || (a.year == b.year && a.month == b.month && a.day <= b.day)
  }

  predicate DateLt(a: Date, b: Date) {
    DateLe(a, b) && a != b
  }

  lemma DateLeIsTotalOrder()
    ensures forall a, b :: DateLe(a, b) || DateLe(b, a)
    ensures forall a, b, c :: DateLe(a, b) && DateLe(b, c) ==> DateLe(a, c)
    ensures forall a, b :: DateLe(a, b) && DateLe(b, a) ==> a == b
  {
  }

  /** The calendar day after d: a later valid day with no valid day
      between the two. */
  function NextDay(d: Date): (n: Date)
    requires ValidDate(d) && d.year < 9999
    ensures ValidDate(n) && DateLt(d, n)
    ensures forall x {:trigger DateLe(n, x)} :: ValidDate(x) && DateLt(d, x) ==> DateLe(n, x)
    ensures n.year <= d.year + 1
  {
    if d.day < DaysInMonth(d.year, d.month) then Date(d.year, d.month, d.day + 1)
    else if d.month < 12 then Date(d.year, d.month + 1, 1)
    else Date(d.year + 1, 1, 1)
  }

  /** The n consecutive days from start on (pandas date_range with daily
      frequency): each day is the day after the one before it. */
  function DateRange(start: Date, n: nat): (r: seq<Date>)
    requires ValidDate(start) && start.year + n <= 9999
    ensures |r| == n
    ensures n > 0 ==> r[0] == start
    ensures forall i :: 0 <= i < n ==> ValidDate(r[i]) && r[i].year <= start.year + i
    ensures forall i :: 0 <= i < n - 1 ==> r[i + 1] == NextDay(r[i])
    ensures forall i, j :: 0 <= i < j < n ==> DateLt(r[i], r[j])
    decreases n
  {
    if n == 0 then []
    else
      var rest := DateRange(NextDay(start), n - 1);
      assert forall i :: 1 <= i < n ==> ([start] + rest)[i] == rest[i - 1];
      [start] + rest
  }

  /** The weekday of a day as Python's date.weekday() numbers it:
      Monday is 0 and Sunday is 6 (Sakamoto's method). */
  function Weekday(d: Date): (w: int)
    requires ValidDate(d)
    ensures 0 <= w < 7
  {
    ((MonthBase(d.year, d.month) + d.day) % 7 + 6) % 7
  }

  /** The part of Sakamoto's sum that depends on the year and month only. */
  function MonthBase(year: int, month: int): int
    requires 1 <= month <= 12
  {
    var offsets := [0, 3, 2, 5, 0, 3, 5, 1, 4, 6, 2, 4];
    var y := if month < 3 then year - 1 else year;
    y + y / 4 - y / 100 + y / 400 + offsets[month - 1]
  }

  /** Within one month, the next day falls on the next weekday. */
  lemma WeekdayOfNextDay(d: Date)
    requires ValidDate(d) && d.day < DaysInMonth(d.year, d.month)
    ensures ValidDate(Date(d.year, d.month, d.day + 1))
    ensures Weekday(Date(d.year, d.month, d.day + 1)) == (Weekday(d) + 1) % 7
  {
    WeekdayStep(MonthBase(d.year, d.month) + d.day);
  }

  /** Python numbers 1 January 2024, a Monday, 0 and 1 June 2024, a
      Saturday, 5. */
  lemma WeekdayAnchors()
    ensures Weekday(Date(2024, 1, 1)) == 0
    ensures Weekday(Date(2024, 6, 1)) == 5
  {
    assert MonthBase(2024, 1) == 2513;
    assert MonthBase(2024, 6) == 2518;
  }

  /** Every next day, across month and year ends too, falls on the next
      weekday. */
  lemma WeekdayOfAnyNextDay(d: Date)
    requires ValidDate(d) && d.year < 9999
    ensures Weekday(NextDay(d)) == (Weekday(d) + 1) % 7
  {
    if d.day < DaysInMonth(d.year, d.month) {
      WeekdayOfNextDay(d);
    } else if d.month < 12 {
      WeekdayOfNextMonth(d);
    } else {
      WeekdayOfNextYear(d);
    }
  }

  lemma WeekdayOfNextMonth(d: Date)
    requires ValidDate(d) && d.day == DaysInMonth(d.year, d.month) && d.month < 12
    ensures ValidDate(Date(d.year, d.month + 1, 1))
    ensures Weekday(Date(d.year, d.month + 1, 1)) == (Weekday(d) + 1) % 7
  {
    MonthEndStep(d.year, d.month);
    BaseStep(MonthBase(d.year, d.month) + d.day, MonthBase(d.year, d.month + 1) + 1);
  }

  lemma WeekdayOfNextYear(d: Date)
    requires ValidDate(d) && d.year < 9999 && d.month == 12 && d.day == 31
    ensures Weekday(Date(d.year + 1, 1, 1)) == (Weekday(d) + 1) % 7
  {
    assert MonthBase(d.year + 1, 1) + 1 - (MonthBase(d.year, 12) + 31) - 1 == -35;
    BaseStep(MonthBase(d.year, 12) + 31, MonthBase(d.year + 1, 1) + 1);
  }

  /** The first of the next month comes one weekday after the last of this
      one. */
  lemma MonthEndStep(y: int, m: int)
    requires 1 <= m < 12
    ensures (MonthBase(y, m + 1) - MonthBase(y, m) - DaysInMonth(y, m)) % 7 == 0
  {
    if m == 2 {
      LeapDays(y);
    }
  }

  /** Two Sakamoto sums one day apart (mod 7) give consecutive weekdays. */
  lemma BaseStep(x: int, y: int)
    requires (y - x - 1) % 7 == 0
    ensures (y % 7 + 6) % 7 == ((x % 7 + 6) % 7 + 1) % 7
  {
    assert y % 7 == (x + 1) % 7;
    WeekdayStep(x);
  }

  /** Going from year y - 1 to year y adds one leap correction exactly in
      leap years. */
  lemma LeapDays(y: int)
    ensures (y / 4 - (y - 1) / 4) - (y / 100 - (y - 1) / 100) + (y / 400 - (y - 1) / 400)
      == if IsLeapYear(y) then 1 else 0
  {
    DivStep4(y);
    DivStep100(y);
    DivStep400(y);
  }

  lemma DivStep4(y: int)
    ensures y / 4 - (y - 1) / 4 == if y % 4 == 0 then 1 else 0
  {
    assert y == 4 * (y / 4) + y % 4;
  }

  lemma DivStep100(y: int)
    ensures y / 100 - (y - 1) / 100 == if y % 100 == 0 then 1 else 0
    ensures y % 100 == 0 ==> y % 4 == 0
  {
    assert y == 100 * (y / 100) + y % 100;
    if y % 100 == 0 { assert y == 4 * (25 * (y / 100)); }
  }

  lemma DivStep400(y: int)
    ensures y / 400 - (y - 1) / 400 == if y % 400 == 0 then 1 else 0
    ensures y % 400 == 0 ==> y % 100 == 0
  {
    assert y == 400 * (y / 400) + y % 400;
    if y % 400 == 0 { assert y == 100 * (4 * (y / 400)); }
  }

  lemma WeekdayStep(x: int)
    ensures ((x + 1) % 7 + 6) % 7 == ((x % 7 + 6) % 7 + 1) % 7
  {
    var r := x % 7;
    assert x == 7 * (x / 7) + r;
    if r == 6 {
      assert (x + 1) % 7 == 0;
    } else {
      assert (x + 1) % 7 == r + 1;
    }
  }

  /** The monthly period a day belongs to (pandas to_period('M')). */
  function MonthOf(d: Date): (m: Month)
    ensures m.year == d.year && m.month == d.month
  {
    Month(d.year, d.month)
  }

  predicate MonthLe(a: Month, b: Month) {
    a.year < b.year || (a.year == b.year && a.month <= b.month)
  }

  lemma MonthLeIsTotalOrder()
    ensures forall a, b :: MonthLe(a, b) || MonthLe(b, a)
    ensures forall a, b, c :: MonthLe(a, b) && MonthLe(b, c) ==> MonthLe(a, c)
    ensures forall a, b :: MonthLe(a, b) && MonthLe(b, a) ==> a == b
  {
  }

  /** The month key respects chronology: a later day never has an earlier month. */
  lemma MonthOfMonotone(a: Date, b: Date)
    ensures DateLe(a, b) ==> MonthLe(MonthOf(a), MonthOf(b))
    ensures MonthOf(a) == MonthOf(b) <==> a.year == b.year && a.month == b.month
  {
  }

  // ---- YYYY-MM-DD text ----

  function Digit(n: int): (c: char)
    requires 0 <= n < 10
    ensures '0' <= c <= '9'
  {
    (48 + n) as char
  }

  predicate IsDigit(c: char) {
    '0' <= c <= '9'
  }

  function DigitValue(c: char): (n: int)
    requires IsDigit(c)
    ensures 0 <= n < 10
  {
    c as int - 48
  }

  lemma DigitRoundTrip(n: int)
    requires 0 <= n < 10
    ensures DigitValue(Digit(n)) == n
  {
  }

  /** n written with exactly w decimal digits, most significant first. */
  function Padded(n: nat, w: nat): (s: string)
    ensures |s| == w
    ensures forall i :: 0 <= i < |s| ==> IsDigit(s[i])
  {
    if w == 0 then [] else Padded(n / 10, w - 1) + [Digit(n % 10)]
  }

  function Pow10(w: nat): (p: nat)
    ensures p >= 1
  {
    if w == 0 then 1 else 10 * Pow10(w - 1)
  }

  /** The number a string of decimal digits denotes. */
  function DigitsValue(s: string): (n: nat)
    requires forall i :: 0 <= i < |s| ==> IsDigit(s[i])
    ensures n < Pow10(|s|)
  {
    if s == [] then 0 else 10 * DigitsValue(s[..|s| - 1]) + DigitValue(s[|s| - 1])
  }

  lemma {:induction false} PaddedRoundTrip(n: nat, w: nat)
    requires n < Pow10(w)
    ensures DigitsValue(Padded(n, w)) == n
  {
    if w > 0 {
      var s := Padded(n, w);
      var q, r := n / 10, n % 10;
      assert n == 10 * q + r;
      assert q < Pow10(w - 1);
      assert s == Padded(q, w - 1) + [Digit(r)];
      assert s[..|s| - 1] == Padded(q, w - 1) && s[|s| - 1] == Digit(r);
      PaddedRoundTrip(q, w - 1);
      DigitRoundTrip(r);
    }
  }

  /** The text strftime('%Y-%m-%d') gives for a day: four-digit year,
      two-digit month and two-digit day, zero-padded, separated by '-'. */
  function FormatDate(d: Date): (s: string)
    requires ValidDate(d)
    ensures |s| == 10 && s[4] == '-' && s[7] == '-'
    ensures forall i :: 0 <= i < 10 && i != 4 && i != 7 ==> IsDigit(s[i])
  {
    Padded(d.year, 4) + "-" + Padded(d.month, 2) + "-" + Padded(d.day, 2)
  }

  /** Reads back a YYYY-MM-DD text; None for any other shape. */
  function ParseDate(s: string): (r: Option<Date>)
    ensures r.Some? ==> |s| == 10 && s[4] == '-' && s[7] == '-'
  {
    if |s| == 10 && s[4] == '-' && s[7] == '-'
       && (forall i :: 0 <= i < 10 && i != 4 && i != 7 ==> IsDigit(s[i]))
    then Some(Date(DigitsValue(s[0..4]), DigitsValue(s[5..7]), DigitsValue(s[8..10])))
    else None
  }

  /** Formatting loses nothing down to the day. */
  lemma FormatDateRoundTrip(d: Date)
    requires ValidDate(d)
    ensures ParseDate(FormatDate(d)) == Some(d)
  {
    var s := FormatDate(d);
    assert s[0..4] == Padded(d.year, 4);
    assert s[5..7] == Padded(d.month, 2);
    assert s[8..10] == Padded(d.day, 2);
    PaddedRoundTrip(d.year, 4);
    PaddedRoundTrip(d.month, 2);
    PaddedRoundTrip(d.day, 2);
  }
}
