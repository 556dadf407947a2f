/** Proleptic Gregorian civil dates, as pandas Timestamps and Python datetimes
    use them, reduced to the calendar day. A date is converted to a count of
    days since 0001-01-01 so that day arithmetic (`AddDays`) and day
    differences are exact, and `AddMonths` clamps the day to the end of the
    target month the way `pd.DateOffset(months=k)` does. */
module Calendar {

  /** A year/month/day triple; only the valid ones form a `Date`. */
  datatype Ymd = Ymd(year: int, month: int, day: int)

  predicate IsLeapYear(y: int) {
    y % 4 == 0 && (y % 100 != 0 || y % 400 == 0)
  }

  function DaysInMonth(y: int, m: int): (n: int)
    requires 1 <= m <= 12
    ensures 28 <= n <= 31
  {
    if m == 2 then (if IsLeapYear(y) then 29 else 28)
    else if m == 4 || m == 6 || m == 9 || m == 11 then 30
    else 31
  }

  predicate Valid(d: Ymd) {
    1 <= d.year && 1 <= d.month <= 12 && 1 <= d.day <= DaysInMonth(d.year, d.month)
  }

  /** A valid calendar date from year 1 onwards. */
  type Date = d: Ymd | Valid(d) witness Ymd(1, 1, 1)

  function YearLength(y: int): int {
    if IsLeapYear(y) then 366 else 365
  }

  /** Days of year `y` that precede the first of month `m` (`m == 13` gives the
      whole year). */
  function DaysBeforeMonth(y: int, m: int): (n: int)
    requires 1 <= m <= 13
    ensures 0 <= n <= YearLength(y)
  {
    var leap := if m > 2 && IsLeapYear(y) then 1 else 0;
    var common :=
      if m == 1 then 0 else if m == 2 then 31 else if m == 3 then 59
      else if m == 4 then 90 else if m == 5 then 120 else if m == 6 then 151
      else if m == 7 then 181 else if m == 8 then 212 else if m == 9 then 243
      else if m == 10 then 273 else if m == 11 then 304 else if m == 12 then 334
      else 365;
    common + leap
  }

  /** Days from 0001-01-01 to the first of January of year `y`. */
  function DaysBeforeYear(y: int): nat
    requires 1 <= y
    decreases y
  {
    if y == 1 then 0 else DaysBeforeYear(y - 1) + YearLength(y - 1)
  }

  /** Days elapsed since 0001-01-01. */
  function ToDays(d: Date): nat {
    DaysBeforeYear(d.year) + DaysBeforeMonth(d.year, d.month) + d.day - 1
  }

  /** The date of day `n` (0-based) of year `y`, found by scanning months from `m`. */
  function MonthScan(y: int, m: int, n: int): (r: Date)
    requires 1 <= y && 1 <= m <= 12
    requires DaysBeforeMonth(y, m) <= n < YearLength(y)
    ensures r.year == y && m <= r.month
    ensures DaysBeforeMonth(y, r.month) + r.day - 1 == n
    decreases 12 - m
  {
    if n < DaysBeforeMonth(y, m + 1) then Ymd(y, m, n - DaysBeforeMonth(y, m) + 1)
    else MonthScan(y, m + 1, n)
  }

  /** The date lying `n` days after the first of January of year `y`. */
  function FromDaysIn(y: int, n: nat): (r: Date)
    requires 1 <= y
    ensures y <= r.year
    ensures ToDays(r) == DaysBeforeYear(y) + n
    decreases n
  {
    if n < YearLength(y) then MonthScan(y, 1, n)
    else FromDaysIn(y + 1, n - YearLength(y))
  }

  /** The date `n` days after 0001-01-01: the inverse of `ToDays`. */
  function FromDays(n: nat): (r: Date)
    ensures ToDays(r) == n
  {
    FromDaysIn(1, n)
  }

  /** Strict chronological order, read off the year, month and day. */
  predicate Before(a: Date, b: Date) {
    a.year < b.year
    || (a.year == b.year && a.month < b.month)
    || (a.year == b.year && a.month == b.month && a.day < b.day)
  }

  function Max(a: Date, b: Date): (r: Date)
    ensures r == a || r == b
    ensures !Before(r, a) && !Before(r, b)
  {
    if Before(a, b) then b else a
  }

  /** `d + pd.Timedelta(days=n)`. */
  function AddDays(d: Date, n: nat): (r: Date)
    ensures ToDays(r) == ToDays(d) + n
  {
    FromDays(ToDays(d) + n)
  }

  /** Months since the start of year 0: the position of a month on one line. */
  function MonthIndex(d: Date): int {
    12 * d.year + d.month - 1
  }

  function MinInt(a: int, b: int): int {
    if a <= b then a else b
  }

  /** `d + pd.DateOffset(months=k)`: move `k` months forward and clamp the day
      to the length of the month reached. */
  function AddMonths(d: Date, k: nat): (r: Date)
    ensures MonthIndex(r) == MonthIndex(d) + k
    ensures r.day == MinInt(d.day, DaysInMonth(r.year, r.month))
  {
    var t := MonthIndex(d) + k;
    var y := t / 12;
    var m := t % 12 + 1;
    Ymd(y, m, MinInt(d.day, DaysInMonth(y, m)))
  }

  // ---------------------------------------------------------------------------
  // Lemmas
  // ---------------------------------------------------------------------------

  lemma {:induction false} DaysBeforeYearMonotone(y1: int, y2: int)
    requires 1 <= y1 <= y2
    ensures DaysBeforeYear(y1) + (y2 - y1) * 365 <= DaysBeforeYear(y2)
    decreases y2 - y1
  {
    if y1 < y2 {
      DaysBeforeYearMonotone(y1, y2 - 1);
    }
  }

  lemma DaysBeforeMonthMonotone(y: int, m1: int, m2: int)
    requires 1 <= m1 <= m2 <= 13
    ensures DaysBeforeMonth(y, m1) <= DaysBeforeMonth(y, m2)
    ensures m1 < m2 ==> DaysBeforeMonth(y, m1) + DaysInMonth(y, m1) <= DaysBeforeMonth(y, m2)
  {
  }

  /** The day count grows strictly along the calendar order. */
  lemma {:induction false} ToDaysStrictlyIncreasing(a: Date, b: Date)
    requires Before(a, b)
    ensures ToDays(a) < ToDays(b)
  {
    if a.year < b.year {
      DaysBeforeMonthMonotone(a.year, a.month, 13);
      DaysBeforeYearMonotone(a.year + 1, b.year);
      assert DaysBeforeYear(a.year + 1) == DaysBeforeYear(a.year) + YearLength(a.year);
    } else if a.month < b.month {
      DaysBeforeMonthMonotone(a.year, a.month, b.month);
    }
  }

  /** The calendar order and the day-count order agree. */
  lemma BeforeIffFewerDays(a: Date, b: Date)
    ensures Before(a, b) <==> ToDays(a) < ToDays(b)
  {
    if Before(a, b) {
      ToDaysStrictlyIncreasing(a, b);
    } else if Before(b, a) {
      ToDaysStrictlyIncreasing(b, a);
    }
  }

  lemma ToDaysInjective(a: Date, b: Date)
    requires ToDays(a) == ToDays(b)
    ensures a == b
  {
    BeforeIffFewerDays(a, b);
    BeforeIffFewerDays(b, a);
  }

  /** Converting a date to its day count and back gives the date itself. */
  lemma FromToDays(d: Date)
    ensures FromDays(ToDays(d)) == d
  {
    ToDaysInjective(FromDays(ToDays(d)), d);
  }

  /** Adding days in two steps is adding their sum. */
  lemma AddDaysAdditive(d: Date, a: nat, b: nat)
    ensures AddDays(AddDays(d, a), b) == AddDays(d, a + b)
  {
    ToDaysInjective(AddDays(AddDays(d, a), b), AddDays(d, a + b));
  }

  /** Adding a positive number of days moves strictly forward. */
  lemma AddDaysAfter(d: Date, n: nat)
    ensures n > 0 ==> Before(d, AddDays(d, n))
    ensures !Before(AddDays(d, n), d)
  {
    BeforeIffFewerDays(d, AddDays(d, n));
    BeforeIffFewerDays(AddDays(d, n), d);
  }

  /** Adding days that stay inside the month only moves the day number. */
  lemma AddDaysWithinMonth(d: Date, n: nat)
    requires d.day + n <= DaysInMonth(d.year, d.month)
    ensures AddDays(d, n) == Ymd(d.year, d.month, d.day + n)
  {
    var e: Date := Ymd(d.year, d.month, d.day + n);
    ToDaysInjective(AddDays(d, n), e);
  }

  /** Chronological order is transitive. */
  lemma BeforeTransitive(a: Date, b: Date, c: Date)
    ensures Before(a, b) && Before(b, c) ==> Before(a, c)
    ensures !Before(b, a) && !Before(c, b) ==> !Before(c, a)
  {
  }

  /** Adding months never moves a date backwards. */
  lemma AddMonthsNotBefore(d: Date, k: nat)
    ensures !Before(AddMonths(d, k), d)
    ensures k > 0 ==> Before(d, AddMonths(d, k))
  {
  }
}
