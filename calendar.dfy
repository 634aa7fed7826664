/** The proleptic Gregorian calendar as JavaScript's `Date` sees it in UTC: month lengths and
    leap years, the `Date.UTC(y, m - 1, d)` round trip the validators use to reject impossible
    dates, and "January 1 plus k days" as `setUTCDate` computes it. */
module Calendar {

  import Common

  /** A calendar date: `getUTCFullYear()`, `getUTCMonth() + 1` and `getUTCDate()` of a `Date`. */
  datatype Date = Date(year: int, month: int, day: int)

  predicate IsLeapYear(y: int) {
    y % 4 == 0 && (y % 100 != 0 || y % 400 == 0)
  }

  function DaysInMonth(y: int, m: int): (n: int)
    requires 1 <= m <= 12
    ensures 28 <= n <= 31
    ensures m == 2 ==> (n == 29 <==> IsLeapYear(y))
    ensures m != 2 ==> (n == 30 <==> m in {4, 6, 9, 11})
  {
    if m == 2 then (if IsLeapYear(y) then 29 else 28)
    else if m == 4 || m == 6 || m == 9 || m == 11 then 30
    else 31
  }

  function DaysInYear(y: int): (n: int)
    ensures n == 365 || n == 366
    ensures n == 366 <==> IsLeapYear(y)
  {
    if IsLeapYear(y) then 366 else 365
  }

  predicate IsValidDate(d: Date) {
    1 <= d.month <= 12 && 1 <= d.day <= DaysInMonth(d.year, d.month)
  }

  /** The year `Date.UTC` uses for its year argument: 0..99 stand for 1900..1999. */
  function UtcYear(y: int): (r: int)
    ensures 0 <= y <= 99 ==> r == 1900 + y
    ensures !(0 <= y <= 99) ==> r == y
  {
    if 0 <= y <= 99 then 1900 + y else y
  }

  /** True iff `new Date(Date.UTC(y, m - 1, d))` reads back as year y, month m and day d: the
      date exists and the year is not one that `Date.UTC` moves into the 1900s. (A month outside
      1..12 or a day outside the month rolls over into another month, whose month or day number
      then differs from m or d.) */
  predicate UtcRoundTrips(y: int, m: int, d: int) {
    UtcYear(y) == y && IsValidDate(Date(y, m, d))
  }

  /** The number of days of year y before the first day of month m. */
  function MonthStart(y: int, m: int): (n: nat)
    requires 1 <= m <= 13
  {
    if m == 1 then 0 else MonthStart(y, m - 1) + DaysInMonth(y, m - 1)
  }

  lemma {:induction false} MonthStartBounds(y: int, m: int)
    requires 1 <= m <= 13
    ensures 28 * (m - 1) <= MonthStart(y, m) <= 31 * (m - 1)
  {
    if m > 1 {
      MonthStartBounds(y, m - 1);
    }
  }

  /** The twelve months make up the year. */
  lemma MonthStartYear(y: int)
    ensures MonthStart(y, 13) == DaysInYear(y)
  {
    assert MonthStart(y, 2) == 31;
    assert MonthStart(y, 3) == 31 + DaysInMonth(y, 2);
    assert MonthStart(y, 4) == 62 + DaysInMonth(y, 2);
    assert MonthStart(y, 5) == 92 + DaysInMonth(y, 2);
    assert MonthStart(y, 6) == 123 + DaysInMonth(y, 2);
    assert MonthStart(y, 7) == 153 + DaysInMonth(y, 2);
    assert MonthStart(y, 8) == 184 + DaysInMonth(y, 2);
    assert MonthStart(y, 9) == 215 + DaysInMonth(y, 2);
    assert MonthStart(y, 10) == 245 + DaysInMonth(y, 2);
    assert MonthStart(y, 11) == 276 + DaysInMonth(y, 2);
    assert MonthStart(y, 12) == 306 + DaysInMonth(y, 2);
  }

  lemma {:induction false} MonthStartMonotone(y: int, m: int, m': int)
    requires 1 <= m <= m' <= 13
    ensures MonthStart(y, m) + (if m < m' then DaysInMonth(y, m) else 0) <= MonthStart(y, m')
    decreases m' - m
  {
    if m < m' {
      if m + 1 < m' {
        MonthStartMonotone(y, m + 1, m');
      }
    }
  }

  /** The zero-based day of the year of a date. */
  function DayOfYear(d: Date): (k: nat)
    requires IsValidDate(d)
    ensures k < DaysInYear(d.year)
  {
    MonthStartMonotone(d.year, d.month, 13);
    MonthStartYear(d.year);
    MonthStart(d.year, d.month) + d.day - 1
  }

  /** The date k days after the first day of month m of year y, within year y. */
  function DateFrom(y: int, m: int, k: nat): (d: Date)
    requires 1 <= m <= 12
    requires MonthStart(y, m) + k < DaysInYear(y)
    ensures IsValidDate(d) && d.year == y && m <= d.month
    ensures DayOfYear(d) == MonthStart(y, m) + k
    decreases 12 - m
  {
    MonthStartYear(y);
    assert MonthStart(y, 13) == MonthStart(y, 12) + DaysInMonth(y, 12);
    if k < DaysInMonth(y, m) then Date(y, m, k + 1)
    else
      DateFrom(y, m + 1, k - DaysInMonth(y, m))
  }

  /** The date with zero-based day k of year y. */
  function DateOfYearDay(y: int, k: nat): (d: Date)
    requires k < DaysInYear(y)
    ensures IsValidDate(d) && d.year == y
    ensures DayOfYear(d) == k
  {
    DateFrom(y, 1, k)
  }

  /** A date is determined by its year and its day of the year. */
  lemma {:induction false} DayOfYearInjective(d: Date, e: Date)
    requires IsValidDate(d) && IsValidDate(e) && d.year == e.year
    requires DayOfYear(d) == DayOfYear(e)
    ensures d == e
  {
    if d.month < e.month {
      MonthStartMonotone(d.year, d.month, e.month);
      assert false;
    } else if e.month < d.month {
      MonthStartMonotone(d.year, e.month, d.month);
      assert false;
    }
  }

  /** Counting days inverts `DayOfYear`. */
  lemma DateOfYearDayOfYear(d: Date)
    requires IsValidDate(d)
    ensures DateOfYearDay(d.year, DayOfYear(d)) == d
  {
    DayOfYearInjective(DateOfYearDay(d.year, DayOfYear(d)), d);
  }

  /** `new Date(Date.UTC(y, 0, 1))` followed by `setUTCDate(1 + k)`: January 1 of year y moved
      k days forward (or back, for negative k), rolling over into other years. */
  function AddDays(y: int, k: int): (d: Date)
    ensures IsValidDate(d)
    ensures 0 <= k < DaysInYear(y) ==> d.year == y && DayOfYear(d) == k
    ensures k < 0 ==> d.year < y
    ensures k >= DaysInYear(y) ==> d.year > y
    ensures -DaysInYear(y - 1) <= k < 0 ==> d.year == y - 1 && DayOfYear(d) == k + DaysInYear(y - 1)
    ensures DaysInYear(y) <= k < DaysInYear(y) + DaysInYear(y + 1) ==>
      d.year == y + 1 && DayOfYear(d) == k - DaysInYear(y)
    decreases if k < 0 then 1 else 0, Common.Abs(k)
  {
    if k < 0 then AddDays(y - 1, k + DaysInYear(y - 1))
    else if k < DaysInYear(y) then DateOfYearDay(y, k)
    else AddDays(y + 1, k - DaysInYear(y))
  }

  /** One day before January 1 is December 31 of the year before. */
  lemma AddDaysMinusOne(y: int)
    ensures AddDays(y, -1) == Date(y - 1, 12, 31)
  {
    var d := AddDays(y, -1);
    var e := Date(y - 1, 12, 31);
    MonthStartYear(y - 1);
    assert MonthStart(y - 1, 13) == MonthStart(y - 1, 12) + 31;
    DayOfYearInjective(d, e);
  }
}
