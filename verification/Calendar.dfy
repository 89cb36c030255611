/**
 Dates as the library stores them: `YYYY-MM-DD` strings compared as text.

 `Date` and the day numbers below are the calendar of RFC 3339 (sections 5.6
 and 5.7); the strings are what the tables hold. The lemmas say that comparing
 the strings is comparing days, and exactly when date arithmetic on the strings
 is arithmetic on day numbers.
 */
module Calendar {
  datatype Date = Date(year: int, month: int, day: int)

  // ---- The calendar ----

  predicate Leap(y: int) {
    y % 4 == 0 && (y % 100 != 0 || y % 400 == 0)
  }

  function DaysIn(y: int, m: int): int
    requires 1 <= m <= 12
  {
    if m == 2 then (if Leap(y) then 29 else 28)
    else if m == 4 || m == 6 || m == 9 || m == 11 then 30
    else 31
  }

  predicate ValidDate(d: Date) {
    1 <= d.month <= 12 && 1 <= d.day <= DaysIn(d.year, d.month)
  }

  /** Days from 0000-01-01 to the first day of year `y`. */
  function DaysBeforeYear(y: int): int {
    365 * y + (y + 3) / 4 - (y + 99) / 100 + (y + 399) / 400
  }

  function DaysBeforeMonth(y: int, m: int): int
    requires 1 <= m <= 13
  {
    if m == 1 then 0 else DaysBeforeMonth(y, m - 1) + DaysIn(y, m - 1)
  }

  function DayNumber(d: Date): int
    requires ValidDate(d)
  {
    DaysBeforeYear(d.year) + DaysBeforeMonth(d.year, d.month) + d.day - 1
  }

  /** The date after `d`, by the month lengths alone. */
  function NextDate(d: Date): (r: Date)
    requires ValidDate(d)
    ensures ValidDate(r)
  {
    if d.day < DaysIn(d.year, d.month) then Date(d.year, d.month, d.day + 1)
    else if d.month < 12 then Date(d.year, d.month + 1, 1)
    else Date(d.year + 1, 1, 1)
  }

  lemma YearLength(y: int)
    ensures DaysBeforeYear(y + 1) == DaysBeforeYear(y) + (if Leap(y) then 366 else 365)
  {
    assert (y + 4) / 4 - (y + 3) / 4 == (if y % 4 == 0 then 1 else 0);
    assert (y + 100) / 100 - (y + 99) / 100 == (if y % 100 == 0 then 1 else 0);
    assert (y + 400) / 400 - (y + 399) / 400 == (if y % 400 == 0 then 1 else 0);
    CenturyMultiples(y);
  }

  lemma CenturyMultiples(y: int)
    ensures y % 100 == 0 ==> y % 4 == 0
    ensures y % 400 == 0 ==> y % 100 == 0
  {
    if y % 100 == 0 { assert y == 4 * (25 * (y / 100)); }
    if y % 400 == 0 { assert y == 100 * (4 * (y / 400)); }
  }

  lemma MonthTable(y: int)
    ensures DaysBeforeMonth(y, 2) == 31
    ensures DaysBeforeMonth(y, 3) == 59 + (if Leap(y) then 1 else 0)
    ensures DaysBeforeMonth(y, 4) == DaysBeforeMonth(y, 3) + 31
    ensures DaysBeforeMonth(y, 5) == DaysBeforeMonth(y, 3) + 61
    ensures DaysBeforeMonth(y, 6) == DaysBeforeMonth(y, 3) + 92
    ensures DaysBeforeMonth(y, 7) == DaysBeforeMonth(y, 3) + 122
    ensures DaysBeforeMonth(y, 8) == DaysBeforeMonth(y, 3) + 153
    ensures DaysBeforeMonth(y, 9) == DaysBeforeMonth(y, 3) + 184
    ensures DaysBeforeMonth(y, 10) == DaysBeforeMonth(y, 3) + 214
    ensures DaysBeforeMonth(y, 11) == DaysBeforeMonth(y, 3) + 245
    ensures DaysBeforeMonth(y, 12) == DaysBeforeMonth(y, 3) + 275
    ensures DaysBeforeMonth(y, 13) == DaysBeforeMonth(y, 3) + 306
  {
    assert DaysBeforeMonth(y, 1) == 0;
    assert DaysBeforeMonth(y, 5) == DaysBeforeMonth(y, 4) + 30;
    assert DaysBeforeMonth(y, 7) == DaysBeforeMonth(y, 6) + 30;
    assert DaysBeforeMonth(y, 9) == DaysBeforeMonth(y, 8) + 31;
    assert DaysBeforeMonth(y, 11) == DaysBeforeMonth(y, 10) + 31;
    assert DaysBeforeMonth(y, 13) == DaysBeforeMonth(y, 12) + 31;
  }

  /** Day numbers count calendar days: the next date has the next number. */
  lemma NextDateIsNextDay(d: Date)
    requires ValidDate(d)
    ensures DayNumber(NextDate(d)) == DayNumber(d) + 1
  {
    YearLength(d.year);
    MonthTable(d.year);
  }

  /** Year of a day number: a linear estimate off by at most one, then corrected. */
  function YearOf(n: int): (y: int)
    ensures DaysBeforeYear(y) <= n < DaysBeforeYear(y + 1)
  {
    var y := 400 * n / 146097;
    if n < DaysBeforeYear(y) then y - 1
    else if DaysBeforeYear(y + 1) <= n then y + 1
    else y
  }

  /** Month of day `r` (counted from 0) of year `y`, searched from month `m` on. */
  function MonthOf(y: int, r: int, m: int): (k: int)
    requires 1 <= m <= 12
    requires DaysBeforeMonth(y, m) <= r < DaysBeforeMonth(y, 13)
    ensures m <= k <= 12
    ensures DaysBeforeMonth(y, k) <= r < DaysBeforeMonth(y, k + 1)
    decreases 12 - m
  {
    if r < DaysBeforeMonth(y, m + 1) then m else MonthOf(y, r, m + 1)
  }

  function FromDay(n: int): (d: Date)
    ensures ValidDate(d) && DayNumber(d) == n
  {
    var y := YearOf(n);
    YearLength(y);
    MonthTable(y);
    var r := n - DaysBeforeYear(y);
    var m := MonthOf(y, r, 1);
    Date(y, m, r - DaysBeforeMonth(y, m) + 1)
  }

  lemma {:induction false} MonthsInOrder(y: int, m: int, k: int)
    requires 1 <= m <= k <= 13
    ensures DaysBeforeMonth(y, m) + 28 * (k - m) <= DaysBeforeMonth(y, k)
    decreases k
  {
    if m < k { MonthsInOrder(y, m, k - 1); }
  }

  lemma {:induction false} YearsInOrder(x: int, y: int)
    requires x <= y
    ensures DaysBeforeYear(x) + 365 * (y - x) <= DaysBeforeYear(y)
    decreases y - x
  {
    if x < y {
      YearLength(y - 1);
      YearsInOrder(x, y - 1);
    }
  }

  predicate Earlier(a: Date, b: Date) {
    a.year < b.year || (a.year == b.year && (a.month < b.month || (a.month == b.month && a.day < b.day)))
  }

  lemma EarlierHasSmallerDay(a: Date, b: Date)
    requires ValidDate(a) && ValidDate(b) && Earlier(a, b)
    ensures DayNumber(a) < DayNumber(b)
  {
    MonthTable(a.year);
    YearLength(a.year);
    MonthsInOrder(b.year, 1, b.month);
    if a.year < b.year {
      MonthsInOrder(a.year, a.month + 1, 13);
      YearsInOrder(a.year + 1, b.year);
    } else if a.month < b.month {
      MonthsInOrder(a.year, a.month + 1, b.month);
    }
  }

  /** Comparing dates field by field is comparing day numbers, so a date is determined by its day. */
  lemma EarlierIffSmallerDay(a: Date, b: Date)
    requires ValidDate(a) && ValidDate(b)
    ensures Earlier(a, b) <==> DayNumber(a) < DayNumber(b)
    ensures a == b <==> DayNumber(a) == DayNumber(b)
  {
    if Earlier(a, b) {
      EarlierHasSmallerDay(a, b);
    } else if Earlier(b, a) {
      EarlierHasSmallerDay(b, a);
    }
  }
}
