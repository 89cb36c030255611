/** The text of dates: formatting, parsing, comparison and arithmetic on `YYYY-MM-DD` strings. */
module Dates {
  import opened Calendar
  import opened Wrappers

  // ---- Decimal digits ----

  predicate IsDigit(c: char) { '0' <= c <= '9' }

  predicate AllDigits(s: string) { forall i :: 0 <= i < |s| ==> IsDigit(s[i]) }

  function Digit(n: int): (c: char)
    requires 0 <= n < 10
    ensures IsDigit(c) && c as int - '0' as int == n
  {
    (n + '0' as int) as char
  }

  function Pow10(w: nat): (p: nat)
    ensures p >= 1
  {
    if w == 0 then 1 else 10 * Pow10(w - 1)
  }

  /** Decimal digits of `n`, padded with zeros to at least `w` characters. */
  function Digits(n: nat, w: nat): (s: string)
    ensures |s| >= 1 && |s| >= w
    ensures AllDigits(s)
    decreases n, w
  {
    if n < 10 && w <= 1 then [Digit(n)]
    else Digits(n / 10, if w == 0 then 0 else w - 1) + [Digit(n % 10)]
  }

  function Value(s: string): (n: nat)
    requires AllDigits(s)
  {
    if s == [] then 0
    else Value(s[..|s| - 1]) * 10 + (s[|s| - 1] as int - '0' as int)
  }

  lemma {:induction false} ValueOfDigits(n: nat, w: nat)
    ensures Value(Digits(n, w)) == n
    decreases n, w
  {
    if n < 10 && w <= 1 {
      assert Digits(n, w)[..0] == "";
    } else {
      var t := Digits(n / 10, if w == 0 then 0 else w - 1);
      assert Digits(n, w)[..|t|] == t;
      ValueOfDigits(n / 10, if w == 0 then 0 else w - 1);
    }
  }

  lemma {:induction false} DigitsOfValue(s: string)
    requires AllDigits(s) && |s| >= 1
    ensures Digits(Value(s), |s|) == s
  {
    var p := s[..|s| - 1];
    if p == [] {
      assert Value(p) == 0;
    } else {
      DigitsOfValue(p);
    }
    assert s == p + [s[|s| - 1]];
  }

  lemma {:induction false} DigitsWidth(n: nat, w: nat)
    requires w >= 1
    ensures n < Pow10(w) <==> |Digits(n, w)| == w
    decreases w
  {
    if w > 1 {
      DigitsWidth(n / 10, w - 1);
    } else if n >= 10 {
      assert |Digits(n / 10, 0)| >= 1;
    }
  }

  // ---- Text order ----

  /** Lexicographic order of strings. */
  predicate Less(a: string, b: string) {
    if b == [] then false
    else if a == [] then true
    else a[0] < b[0] || (a[0] == b[0] && Less(a[1..], b[1..]))
  }

  lemma {:induction false} LessConcat(p: string, q: string, a: string, b: string)
    requires |p| == |q|
    ensures Less(p + a, q + b) <==> Less(p, q) || (p == q && Less(a, b))
  {
    if p == [] {
      assert p + a == a && q + b == b;
    } else {
      LessConcat(p[1..], q[1..], a, b);
      assert (p + a)[1..] == p[1..] + a && (q + b)[1..] == q[1..] + b;
      assert p == [p[0]] + p[1..] && q == [q[0]] + q[1..];
    }
  }

  lemma LessIrreflexive(a: string)
    ensures !Less(a, a)
  {
  }

  lemma LessLastDigit(p: string, q: string, a: int, b: int)
    requires |p| == |q| && 0 <= a < 10 && 0 <= b < 10
    ensures Less(p + [Digit(a)], q + [Digit(b)]) <==> Less(p, q) || (p == q && a < b)
  {
    var x, y := [Digit(a)], [Digit(b)];
    LessConcat(p, q, x, y);
    assert !Less(x[1..], y[1..]);
  }

  lemma DigitsDetermine(a: nat, b: nat, w: nat)
    ensures Digits(a, w) == Digits(b, w) <==> a == b
  {
    ValueOfDigits(a, w);
    ValueOfDigits(b, w);
  }

  lemma {:induction false} LessTotal(a: string, b: string)
    ensures Less(a, b) || a == b || Less(b, a)
    ensures !(Less(a, b) && Less(b, a))
  {
    if a != [] && b != [] {
      LessTotal(a[1..], b[1..]);
      assert a == [a[0]] + a[1..] && b == [b[0]] + b[1..];
    }
  }

  lemma {:induction false} LessTransitive(a: string, b: string, c: string)
    ensures Less(a, b) && Less(b, c) ==> Less(a, c)
  {
    if a != [] && b != [] && c != [] { LessTransitive(a[1..], b[1..], c[1..]); }
  }

  predicate AtMost(a: string, b: string) { !Less(b, a) }

  lemma AtMostTransitive(a: string, b: string, c: string)
    ensures AtMost(a, b) && AtMost(b, c) ==> AtMost(a, c)
  {
    hide Less;
    LessTotal(a, b);
    LessTotal(b, c);
    LessTransitive(c, a, b);
    LessTransitive(b, c, a);
    LessTotal(a, c);
  }

  /** Numbers padded to one width compare as text the way they compare as numbers. */
  lemma {:induction false} DigitsOrder(a: nat, b: nat, w: nat)
    requires w >= 1 && a < Pow10(w) && b < Pow10(w)
    ensures Less(Digits(a, w), Digits(b, w)) <==> a < b
    decreases w
  {
    if w == 1 {
      assert Digits(a, 1) == "" + [Digit(a)] && Digits(b, 1) == "" + [Digit(b)];
      LessLastDigit("", "", a, b);
    } else {
      DigitsOrder(a / 10, b / 10, w - 1);
      DigitsWidth(a / 10, w - 1);
      DigitsWidth(b / 10, w - 1);
      DigitsDetermine(a / 10, b / 10, w - 1);
      LessLastDigit(Digits(a / 10, w - 1), Digits(b / 10, w - 1), a % 10, b % 10);
    }
  }

  // ---- Formatting and parsing ----

  const MAX_YEAR := 9999

  function YearText(y: int): string {
    if y < 0 then "-" + Digits(-y, 4) else Digits(y, 4)
  }

  function Format(d: Date): string
    requires ValidDate(d)
  {
    YearText(d.year) + ("-" + (Digits(d.month, 2) + ("-" + Digits(d.day, 2))))
  }

  /** `time.Parse("2006-01-02", s)`: four digits, two digits, two digits, and a real date. */
  function Parse(s: string): (r: Option<Date>)
    ensures r.Some? ==> ValidDate(r.value)
  {
    if |s| == 10 && s[4] == '-' && s[7] == '-' && AllDigits(s[..4]) && AllDigits(s[5..7]) && AllDigits(s[8..]) then
      var d := Date(Value(s[..4]), Value(s[5..7]), Value(s[8..]));
      if ValidDate(d) then Some(d) else None
    else
      None
  }

  predicate IsDate(s: string) { Parse(s).Some? }

  function DayOf(s: string): int
    requires IsDate(s)
  {
    DayNumber(Parse(s).value)
  }

  function FormatDay(n: int): string { Format(FromDay(n)) }

  /** The day numbers of years 0000 to 9999. */
  predicate InRange(n: int) { 0 <= n < DaysBeforeYear(MAX_YEAR + 1) }

  lemma FormatShape(d: Date)
    requires ValidDate(d) && 0 <= d.year <= MAX_YEAR
    ensures |Format(d)| == 10 && Format(d)[4] == '-' && Format(d)[7] == '-'
    ensures Format(d)[..4] == Digits(d.year, 4) && Format(d)[5..7] == Digits(d.month, 2)
    ensures Format(d)[8..] == Digits(d.day, 2)
  {
    assert Pow10(4) == 10000 && Pow10(2) == 100 by {
      assert Pow10(1) == 10 && Pow10(3) == 10 * Pow10(2);
    }
    DigitsWidth(d.year, 4);
    DigitsWidth(d.month, 2);
    DigitsWidth(d.day, 2);
  }

  lemma ParseFormat(d: Date)
    requires ValidDate(d) && 0 <= d.year <= MAX_YEAR
    ensures Parse(Format(d)) == Some(d)
  {
    FormatShape(d);
    ValueOfDigits(d.year, 4);
    ValueOfDigits(d.month, 2);
    ValueOfDigits(d.day, 2);
  }

  lemma FormatOutOfRange(d: Date)
    requires ValidDate(d) && !(0 <= d.year <= MAX_YEAR)
    ensures |Format(d)| > 10
  {
    assert Pow10(4) == 10000 by { assert Pow10(2) == 10 * Pow10(1) && Pow10(3) == 10 * Pow10(2); }
    if d.year >= 0 { DigitsWidth(d.year, 4); }
  }

  lemma FormatParse(s: string)
    requires IsDate(s)
    ensures Format(Parse(s).value) == s && 0 <= Parse(s).value.year <= MAX_YEAR
  {
    var d := Parse(s).value;
    DigitsOfValue(s[..4]);
    DigitsOfValue(s[5..7]);
    DigitsOfValue(s[8..]);
    assert Pow10(4) == 10000 by { assert Pow10(2) == 10 * Pow10(1) && Pow10(3) == 10 * Pow10(2); }
    DigitsWidth(d.year, 4);
    assert s == s[..4] + ("-" + (s[5..7] + ("-" + s[8..])));
  }

  lemma DayInYear(d: Date)
    requires ValidDate(d)
    ensures DaysBeforeYear(d.year) <= DayNumber(d) < DaysBeforeYear(d.year + 1)
  {
    MonthTable(d.year);
    YearLength(d.year);
    MonthsInOrder(d.year, 1, d.month);
    MonthsInOrder(d.year, d.month + 1, 13);
  }

  lemma YearZero()
    ensures DaysBeforeYear(0) == 0
  {
  }

  lemma RangeIsYears(n: int)
    ensures InRange(n) <==> 0 <= FromDay(n).year <= MAX_YEAR
  {
    hide DaysBeforeYear, DayNumber, FromDay;
    var y := FromDay(n).year;
    DayInYear(FromDay(n));
    YearZero();
    if y < 0 {
      YearsInOrder(y + 1, 0);
    } else if y > MAX_YEAR {
      YearsInOrder(MAX_YEAR + 1, y);
    } else {
      YearsInOrder(0, y);
      YearsInOrder(y + 1, MAX_YEAR + 1);
    }
  }

  /** A formatted day reads back as that day, exactly for the years 0000 to 9999. */
  lemma DayRoundTrip(n: int)
    ensures IsDate(FormatDay(n)) <==> InRange(n)
    ensures InRange(n) ==> DayOf(FormatDay(n)) == n
  {
    RangeIsYears(n);
    if InRange(n) {
      ParseFormat(FromDay(n));
    } else {
      FormatOutOfRange(FromDay(n));
    }
  }

  lemma TextRoundTrip(s: string)
    requires IsDate(s)
    ensures FormatDay(DayOf(s)) == s && InRange(DayOf(s))
  {
    FormatParse(s);
    EarlierIffSmallerDay(FromDay(DayOf(s)), Parse(s).value);
    RangeIsYears(DayOf(s));
  }

  lemma SuffixOrder(p: nat, q: nat, s: string, t: string)
    requires p < 100 && q < 100
    ensures Less("-" + (Digits(p, 2) + s), "-" + (Digits(q, 2) + t)) <==> p < q || (p == q && Less(s, t))
  {
    assert Pow10(2) == 100 by { assert Pow10(1) == 10; }
    DigitsOrder(p, q, 2);
    DigitsDetermine(p, q, 2);
    DigitsWidth(p, 2);
    DigitsWidth(q, 2);
    LessConcat("-", "-", Digits(p, 2) + s, Digits(q, 2) + t);
    LessConcat(Digits(p, 2), Digits(q, 2), s, t);
    LessIrreflexive("-");
  }

  lemma FormatOrder(a: Date, b: Date)
    requires ValidDate(a) && 0 <= a.year <= MAX_YEAR
    requires ValidDate(b) && 0 <= b.year <= MAX_YEAR
    ensures Less(Format(a), Format(b)) <==> Earlier(a, b)
  {
    assert Pow10(4) == 10000 by { assert Pow10(2) == 10 * Pow10(1) && Pow10(3) == 10 * Pow10(2); }
    DigitsOrder(a.year, b.year, 4);
    DigitsDetermine(a.year, b.year, 4);
    DigitsWidth(a.year, 4);
    DigitsWidth(b.year, 4);
    var ad, bd := "-" + Digits(a.day, 2), "-" + Digits(b.day, 2);
    LessConcat(Digits(a.year, 4), Digits(b.year, 4), "-" + (Digits(a.month, 2) + ad), "-" + (Digits(b.month, 2) + bd));
    SuffixOrder(a.month, b.month, ad, bd);
    SuffixOrder(a.day, b.day, "", "");
    assert Digits(a.day, 2) + "" == Digits(a.day, 2) && Digits(b.day, 2) + "" == Digits(b.day, 2);
  }

  /** Comparing two dates as text is comparing their days. */
  lemma TextOrderIsDayOrder(s: string, t: string)
    requires IsDate(s) && IsDate(t)
    ensures Less(s, t) <==> DayOf(s) < DayOf(t)
    ensures s == t <==> DayOf(s) == DayOf(t)
  {
    FormatParse(s);
    FormatParse(t);
    FormatOrder(Parse(s).value, Parse(t).value);
    EarlierIffSmallerDay(Parse(s).value, Parse(t).value);
  }

  lemma YearTextInjective(x: int, y: int)
    requires YearText(x) == YearText(y)
    ensures x == y
  {
    if x >= 0 { ValueOfDigits(x, 4); } else { ValueOfDigits(-x, 4); }
    if y >= 0 { ValueOfDigits(y, 4); } else { ValueOfDigits(-y, 4); }
    if x < 0 {
      assert YearText(x)[0] == '-' && !IsDigit('-');
      assert YearText(x)[1..] == Digits(-x, 4) && YearText(y)[1..] == Digits(-y, 4);
    } else {
      assert IsDigit(YearText(x)[0]);
    }
  }

  lemma FormatParts(d: Date)
    requires ValidDate(d)
    ensures |Format(d)| == |YearText(d.year)| + 6
    ensures var k := |YearText(d.year)|;
            Format(d)[..k] == YearText(d.year) && Format(d)[k + 1..k + 3] == Digits(d.month, 2)
              && Format(d)[k + 4..] == Digits(d.day, 2)
  {
    assert Pow10(2) == 100 by { assert Pow10(1) == 10; }
    DigitsWidth(d.month, 2);
    DigitsWidth(d.day, 2);
  }

  lemma FormatDayInjective(m: int, n: int)
    requires FormatDay(m) == FormatDay(n)
    ensures m == n
  {
    var a, b := FromDay(m), FromDay(n);
    FormatParts(a);
    FormatParts(b);
    YearTextInjective(a.year, b.year);
    ValueOfDigits(a.month, 2);
    ValueOfDigits(b.month, 2);
    ValueOfDigits(a.day, 2);
    ValueOfDigits(b.day, 2);
  }

  // ---- Arithmetic on date strings ----

  /** `addDays`: a string that is not a date comes back unchanged. */
  function AddDays(date: string, n: int): string {
    if IsDate(date) then FormatDay(DayOf(date) + n) else date
  }

  lemma AddDaysFrom(date: string, n: int)
    requires IsDate(date)
    ensures AddDays(date, n) == FormatDay(DayOf(date) + n)
  {
  }

  /** Adding days reads back as adding to the day number, exactly inside years 0000 to 9999. */
  lemma AddDaysIsDayArithmetic(date: string, n: int)
    requires IsDate(date)
    ensures IsDate(AddDays(date, n)) <==> InRange(DayOf(date) + n)
    ensures InRange(DayOf(date) + n) ==> DayOf(AddDays(date, n)) == DayOf(date) + n
  {
    hide *;
    AddDaysFrom(date, n);
    DayRoundTrip(DayOf(date) + n);
  }

  lemma AddDaysToDay(d: int, n: int)
    ensures AddDays(FormatDay(d), n) == if InRange(d) then FormatDay(d + n) else FormatDay(d)
  {
    hide *;
    DayRoundTrip(d);
    if InRange(d) {
      AddDaysFrom(FormatDay(d), n);
    } else {
      NotADate(FormatDay(d), n);
    }
  }

  lemma NotADate(s: string, n: int)
    requires !IsDate(s)
    ensures AddDays(s, n) == s
  {
  }

  lemma SameFormattedDay(m: int, n: int)
    ensures FormatDay(m) == FormatDay(n) <==> m == n
  {
    hide *;
    if FormatDay(m) == FormatDay(n) { FormatDayInjective(m, n); }
  }

  /** Adding `m` and then `n` is adding `m + n`, unless the date in between left the four-digit years. */
  lemma AddDaysComposes(date: string, m: int, n: int)
    requires IsDate(date)
    ensures AddDays(AddDays(date, m), n) == AddDays(date, m + n) <==> InRange(DayOf(date) + m) || n == 0
  {
    hide *;
    var d := DayOf(date);
    AddDaysFrom(date, m);
    AddDaysFrom(date, m + n);
    AddDaysToDay(d + m, n);
    SameFormattedDay(d + m, d + (m + n));
    assert d + m + n == d + (m + n);
  }

  lemma YearEnds(y: int)
    ensures DayNumber(Date(y, 1, 1)) == DaysBeforeYear(y) && DayNumber(Date(y, 12, 31)) == DaysBeforeYear(y + 1) - 1
  {
    MonthTable(y);
    YearLength(y);
  }

  lemma FormatDayOf(d: Date)
    requires ValidDate(d)
    ensures FormatDay(DayNumber(d)) == Format(d)
  {
    EarlierIffSmallerDay(FromDay(DayNumber(d)), d);
    hide Format;
  }

  lemma FormattedDate(d: Date)
    requires ValidDate(d) && 0 <= d.year <= MAX_YEAR
    ensures IsDate(Format(d)) && DayOf(Format(d)) == DayNumber(d)
  {
    hide Parse, Format;
    ParseFormat(d);
  }

  /**
   Two loan periods from the last date of year 9999: the first leaves the four-digit years, and the
   second is lost.
   */
  lemma TwoPeriodsFromTheLastDate()
    ensures var last := Format(Date(9999, 12, 31));
            IsDate(last) && AddDays(AddDays(last, 14), 14) == AddDays(last, 14) != AddDays(last, 28)
  {
    LastDay();
    FormattedDate(Date(9999, 12, 31));
    PeriodsOutOfRange(Format(Date(9999, 12, 31)), 14);
  }

  lemma PeriodsOutOfRange(date: string, days: nat)
    requires IsDate(date) && !InRange(DayOf(date) + days) && days > 0
    ensures AddDays(AddDays(date, days), days) == AddDays(date, days) != AddDays(date, 2 * days)
  {
    hide *;
    AddDaysFrom(date, days);
    AddDaysFrom(date, 2 * days);
    AddDaysToDay(DayOf(date) + days, days);
    SameFormattedDay(DayOf(date) + days, DayOf(date) + 2 * days);
  }

  lemma LastDay()
    ensures !InRange(DayNumber(Date(9999, 12, 31)) + 14)
  {
    MonthTable(9999);
    YearLength(9999);
  }

  lemma AddOneDayIsNextDate(date: string)
    requires IsDate(date)
    ensures AddDays(date, 1) == Format(NextDate(Parse(date).value))
  {
    NextDateIsNextDay(Parse(date).value);
    EarlierIffSmallerDay(FromDay(DayOf(date) + 1), NextDate(Parse(date).value));
  }

  // A duration is a 64-bit count of nanoseconds; subtracting times saturates.
  const NANOS_PER_HOUR := 3_600_000_000_000
  const MAX_DURATION := 0x7fff_ffff_ffff_ffff
  const MIN_DURATION := -0x8000_0000_0000_0000
  const MAX_DURATION_DAYS := 106751

  function Saturate(ns: int): int {
    if ns > MAX_DURATION then MAX_DURATION else if ns < MIN_DURATION then MIN_DURATION else ns
  }

  /** Division that drops the fraction, as a conversion to `int` does. */
  function Truncate(a: int, b: int): int
    requires b > 0
  {
    if a >= 0 then a / b else -(-a / b)
  }

  /** A string that is not a date stands for the zero time, 0001-01-01. */
  function DayOrZero(s: string): int {
    if IsDate(s) then DayOf(s) else DaysBeforeYear(1)
  }

  /** `daysBetween`: hours between the two midnights, divided by 24 and truncated. */
  function DaysBetween(a: string, b: string): int {
    Truncate(Saturate((DayOrZero(b) - DayOrZero(a)) * 24 * NANOS_PER_HOUR), 24 * NANOS_PER_HOUR)
  }

  lemma ClampedDays(k: int)
    ensures Truncate(Saturate(k * 24 * NANOS_PER_HOUR), 24 * NANOS_PER_HOUR)
         == (if k > MAX_DURATION_DAYS then MAX_DURATION_DAYS
           else if k < -MAX_DURATION_DAYS then -MAX_DURATION_DAYS else k)
  {
    var ns := k * 24 * NANOS_PER_HOUR;
    if -MAX_DURATION_DAYS <= k <= MAX_DURATION_DAYS {
      assert Saturate(ns) == ns;
      assert ns == k * 86_400_000_000_000;
    } else {
      assert Saturate(ns) == if k > 0 then MAX_DURATION else MIN_DURATION;
    }
  }

  lemma DaysBetweenIsClamped(a: string, b: string)
    ensures var k := DayOrZero(b) - DayOrZero(a);
            DaysBetween(a, b) == (if k > MAX_DURATION_DAYS then MAX_DURATION_DAYS
                                  else if k < -MAX_DURATION_DAYS then -MAX_DURATION_DAYS else k)
  {
    ClampedDays(DayOrZero(b) - DayOrZero(a));
  }

  /**
   `daysBetween` undoes `addDays` exactly within the years 0000 to 9999 and the range of a 64-bit
   nanosecond duration. A date outside those years reads as 0001-01-01, which is never where it is.
   */
  lemma DaysBetweenUndoesAddDays(a: string, n: int)
    requires IsDate(a)
    ensures DaysBetween(a, AddDays(a, n)) == n
        <==> InRange(DayOf(a) + n) && -MAX_DURATION_DAYS <= n <= MAX_DURATION_DAYS
  {
    hide IsDate, DayOf, AddDays, DaysBetween, FormatDay;
    TextRoundTrip(a);
    assert DaysBeforeYear(1) == 366;
    AddDaysIsDayArithmetic(a, n);
    DaysBetweenIsClamped(a, AddDays(a, n));
  }

  lemma DaysBetweenDates(a: string, b: string)
    requires IsDate(a) && IsDate(b)
    ensures var k := DayOf(b) - DayOf(a);
            DaysBetween(a, b) == (if k > MAX_DURATION_DAYS then MAX_DURATION_DAYS
              else if k < -MAX_DURATION_DAYS then -MAX_DURATION_DAYS else k)
  {
    hide IsDate, DayOf, DaysBetween;
    DaysBetweenIsClamped(a, b);
  }

  /** One day more than a duration holds: 106752 days after 0001-01-01 count as 106751. */
  lemma LongestDaysBetween()
    ensures var first := Format(Date(1, 1, 1));
            IsDate(first) && DaysBetween(first, AddDays(first, 106752)) == 106751
  {
    FormattedDate(Date(1, 1, 1));
    assert DayNumber(Date(1, 1, 1)) == 366 && InRange(366 + 106752);
    TooLong(Format(Date(1, 1, 1)), 106752);
  }

  lemma TooLong(date: string, n: int)
    requires IsDate(date) && InRange(DayOf(date) + n) && n > MAX_DURATION_DAYS
    ensures DaysBetween(date, AddDays(date, n)) == MAX_DURATION_DAYS
  {
    hide *;
    AddDaysIsDayArithmetic(date, n);
    DaysBetweenDates(date, AddDays(date, n));
  }

  /** The overdue test on strings agrees with the computed number of days late. */
  lemma OverdueIffPositiveDays(due: string, checkin: string)
    requires IsDate(due) && IsDate(checkin)
    ensures Less(due, checkin) <==> DaysBetween(due, checkin) > 0
  {
    TextOrderIsDayOrder(due, checkin);
    DaysBetweenIsClamped(due, checkin);
  }
}
