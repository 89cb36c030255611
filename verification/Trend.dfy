/**
 The borrowing trend: two grouped queries over a range of date strings, read back day
 by day, against counting every day's loans directly.
 */
module Trend {
  import opened Calendar
  import opened Dates
  import opened GoMaps
  import opened Library
  import opened Sums
  import opened Wrappers

  datatype TrendPoint = TrendPoint(date: string, checkout: int, checkin: int)

  function CheckedOutOn(d: string): Loan -> int { (l: Loan) => if l.checkout == d then 1 else 0 }

  function CheckedInOn(d: string): Loan -> int { (l: Loan) => if l.checkin == Some(d) then 1 else 0 }

  /** SQL's `BETWEEN`, on text. */
  predicate Between(from: string, d: string, to: string) { !Less(d, from) && !Less(to, d) }

  // ---- The reference: count each day ----

  function DayCount(loans: seq<Loan>, d: string): TrendPoint {
    TrendPoint(d, Sum(loans, CheckedOutOn(d)), Sum(loans, CheckedInOn(d)))
  }

  function WentOut(loans: seq<Loan>, d: string): set<int> { set l | 0 <= l < |loans| && loans[l].checkout == d }

  function CameBack(loans: seq<Loan>, d: string): set<int> { set l | 0 <= l < |loans| && loans[l].checkin == Some(d) }

  /** A day's point counts the loans that went out and those that came back that day. */
  lemma DayCountsLoans(loans: seq<Loan>, d: string)
    ensures DayCount(loans, d) == TrendPoint(d, |WentOut(loans, d)|, |CameBack(loans, d)|)
  {
    SumCounts(loans, CheckedOutOn(d));
    SumCounts(loans, CheckedInOn(d));
    assert Counted(loans, CheckedOutOn(d)) == WentOut(loans, d) && Counted(loans, CheckedInOn(d)) == CameBack(loans, d);
  }

  /** The first day of a window of `days` days that ends today. */
  function FirstDay(days: int, today: string): int { DayOrZero(today) - (days - 1) }

  function DailyCounts(loans: seq<Loan>, days: nat, today: string): seq<TrendPoint> {
    seq(days, i requires 0 <= i < days => DayCount(loans, FormatDay(FirstDay(days, today) + i)))
  }

  // ---- The two queries ----

  /** What the range query holds for a date: the counts if the date is in range, zeros otherwise. */
  function InWindow(loans: seq<Loan>, from: string, d: string, to: string): TrendPoint {
    if Between(from, d, to) then DayCount(loans, d) else TrendPoint(d, 0, 0)
  }

  function PointAt(points: map<string, TrendPoint>, d: string): TrendPoint {
    if d in points then points[d] else TrendPoint("", 0, 0)
  }

  function CheckoutDates(loans: seq<Loan>, from: string, to: string): set<string> {
    set l | l in loans && Between(from, l.checkout, to) :: l.checkout
  }

  function CheckinDates(loans: seq<Loan>, from: string, to: string): set<string> {
    set l | l in loans && l.checkin.Some? && Between(from, l.checkin.value, to) :: l.checkin.value
  }

  lemma PointSet(points: map<string, TrendPoint>, d: string, p: TrendPoint)
    ensures forall e :: PointAt(points[d := p], e) == if e == d then p else PointAt(points, e)
  {
    forall e ensures PointAt(points[d := p], e) == if e == d then p else PointAt(points, e) {
      if e == d { assert e in points[d := p]; }
    }
  }

  /** `LoanTrendRange`: one pass over each query's groups, in any order. */
  method LoanTrendRange(loans: seq<Loan>, from: string, to: string) returns (out: map<string, TrendPoint>)
    ensures forall d :: PointAt(out, d).checkout == InWindow(loans, from, d, to).checkout
    ensures forall d :: PointAt(out, d).checkin == InWindow(loans, from, d, to).checkin
  {
    hide *;
    NoPoints();
    out := AddCheckouts(map[], CheckoutDates(loans, from, to), loans);
    out := AddCheckins(out, CheckinDates(loans, from, to), loans);
    forall d { CheckoutsGrouped(loans, from, d, to); }
    forall d { CheckinsGrouped(loans, from, d, to); }
  }

  lemma NoPoints()
    ensures forall d :: PointAt(map[], d) == TrendPoint("", 0, 0)
  {
  }

  method AddCheckouts(points: map<string, TrendPoint>, dates: set<string>, loans: seq<Loan>)
    returns (out: map<string, TrendPoint>)
    ensures forall d ::
        PointAt(out, d).checkout == if d in dates then Sum(loans, CheckedOutOn(d)) else PointAt(points, d).checkout
    ensures forall d :: PointAt(out, d).checkin == PointAt(points, d).checkin
  {
    hide PointAt;
    out := points;
    var todo, done: set<string> := dates, {};
    while todo != {}
      invariant done + todo == dates && done !! todo
      invariant forall d ::
          PointAt(out, d).checkout == if d in done then Sum(loans, CheckedOutOn(d)) else PointAt(points, d).checkout
      invariant forall d :: PointAt(out, d).checkin == PointAt(points, d).checkin
      decreases todo
    {
      var d := Any(todo);
      var p := PointAt(out, d).(date := d, checkout := Sum(loans, CheckedOutOn(d)));
      PointSet(out, d, p);
      out := out[d := p];
      todo, done := todo - {d}, done + {d};
    }
    assert done == dates;
  }

  method AddCheckins(points: map<string, TrendPoint>, dates: set<string>, loans: seq<Loan>)
    returns (out: map<string, TrendPoint>)
    ensures forall d ::
        PointAt(out, d).checkin == if d in dates then Sum(loans, CheckedInOn(d)) else PointAt(points, d).checkin
    ensures forall d :: PointAt(out, d).checkout == PointAt(points, d).checkout
  {
    hide PointAt;
    out := points;
    var todo, done: set<string> := dates, {};
    while todo != {}
      invariant done + todo == dates && done !! todo
      invariant forall d ::
          PointAt(out, d).checkin == if d in done then Sum(loans, CheckedInOn(d)) else PointAt(points, d).checkin
      invariant forall d :: PointAt(out, d).checkout == PointAt(points, d).checkout
      decreases todo
    {
      var d := Any(todo);
      var p := PointAt(out, d).(date := d, checkin := Sum(loans, CheckedInOn(d)));
      PointSet(out, d, p);
      out := out[d := p];
      todo, done := todo - {d}, done + {d};
    }
    assert done == dates;
  }

  /** A date outside the groups is out of range or counts nothing. */
  lemma CheckoutsGrouped(loans: seq<Loan>, from: string, d: string, to: string)
    ensures InWindow(loans, from, d, to).checkout
        == if d in CheckoutDates(loans, from, to) then Sum(loans, CheckedOutOn(d)) else 0
  {
    hide Between;
    if Between(from, d, to) && d !in CheckoutDates(loans, from, to) {
      SumZero(loans, CheckedOutOn(d));
    }
  }

  lemma CheckinsGrouped(loans: seq<Loan>, from: string, d: string, to: string)
    ensures InWindow(loans, from, d, to).checkin
        == if d in CheckinDates(loans, from, to) then Sum(loans, CheckedInOn(d)) else 0
  {
    hide Between;
    if Between(from, d, to) && d !in CheckinDates(loans, from, to) {
      SumZero(loans, CheckedInOn(d));
    }
  }

  // ---- The trend ----

  function TrendOf(loans: seq<Loan>, days: nat, today: string): seq<TrendPoint> {
    var first := FirstDay(days, today);
    seq(days, i requires 0 <= i < days => InWindow(loans, FormatDay(first), FormatDay(first + i), today))
  }

  /** `LoanTrend`. */
  method LoanTrend(loans: seq<Loan>, days: nat, today: string) returns (out: seq<TrendPoint>)
    ensures out == TrendOf(loans, days, today)
  {
    hide InWindow, FormatDay;
    var first := FirstDay(days, today);
    var byDay := LoanTrendRange(loans, FormatDay(first), today);
    out := [];
    for i := 0 to days
      invariant out == TrendOf(loans, days, today)[..i]
    {
      var d := FormatDay(first + i);
      var p := PointAt(byDay, d);
      WindowDate(loans, FormatDay(first), d, today);
      out := out + [TrendPoint(d, p.checkout, p.checkin)];
    }
  }

  lemma WindowDate(loans: seq<Loan>, from: string, d: string, to: string)
    ensures InWindow(loans, from, d, to).date == d
  {
  }

  // ---- The range filter drops no date of the window ----

  /** Dates of the years -1 to 9999 compare as text the way their days do, if the years do. */
  lemma NearZeroOrder(a: Date, b: Date)
    requires ValidDate(a) && ValidDate(b) && -1 <= a.year <= MAX_YEAR && -1 <= b.year <= MAX_YEAR
    ensures Less(Format(a), Format(b)) <==> Earlier(a, b)
  {
    if a.year >= 0 && b.year >= 0 {
      FormatOrder(a, b);
    } else if a.year == -1 && b.year == -1 {
      SameYearOrder(a, b);
    } else {
      SignOrder(a, b);
    }
  }

  lemma SameYearOrder(a: Date, b: Date)
    requires ValidDate(a) && ValidDate(b) && a.year == b.year
    ensures Less(Format(a), Format(b)) <==> Earlier(a, b)
  {
    hide Digits;
    var ad, bd := "-" + Digits(a.day, 2), "-" + Digits(b.day, 2);
    LessConcat(YearText(a.year), YearText(a.year), "-" + (Digits(a.month, 2) + ad), "-" + (Digits(b.month, 2) + bd));
    LessIrreflexive(YearText(a.year));
    SuffixOrder(a.month, b.month, ad, bd);
    SuffixOrder(a.day, b.day, "", "");
    assert Digits(a.day, 2) + "" == Digits(a.day, 2) && Digits(b.day, 2) + "" == Digits(b.day, 2);
  }

  lemma SignOrder(a: Date, b: Date)
    requires ValidDate(a) && ValidDate(b) && (a.year < 0) != (b.year < 0)
    ensures Less(Format(a), Format(b)) <==> a.year < 0
  {
    assert Format(a)[0] == if a.year < 0 then '-' else Digits(a.year, 4)[0];
    assert Format(b)[0] == if b.year < 0 then '-' else Digits(b.year, 4)[0];
  }

  lemma {:induction false} LeadingDigit(n: nat, w: nat)
    requires n >= Pow10(w)
    ensures Digits(n, w)[0] != '0'
    decreases n, w
  {
    if n >= 10 {
      if w > 0 { LeadingDigit(n / 10, w - 1); } else { LeadingDigit(n / 10, 0); }
    }
  }

  lemma OneInFourDigits()
    ensures Digits(1, 4) == "0001"
  {
    assert Digits(0, 2) == "00" by { assert Digits(0, 1) == "0"; }
    assert Digits(0, 3) == Digits(0, 2) + "0";
    assert Digits(1, 4) == Digits(0, 3) + "1";
  }

  lemma OneIsLeast(n: nat, s: string, t: string)
    requires n >= 2
    ensures Less(Digits(1, 4) + s, Digits(n, 4) + t)
  {
    assert Pow10(4) == 10000 by { assert Pow10(2) == 10 * Pow10(1) && Pow10(3) == 10 * Pow10(2); }
    OneInFourDigits();
    if n < 10000 {
      DigitsWidth(n, 4);
      DigitsOrder(1, n, 4);
      LessConcat(Digits(1, 4), Digits(n, 4), s, t);
    } else {
      LeadingDigit(n, 4);
      assert (Digits(1, 4) + s)[0] == '0' && (Digits(n, 4) + t)[0] == Digits(n, 4)[0];
    }
  }

  /** Years before -1 compare backwards: every date of year -1 is text-before every earlier one. */
  lemma FarBelowZero(a: Date, b: Date)
    requires ValidDate(a) && ValidDate(b) && a.year <= -2 && b.year == -1
    ensures Less(Format(b), Format(a))
  {
    hide Digits, Less;
    var ra, rb := "-" + (Digits(a.month, 2) + ("-" + Digits(a.day, 2))),
      "-" + (Digits(b.month, 2) + ("-" + Digits(b.day, 2)));
    assert Format(a) == "-" + (Digits(-a.year, 4) + ra);
    assert Format(b) == "-" + (Digits(1, 4) + rb);
    OneIsLeast(-a.year, rb, ra);
    LessConcat("-", "-", Digits(1, 4) + rb, Digits(-a.year, 4) + ra);
  }

  lemma YearsFollowDays(m: int, n: int)
    requires m <= n
    ensures FromDay(m).year <= FromDay(n).year
  {
    EarlierIffSmallerDay(FromDay(m), FromDay(n));
  }

  /** Every date of a window that starts in year -1 or later is in the text range. */
  lemma WindowInRange(first: int, d: int, today: string)
    requires IsDate(today) && first <= d <= DayOf(today) && FromDay(first).year >= -1
    ensures Between(FormatDay(first), FormatDay(d), today)
  {
    hide Format, FromDay, Less;
    TextRoundTrip(today);
    RangeIsYears(DayOf(today));
    YearsFollowDays(first, d);
    YearsFollowDays(d, DayOf(today));
    NearZeroOrder(FromDay(d), FromDay(first));
    NearZeroOrder(FromDay(DayOf(today)), FromDay(d));
    EarlierIffSmallerDay(FromDay(d), FromDay(first));
    EarlierIffSmallerDay(FromDay(DayOf(today)), FromDay(d));
  }

  /** A window that starts earlier loses 31 December of year -1. */
  lemma WindowLosesADate(first: int, today: string) returns (d: int)
    requires IsDate(today) && FromDay(first).year <= -2
    ensures first <= d <= DayOf(today) && !Between(FormatDay(first), FormatDay(d), today)
  {
    hide FromDay, Less, Format, IsDate;
    var date := Date(-1, 12, 31);
    d := DayNumber(date);
    EarlierIffSmallerDay(FromDay(first), date);
    EarlierIffSmallerDay(FromDay(d), date);
    FarBelowZero(FromDay(first), date);
    TextRoundTrip(today);
    RangeIsYears(DayOf(today));
    EarlierIffSmallerDay(date, FromDay(DayOf(today)));
  }

  function LentOn(d: string): Loan { Loan(0, 0, d, d, None, 0, true) }

  lemma WindowCounts(loans: seq<Loan>, from: string, d: string, to: string)
    requires Between(from, d, to)
    ensures InWindow(loans, from, d, to) == DayCount(loans, d)
  {
  }

  lemma LostCount(from: string, d: string, to: string)
    requires !Between(from, d, to)
    ensures InWindow([LentOn(d)], from, d, to) != DayCount([LentOn(d)], d)
  {
    SumAppend([], LentOn(d), CheckedOutOn(d));
    assert [] + [LentOn(d)] == [LentOn(d)];
  }

  /** A window of 367 days ending 0000-01-01 starts in year -2 and misses a loan of 31 December of year -1. */
  lemma TrendMissesALoan()
    ensures var today, lost := Format(Date(0, 1, 1)), Format(Date(-1, 12, 31));
            IsDate(today) && TrendOf([LentOn(lost)], 367, today)[365].checkout == 0
              && DailyCounts([LentOn(lost)], 367, today)[365].checkout == 1
  {
    hide DayNumber, Format, TrendOf, DailyCounts, FormatDay, IsDate, DayOf, Less, InWindow, DayCount, LentOn;
    var today, lost := Format(Date(0, 1, 1)), Format(Date(-1, 12, 31));
    YearEnds(0);
    YearEnds(-1);
    YearEnds(-2);
    FormattedDate(Date(0, 1, 1));
    FormatDayOf(Date(-1, 12, 31));
    FormatDayOf(Date(-2, 12, 31));
    FarBelowZero(Date(-2, 12, 31), Date(-1, 12, 31));
    OneLoanCount(lost);
    assert FirstDay(367, today) == -366;
    LostCheckouts([LentOn(lost)], FormatDay(-366), lost, today);
    TrendAt([LentOn(lost)], 367, today, 365);
  }

  lemma OneLoanCount(d: string)
    ensures DayCount([LentOn(d)], d).checkout == 1
  {
    SumAppend([], LentOn(d), CheckedOutOn(d));
    assert [] + [LentOn(d)] == [LentOn(d)];
  }

  lemma LostCheckouts(loans: seq<Loan>, from: string, d: string, to: string)
    requires Less(d, from)
    ensures InWindow(loans, from, d, to).checkout == 0
  {
    hide Less;
  }

  lemma TrendAt(loans: seq<Loan>, days: nat, today: string, i: nat)
    requires i < days
    ensures |TrendOf(loans, days, today)| == |DailyCounts(loans, days, today)| == days
    ensures var first := FirstDay(days, today);
            && TrendOf(loans, days, today)[i] == InWindow(loans, FormatDay(first), FormatDay(first + i), today)
            && DailyCounts(loans, days, today)[i] == DayCount(loans, FormatDay(first + i))
  {
    hide InWindow, DayCount, FormatDay, FirstDay;
  }

  /**
   The trend is the count of each of the `days` consecutive days ending today, for every
   loan table, exactly when the window starts in year -1 or later. Earlier years format
   with a sign and compare backwards.
   */
  lemma TrendIsDailyCounts(days: nat, today: string)
    requires IsDate(today) && days >= 1
    ensures (forall loans :: TrendOf(loans, days, today) == DailyCounts(loans, days, today))
        <==> FromDay(FirstDay(days, today)).year >= -1
  {
    hide Between, InWindow, DayCount, FromDay, FormatDay, IsDate;
    var first := FirstDay(days, today);
    if FromDay(first).year >= -1 {
      forall loans ensures TrendOf(loans, days, today) == DailyCounts(loans, days, today) {
        forall i | 0 <= i < days ensures TrendOf(loans, days, today)[i] == DailyCounts(loans, days, today)[i] {
          WindowInRange(first, first + i, today);
          WindowCounts(loans, FormatDay(first), FormatDay(first + i), today);
        }
      }
    } else {
      var d := WindowLosesADate(first, today);
      var loans := [LentOn(FormatDay(d))];
      LostCount(FormatDay(first), FormatDay(d), today);
      assert TrendOf(loans, days, today)[d - first] != DailyCounts(loans, days, today)[d - first];
    }
  }

  /** The dates of the trend: `days` of them, each one day after the one before, the last one today. */
  lemma TrendDates(loans: seq<Loan>, days: nat, today: string)
    requires IsDate(today) && days >= 1
    ensures var r := TrendOf(loans, days, today);
            && |r| == days && r[days - 1].date == today
            && forall i :: 0 <= i < days - 1 && IsDate(r[i].date) ==> r[i + 1].date == AddDays(r[i].date, 1)
  {
    hide InWindow, FormatDay, IsDate, AddDays;
    TextRoundTrip(today);
    var r, first := TrendOf(loans, days, today), FirstDay(days, today);
    WindowDate(loans, FormatDay(first), FormatDay(first + (days - 1)), today);
    forall i | 0 <= i < days - 1 && IsDate(r[i].date) ensures r[i + 1].date == AddDays(r[i].date, 1) {
      WindowDate(loans, FormatDay(first), FormatDay(first + i), today);
      WindowDate(loans, FormatDay(first), FormatDay(first + (i + 1)), today);
      DayRoundTrip(first + i);
      AddDaysFrom(r[i].date, 1);
    }
  }
}
