/** Renewals over runs whose clocks show dates from the year 2000 on. */
module CirculationRenewals {
  import opened Calendar
  import opened Circulation
  import opened CirculationChains
  import opened CirculationInvariant
  import opened CirculationLateFees
  import opened CirculationSafety
  import opened CirculationTheorems
  import opened Dates
  import opened Library
  import opened LibraryService
  import opened Sums
  import opened Wrappers

  const TEN_THOUSAND_YEARS := 3652425

  // ---- Dates of the next ten thousand years are text-before today ----

  lemma LeadingOne(y: nat)
    requires 10000 <= y < 20000
    ensures Digits(y, 4)[0] == '1'
  {
    assert Digits(y, 4) == Digits(y / 10, 3) + [Digit(y % 10)];
    assert Digits(y / 10, 3) == Digits(y / 10 / 10, 2) + [Digit(y / 10 % 10)];
    LeadingOneOf(y / 100);
    assert y / 10 / 10 == y / 100;
  }

  lemma LeadingOneOf(n: nat)
    requires 100 <= n < 200
    ensures Digits(n, 2)[0] == '1'
  {
    assert Digits(n, 2) == Digits(n / 10, 1) + [Digit(n % 10)];
    assert Digits(n / 10, 1) == Digits(n / 100, 0) + [Digit(n / 10 % 10)];
  }

  lemma FirstOfFormat(d: Date)
    requires ValidDate(d) && 10000 <= d.year < 20000
    ensures Format(d) != "" && Format(d)[0] == '1'
  {
    LeadingOne(d.year);
  }

  lemma YearOfLaterDay(x: int)
    requires DaysBeforeYear(10000) <= x < DaysBeforeYear(10000) + TEN_THOUSAND_YEARS
    ensures 10000 <= FromDay(x).year < 20000
  {
    hide DayNumber, FromDay;
    var y := FromDay(x).year;
    DayInYear(FromDay(x));
    assert DaysBeforeYear(20000) == DaysBeforeYear(10000) + TEN_THOUSAND_YEARS;
    hide DaysBeforeYear;
    if y < 10000 {
      YearsInOrder(y + 1, 10000);
    } else if y >= 20000 {
      YearsInOrder(20000, y);
    }
  }

  predicate ModernClock(today: string) { IsDate(today) && today != "" && today[0] >= '2' }

  /** A day of the years 10000 to 19999 is, as text, before every date from the year 2000 on. */
  lemma PastYear9999(x: int, today: string)
    requires DaysBeforeYear(10000) <= x < DaysBeforeYear(10000) + TEN_THOUSAND_YEARS && ModernClock(today)
    ensures Less(FormatDay(x), today)
  {
    hide DaysBeforeYear, IsDate, Format;
    YearOfLaterDay(x);
    FirstOfFormat(FromDay(x));
  }

  /** A due date that a renewal finds not overdue can be read. */
  lemma NotOverdueIsDate(checkout: string, days: int, due: string, today: string)
    requires IsDate(checkout) && 1 <= days <= TEN_THOUSAND_YEARS && due == AddDays(checkout, days) && ModernClock(today)
    requires !Less(due, today)
    ensures IsDate(due)
  {
    hide IsDate, DayOf, AddDays, FormatDay, Less, DaysBeforeYear;
    TextRoundTrip(checkout);
    AddDaysIsDayArithmetic(checkout, days);
    AddDaysFrom(checkout, days);
    if !InRange(DayOf(checkout) + days) { PastYear9999(DayOf(checkout) + days, today); }
  }

  // ---- The invariant ----

  predicate ModernClocks(actions: seq<Action>) { forall a :: a in actions && a.Step? ==> ModernClock(a.today) }

  predicate ModestPeriods(actions: seq<Action>) {
    forall a :: a in actions && a.AddCopy? ==> LoanDays(a.duration) <= TEN_THOUSAND_YEARS
  }

  /** A renewal past the overdue test holds a due date that can be read. */
  predicate HoldsDate(k: Call) {
    match k
    case RenewCopy(_, row, _) => IsDate(row.due)
    case RenewQueue(_, row) => IsDate(row.due)
    case RenewReady(_, row, _) => IsDate(row.due)
    case _ => true
  }

  /** Loans begin on dates, and loan periods are at most ten thousand years. */
  ghost predicate BeginOnDates(db: Tables, h: History) {
    && (forall j :: IsRow(j, db.loans) ==> IsDate(db.loans[j].checkout))
    && (forall i :: i in h.days ==> LoanDays(h.days[i]) <= TEN_THOUSAND_YEARS)
  }

  ghost predicate CallsHoldDates(s: State) { forall c :: IsRow(c, s.calls) ==> HoldsDate(s.calls[c]) }

  ghost predicate Modern(s: State) { BeginOnDates(s.db, s.hist) && CallsHoldDates(s) }

  lemma CallMoves(s: State, t: State, c: int)
    requires CallsHoldDates(s) && IsRow(c, s.calls) && IsRow(c, t.calls) && t.calls == s.calls[c := t.calls[c]]
    requires HoldsDate(t.calls[c])
    ensures CallsHoldDates(t)
  {
    hide HoldsDate;
  }

  lemma LoanOfRow(db: Tables, h: History, l: int)
    requires LoansInv(db, h) && IsRow(l, db.loans)
    ensures db.loans[l].item in h.days && db.loans[l].due == AddDays(db.loans[l].checkout, Period(db, h, l))
  {
    hide LoansInv, AddDays;
    ParentRow(db, h, l);
  }

  lemma KnownLoan(s: State, c: int, l: int, row: Loan)
    requires Inv(s) && IsRow(c, s.calls) && s.calls[c] == RenewRead(l, row)
    ensures LoansInv(s.db, s.hist) && KnowsLoan(s.db, l, row)
  {
    hide ItemsInv, DaysInv, LoansInv, FinesInv, HoldsInv, LimitInv, LocksInv, WinnersInv, KnowsLoan;
    assert CallInv(s.db, s.hist, s.calls[c]);
  }

  /** The overdue test of a renewal lets only readable due dates pass. */
  lemma ReadPasses(s: State, c: int, l: int, row: Loan, today: string)
    requires Inv(s) && BeginOnDates(s.db, s.hist) && IsRow(c, s.calls) && s.calls[c] == RenewRead(l, row)
    requires ModernClock(today) && !Less(row.due, today)
    ensures IsDate(row.due)
  {
    hide Inv, LoansInv, IsDate, Less, AddDays, ModernClock, LoanDays;
    KnownLoan(s, c, l, row);
    LoanOfRow(s.db, s.hist, l);
    LoanDaysPositive(s.hist.days[s.db.loans[l].item]);
    NotOverdueIsDate(row.checkout, Period(s.db, s.hist, l), row.due, today);
  }

  lemma CommitRenewKeeps(s: State, c: int, l: int, oldDue: string, newDue: string, renewals: int)
    requires BeginOnDates(s.db, s.hist) && IsRow(c, s.calls) && IsDate(oldDue)
    ensures var t := CommitRenew(s, c, l, oldDue, newDue, renewals); BeginOnDates(t.db, t.hist)
  {
    hide IsDate, LoanDays;
  }

  lemma RenewKeepsModern(s: State, c: int, today: string)
    requires Inv(s) && Modern(s) && IsRow(c, s.calls) && Renewing(s.calls[c]) && ModernClock(today)
    ensures Modern(AdvanceRenew(s, c, today))
  {
    hide Inv, BeginOnDates, CallsHoldDates, IsDate, Less, AddDays, ModernClock, LoanDays, CommitRenew, FirstWaiting;
    var t := AdvanceRenew(s, c, today);
    CallHolds(s, c);
    match s.calls[c]
    case RenewRead(l, row) =>
      if !Less(row.due, today) { ReadPasses(s, c, l, row, today); }
      CallMoves(s, t, c);
    case RenewReady(l, row, days) =>
      CommitRenewKeeps(s, c, l, row.due, AddDays(row.due, days), row.renewals + 1);
      CommitMoves(s, c, l, row.due, AddDays(row.due, days), row.renewals + 1);
      CallMoves(s, t, c);
    case _ => CallMoves(s, t, c);
  }

  lemma CallHolds(s: State, c: int)
    requires CallsHoldDates(s) && IsRow(c, s.calls)
    ensures HoldsDate(s.calls[c])
  {
    hide HoldsDate;
  }

  lemma CommitMoves(s: State, c: int, l: int, oldDue: string, newDue: string, renewals: int)
    requires IsRow(c, s.calls)
    ensures var t := CommitRenew(s, c, l, oldDue, newDue, renewals);
            IsRow(c, t.calls) && t.calls == s.calls[c := t.calls[c]] && HoldsDate(t.calls[c])
  {
    hide Close;
  }

  lemma BorrowKeepsModern(s: State, c: int, today: string)
    requires Modern(s) && IsRow(c, s.calls) && Borrowing(s.calls[c]) && ModernClock(today)
    ensures Modern(AdvanceBorrow(s, c, today))
  {
    hide CallsHoldDates, IsDate, AddDays, LoanDays, ActiveLoans, LimitFor;
    CallMoves(s, AdvanceBorrow(s, c, today), c);
  }

  lemma HoldKeepsModern(s: State, c: int, today: string)
    requires Modern(s) && IsRow(c, s.calls) && Holding(s.calls[c])
    ensures Modern(AdvanceHold(s, c, today))
  {
    hide CallsHoldDates, IsDate, LoanDays, HasAvailable, AlreadyWaiting, NextPos;
    CallMoves(s, AdvanceHold(s, c, today), c);
  }

  lemma DeleteKeepsModern(s: State, c: int)
    requires Modern(s) && IsRow(c, s.calls) && Deleting(s.calls[c])
    ensures Modern(AdvanceDelete(s, c))
  {
    hide CallsHoldDates, IsDate, LoanDays, ActiveOn;
    CallMoves(s, AdvanceDelete(s, c), c);
  }

  lemma ReturnKeepsModern(s: State, c: int, l: int, today: string)
    requires Modern(s) && IsRow(c, s.calls)
    ensures Modern(CommitReturn(s, c, l, today))
  {
    hide CallsHoldDates, IsDate, LoanDays, FineFor, WithFine, Released, Woken, WokenPatron;
    CallMoves(s, CommitReturn(s, c, l, today), c);
  }

  lemma StepKeepsModern(s: State, a: Action)
    requires Inv(s) && Modern(s) && (a.Step? ==> ModernClock(a.today))
    requires a.AddCopy? ==> LoanDays(a.duration) <= TEN_THOUSAND_YEARS
    ensures Modern(Apply(s, a))
  {
    hide Inv, ModernClock, IsDate, LoanDays, AdvanceBorrow, AdvanceRenew, AdvanceHold, AdvanceDelete, CommitReturn;
    if a.Step? && IsRow(a.call, s.calls) {
      hide Modern;
      var c, k := a.call, s.calls[a.call];
      if Borrowing(k) {
        BorrowKeepsModern(s, c, a.today);
      } else if Renewing(k) {
        RenewKeepsModern(s, c, a.today);
      } else if Holding(k) {
        HoldKeepsModern(s, c, a.today);
      } else if Deleting(k) {
        DeleteKeepsModern(s, c);
      } else if k.ReturnStart? {
        ReturnKeepsModern(s, c, k.loan, a.today);
      }
    }
  }

  lemma {:induction false} RunKeepsModern(s: State, actions: seq<Action>)
    requires Inv(s) && Modern(s) && ModernClocks(actions) && ModestPeriods(actions)
    ensures Modern(Run(s, actions))
  {
    hide Inv, Modern, Apply, ModernClock, LoanDays;
    if actions != [] {
      var n := |actions| - 1;
      assert actions[n] in actions && forall a :: a in actions[..n] ==> a in actions;
      RunKeepsModern(s, actions[..n]);
      RunKeepsInvariant(s, actions[..n]);
      StepKeepsModern(Run(s, actions[..n]), actions[n]);
    }
  }

  // ---- Renewals tile time ----

  /** One link of a chain. */
  lemma OneLink(db: Tables, h: History, i: int, j: int)
    requires LoansInv(db, h) && IsRow(j, db.loans) && |h.origin| == |db.loans| && h.origin[j].parent == Some(i)
    ensures 0 <= i < j && db.loans[j].checkout == db.loans[i].due
    ensures db.loans[i].item == db.loans[j].item && db.loans[i].item in h.days
    ensures Root(h, j) == Root(h, i) && db.loans[j].renewals == db.loans[i].renewals + 1
  {
    hide LoansInv, AddDays;
    ParentRow(db, h, j);
  }

  /** A loan that began on a date began in range. */
  lemma BeganInRange(db: Tables, h: History, j: int)
    requires LoansInv(db, h) && BeginOnDates(db, h) && IsRow(j, db.loans)
    ensures IsRow(Root(h, j), db.loans) && IsDate(db.loans[Root(h, j)].checkout) && db.loans[j].item in h.days
    ensures InRange(DayOf(db.loans[Root(h, j)].checkout) + db.loans[j].renewals * Period(db, h, j))
  {
    hide LoansInv, IsDate, DayOf, InRange, LoanDays, Root, Depth;
    RootIsEarlier(db, h, j);
    match h.origin[j].parent
    case None =>
      NotRenewed(db, h, j);
      DateInRange(db.loans[Root(h, j)].checkout, db.loans[j].renewals, Period(db, h, j));
    case Some(i) =>
      OneLink(db, h, i, j);
      DueReadableIff(db, h, i);
  }

  lemma NotRenewed(db: Tables, h: History, j: int)
    requires LoansInv(db, h) && IsRow(j, db.loans) && |h.origin| == |db.loans| && h.origin[j].parent.None?
    ensures db.loans[j].renewals == 0
  {
    hide LoansInv, Follows, AddDays, Period;
    ParentRow(db, h, j);
  }

  lemma DateInRange(first: string, k: int, days: int)
    requires IsDate(first) && k == 0
    ensures InRange(DayOf(first) + k * days)
  {
    hide IsDate, DayOf, InRange, FormatDay;
    TextRoundTrip(first);
    assert k * days == 0;
  }

  /**
   Renewals tile time without exception: in every run whose clocks show dates from the year 2000 on
   and whose loan periods are at most ten thousand years, a loan renewed `k` times is due exactly
   `k + 1` periods after the chain's first checkout.
   */
  lemma ModernRenewalsTileTime(s: State, actions: seq<Action>, j: int)
    requires Inv(s) && Modern(s) && ModernClocks(actions) && ModestPeriods(actions)
    requires IsRow(j, Run(s, actions).db.loans)
    ensures var db, h := Run(s, actions).db, Run(s, actions).hist;
            && IsRow(Root(h, j), db.loans) && IsDate(db.loans[Root(h, j)].checkout) && db.loans[j].item in h.days
            && db.loans[j].due == AddDays(db.loans[Root(h, j)].checkout, (db.loans[j].renewals + 1) * Period(db, h, j))
  {
    hide Run, Inv, LoansInv, CallsHoldDates, BeginOnDates, IsDate, DayOf, InRange, AddDays, LoanDays, ModernClocks;
    hide ModestPeriods;
    RunKeepsInvariant(s, actions);
    RunKeepsModern(s, actions);
    LoansOf(Run(s, actions));
    BeganInRange(Run(s, actions).db, Run(s, actions).hist, j);
    RenewalsTileTime(s, actions, j);
  }

  /** A library without loans whose copies have modest loan periods is a place to start from. */
  lemma FreshLibraryIsModern(db: Tables)
    requires db.loans == [] && forall i :: i in db.items ==> i < db.nextItem && db.items[i].status == Available
    requires forall i :: i in db.items ==> LoanDays(db.items[i].duration) <= TEN_THOUSAND_YEARS
    ensures var s := State(db, map[], [], FreshHistory(db)); Inv(s) && Modern(s)
  {
    FreshLibraryStarts(db);
    hide Inv;
  }

  // ---- A renewal that does not move the due date ----

  /** From 2024-01-01 to 20250-01-01. */
  function LongPeriod(): int { DaysBeforeYear(20250) - DaysBeforeYear(2024) }

  function LoanDate(): string { Format(Date(2024, 1, 1)) }

  function FarDate(): string { Format(Date(20250, 1, 1)) }

  lemma FarDigits()
    ensures Digits(20250, 4) == "2025" + "0" && Digits(2024, 4) == "202" + "4"
  {
    assert Digits(2, 0) == "2" && Digits(2, 1) == "2";
    assert Digits(20, 1) == Digits(2, 0) + "0" && Digits(20, 2) == Digits(2, 1) + "0";
    assert Digits(202, 2) == Digits(20, 1) + "2" && Digits(202, 3) == Digits(20, 2) + "2";
    assert Digits(2025, 3) == Digits(202, 2) + "5" && Digits(2024, 4) == Digits(202, 3) + "4";
    assert Digits(20250, 4) == Digits(2025, 3) + "0";
  }

  /** As text the year 20250 is after the year 2024. */
  lemma FarIsNotOverdue()
    ensures !Less(FarDate(), LoanDate())
  {
    FarDigits();
    hide Digits, Less;
    var a, b := "-" + (Digits(1, 2) + ("-" + Digits(1, 2))), "-" + (Digits(1, 2) + ("-" + Digits(1, 2)));
    assert FarDate() == "202" + ("50" + a) && LoanDate() == "202" + ("4" + b);
    LessConcat("202", "202", "50" + a, "4" + b);
    LessIrreflexive("202");
    FiveIsNotFour("0" + a, b);
    assert "5" + ("0" + a) == "50" + a;
  }

  lemma FiveIsNotFour(a: string, b: string)
    ensures !Less("5" + a, "4" + b)
  {
    assert ("5" + a)[0] == '5' && ("4" + b)[0] == '4';
  }

  lemma FarDue()
    ensures IsDate(LoanDate()) && AddDays(LoanDate(), LongPeriod()) == FarDate() && !IsDate(FarDate())
    ensures AddDays(FarDate(), LongPeriod()) == FarDate() != AddDays(LoanDate(), 2 * LongPeriod())
    ensures LongPeriod() > 0
  {
    hide Format, Parse, AddDays, FormatDay, DayNumber, DayOf;
    YearEnds(2024);
    YearEnds(20250);
    FormattedDate(Date(2024, 1, 1));
    FormatDayOf(Date(20250, 1, 1));
    AddDaysFrom(LoanDate(), LongPeriod());
    AddDaysFrom(LoanDate(), 2 * LongPeriod());
    FarIsNoDate();
    NotADate(FarDate(), LongPeriod());
    assert LongPeriod() > 0;
    SameFormattedDay(DaysBeforeYear(20250), DaysBeforeYear(2024) + 2 * LongPeriod());
  }

  lemma FarIsNoDate()
    ensures !IsDate(FarDate())
  {
    FormatOutOfRange(Date(20250, 1, 1));
  }

  /** One patron and one copy that is lent for 18226 years. */
  function LongLending(): Tables {
    Tables(map[1 := Patron(false, false)], {5}, map[0 := Item(5, Available, LongPeriod())], 1, [], [], [])
  }

  function LongState(): State { State(LongLending(), map[], [], FreshHistory(LongLending())) }

  function LendThenRenew(today: string): seq<Action> {
    [Begin(Request.Borrow(1, 0))] + Steps(0, 7, today) + [Begin(Request.Renew(0))] + Steps(1, 6, today)
  }

  /** What lending and renewing make of the tables. */
  lemma LentAndRenewed()
    ensures var (r, db) := BorrowCall(LongLending(), 1, 0, LoanDate());
            var (q, after) := RenewCall(db, 0, LoanDate());
            && r.Ok? && q == Ok(1) && |after.loans| == 2
            && after.loans[0].checkout == LoanDate() && after.loans[0].due == FarDate()
            && after.loans[1] == Loan(0, 1, FarDate(), FarDate(), None, 1, true)
  {
    hide AddDays, Less, LongPeriod, LoanDate, FarDate, IsDate;
    FarDue();
    FarIsNotOverdue();
    var db := BorrowCall(LongLending(), 1, 0, LoanDate()).1;
    assert db.loans == [Loan(0, 1, LoanDate(), FarDate(), None, 0, true)];
  }

  lemma LendAndRenewRuns(s: State, today: string)
    requires s.calls == [] && 1 !in s.locks
    ensures var db := BorrowCall(s.db, 1, 0, today).1;
            Run(s, LendThenRenew(today)).db == RenewCall(db, 0, today).1
  {
    hide Apply, BorrowCall, RenewCall;
    var borrow, renew := [Begin(Request.Borrow(1, 0))], [Begin(Request.Renew(0))];
    RunConcat(s, borrow, Steps(0, 7, today));
    RunConcat(s, borrow + Steps(0, 7, today), renew);
    RunConcat(s, borrow + Steps(0, 7, today) + renew, Steps(1, 6, today));
    OneAction(s, Begin(Request.Borrow(1, 0)));
    AloneIsRun(Run(s, borrow), 0, 7, today);
    BorrowAlone(s, 1, 0, today);
    var t := Run(s, borrow + Steps(0, 7, today));
    OneAction(t, Begin(Request.Renew(0)));
    AloneIsRun(Run(t, renew), 1, 6, today);
    RenewAlone(t, 0, today);
  }

  /** A loan of 2024 that is due in the year 20250 is renewed on the day it is made, and stays due on the same day. */
  lemma RenewalWithoutMoreTime()
    ensures var db := Run(LongState(), LendThenRenew(LoanDate())).db;
            && Start(LongState()) && |db.loans| == 2 && db.loans[1].renewals == 1 && db.loans[1].due == db.loans[0].due
            && db.loans[1].due != AddDays(db.loans[0].checkout, 2 * LongPeriod())
  {
    hide Run, Start, BorrowCall, RenewCall, AddDays, LongPeriod, LoanDate, FarDate, IsDate, FreshHistory, Steps;
    FreshLibraryStarts(LongLending());
    LendAndRenewRuns(LongState(), LoanDate());
    LentAndRenewed();
    FarDue();
  }
}
