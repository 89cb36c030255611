/** What fines are in calendar days, over runs whose clocks show dates. */
module CirculationLateFees {
  import opened Calendar
  import opened Circulation
  import opened CirculationChains
  import opened CirculationFines
  import opened CirculationInvariant
  import opened CirculationSafety
  import opened CirculationTheorems
  import opened Dates
  import opened Library
  import opened LibraryService
  import opened Sums
  import opened Wrappers

  // ---- One charge ----

  /** Calendar days between due date and return. A due date after year 9999 is never before a return. */
  function DaysLate(due: string, checkin: string): int
    requires IsDate(checkin)
  {
    if !IsDate(due) || DayOf(checkin) <= DayOf(due) then 0
    else if DayOf(checkin) - DayOf(due) <= MAX_DURATION_DAYS then DayOf(checkin) - DayOf(due) else MAX_DURATION_DAYS
  }

  /**
   The due date is a date; or as text it is not before the return; or the return is not after
   0001-01-01, for which an unreadable date stands.
   */
  predicate Readable(due: string, checkin: string)
    requires IsDate(checkin)
  {
    IsDate(due) || !Less(due, checkin) || DayOf(checkin) <= DaysBeforeYear(1)
  }

  lemma ChargeIfDate(due: string, checkin: string)
    requires IsDate(due) && IsDate(checkin)
    ensures Charge(due, checkin) == 10 * DaysLate(due, checkin)
  {
    hide IsDate, DayOf, Charge;
    ChargeIsPerDayLate(due, checkin);
  }

  /** The charge is ten cents for each day late exactly when the due date is readable; otherwise it is more. */
  lemma ChargeIsDaysLateIff(due: string, checkin: string)
    requires IsDate(checkin)
    ensures Charge(due, checkin) >= 10 * DaysLate(due, checkin)
    ensures Charge(due, checkin) == 10 * DaysLate(due, checkin) <==> Readable(due, checkin)
  {
    hide IsDate, DayOf, Less, DaysBetween, DaysBeforeYear;
    if IsDate(due) {
      ChargeIfDate(due, checkin);
    } else {
      DaysBetweenIsClamped(due, checkin);
    }
  }

  // ---- Runs whose clocks show dates ----

  predicate DateClocks(actions: seq<Action>) { forall a :: a in actions && a.Step? ==> IsDate(a.today) }

  /** Chains begin on dates, and returns happened on dates. */
  ghost predicate Dated(db: Tables, h: History) {
    && |h.origin| == |db.loans|
    && forall j :: IsRow(j, db.loans) ==> DatedRow(db.loans[j], h.origin[j])
  }

  predicate DatedRow(row: Loan, o: Origin) {
    && (o.parent.None? ==> IsDate(row.checkout))
    && (o.how == ByReturn ==> row.checkin.Some? && IsDate(row.checkin.value))
  }

  lemma BorrowKeepsDated(s: State, c: int, p: int, i: int, today: string, due: string)
    requires Dated(s.db, s.hist) && IsRow(c, s.calls) && IsDate(today)
    ensures var t := CommitBorrow(s, c, p, i, today, due); Dated(t.db, t.hist)
  {
    hide IsDate;
  }

  lemma ReturnKeepsDated(s: State, c: int, l: int, today: string)
    requires Dated(s.db, s.hist) && IsRow(c, s.calls) && IsDate(today)
    ensures var t := CommitReturn(s, c, l, today); Dated(t.db, t.hist)
  {
    hide IsDate, FineFor, WithFine, Released, Woken, WokenPatron;
  }

  lemma RenewKeepsDated(s: State, c: int, l: int, oldDue: string, newDue: string, renewals: int)
    requires Dated(s.db, s.hist) && IsRow(c, s.calls)
    ensures var t := CommitRenew(s, c, l, oldDue, newDue, renewals); Dated(t.db, t.hist)
  {
    hide IsDate;
  }

  lemma StepKeepsDated(s: State, a: Action)
    requires Dated(s.db, s.hist) && (a.Step? ==> IsDate(a.today))
    ensures Dated(Apply(s, a).db, Apply(s, a).hist)
  {
    hide Dated, IsDate, CommitBorrow, CommitReturn, CommitRenew, AddDays, Less, FirstWaiting, ActiveOn, ActiveLoans;
    hide HasAvailable, AlreadyWaiting, NextPos, LimitFor;
    if a.Step? && IsRow(a.call, s.calls)
      && (s.calls[a.call].BorrowReady? || s.calls[a.call].ReturnStart? || s.calls[a.call].RenewReady?) {
      match s.calls[a.call]
      case BorrowReady(p, i, days) => BorrowKeepsDated(s, a.call, p, i, a.today, AddDays(a.today, days));
      case RenewReady(l, row, days) => RenewKeepsDated(s, a.call, l, row.due, AddDays(row.due, days), row.renewals + 1);
      case ReturnStart(l) => ReturnKeepsDated(s, a.call, l, a.today);
    } else {
      assert SameAccounts(s, Apply(s, a));
      SameDated(s, Apply(s, a));
    }
  }

  lemma SameDated(s: State, t: State)
    requires SameAccounts(s, t) && Dated(s.db, s.hist)
    ensures Dated(t.db, t.hist)
  {
  }

  lemma {:induction false} RunKeepsDated(s: State, actions: seq<Action>)
    requires Dated(s.db, s.hist) && DateClocks(actions)
    ensures Dated(Run(s, actions).db, Run(s, actions).hist)
  {
    hide Dated, Apply, IsDate;
    if actions != [] {
      var n := |actions| - 1;
      assert actions[n] in actions && forall a :: a in actions[..n] ==> a in actions;
      RunKeepsDated(s, actions[..n]);
      StepKeepsDated(Run(s, actions[..n]), actions[n]);
    }
  }

  // ---- When due dates stay dates ----

  /**
   In every run with date clocks, a due date is a date exactly when the chain's first checkout plus
   `k + 1` periods lies in years 0000 to 9999.
   */
  lemma DueIsDateIff(s: State, actions: seq<Action>, j: int)
    requires Inv(s) && Dated(s.db, s.hist) && DateClocks(actions) && IsRow(j, Run(s, actions).db.loans)
    ensures var db, h := Run(s, actions).db, Run(s, actions).hist;
            && IsRow(Root(h, j), db.loans) && IsDate(db.loans[Root(h, j)].checkout) && db.loans[j].item in h.days
            && (IsDate(db.loans[j].due)
                <==> InRange(DayOf(db.loans[Root(h, j)].checkout) + (db.loans[j].renewals + 1) * Period(db, h, j)))
  {
    hide Run, Inv, LoansInv, Dated, IsDate, DayOf, InRange, DateClocks;
    RunKeepsInvariant(s, actions);
    RunKeepsDated(s, actions);
    RootIsDate(Run(s, actions), j);
    DueReadableIff(Run(s, actions).db, Run(s, actions).hist, j);
  }

  lemma LoansOf(s: State)
    requires Inv(s)
    ensures LoansInv(s.db, s.hist)
  {
  }

  lemma RootIsEarlier(db: Tables, h: History, j: int)
    requires LoansInv(db, h) && IsRow(j, db.loans)
    ensures IsRow(Root(h, j), db.loans) && db.loans[j].item in h.days && 0 <= db.loans[j].renewals == Depth(h, j)
    ensures |h.origin| == |db.loans|
  {
    hide LoansInv, Follows, AddDays;
    ChainTerms(db, h, j);
    ParentRow(db, h, j);
  }

  lemma RootIsDate(s: State, j: int)
    requires Inv(s) && Dated(s.db, s.hist) && IsRow(j, s.db.loans)
    ensures LoansInv(s.db, s.hist) && IsRow(Root(s.hist, j), s.db.loans) && IsDate(s.db.loans[Root(s.hist, j)].checkout)
  {
    hide Inv, LoansInv, IsDate, Root, Depth;
    LoansOf(s);
    ChainTerms(s.db, s.hist, j);
    assert DatedRow(s.db.loans[Root(s.hist, j)], s.hist.origin[Root(s.hist, j)]);
  }

  /** The due date of a loan can be read exactly if its chain has not left range by then. */
  lemma DueReadableIff(db: Tables, h: History, i: int)
    requires LoansInv(db, h) && IsRow(i, db.loans) && IsRow(Root(h, i), db.loans)
    requires IsDate(db.loans[Root(h, i)].checkout)
    ensures db.loans[i].item in h.days && 0 <= db.loans[i].renewals
    ensures IsDate(db.loans[i].due)
        <==> InRange(DayOf(db.loans[Root(h, i)].checkout) + (db.loans[i].renewals + 1) * Period(db, h, i))
  {
    hide LoansInv, IsDate, DayOf, InRange, DueAfter, LoanDays, Root, Depth;
    RootIsEarlier(db, h, i);
    var first, days := db.loans[Root(h, i)].checkout, Period(db, h, i);
    LoanDaysPositive(h.days[db.loans[i].item]);
    DueAlongChain(db, h, i, first, days);
    DueTextIsDateIff(first, days, Depth(h, i), db.loans[i].due);
  }

  lemma DueTextIsDateIff(first: string, days: int, k: nat, due: string)
    requires IsDate(first) && days >= 1 && DueAfter(first, days, k, due)
    ensures IsDate(due) <==> InRange(DayOf(first) + (k + 1) * days)
  {
    hide AddDays, IsDate, DayOf, InRange, FormatDay;
    DayNotNegative(first);
    if InRange(DayOf(first) + k * days) {
      AddDaysIsDayArithmetic(first, (k + 1) * days);
    } else {
      var m :| 1 <= m <= k && StuckAt(DayOf(first), days, m, due);
      DayRoundTrip(DayOf(first) + m * days);
      if InRange(DayOf(first) + (k + 1) * days) { RangeShrinks(DayOf(first), days, k); }
    }
  }

  // ---- All fines of a run ----

  function LateFee(p: int): ((Loan, Origin)) -> int {
    (r: (Loan, Origin)) =>
      if r.0.patron == p && r.1.how == ByReturn && r.0.checkin.Some? && IsDate(r.0.checkin.value)
      then 10 * DaysLate(r.0.due, r.0.checkin.value) else 0
  }

  /** Ten cents for each calendar day late, over the loans of `p` closed by returns. */
  function LateFees(db: Tables, h: History, p: int): int
    requires |h.origin| == |db.loans|
  {
    Sum(Rows(db.loans, h.origin), LateFee(p))
  }

  predicate ReturnedBy(db: Tables, h: History, p: int, j: int)
    requires |h.origin| == |db.loans|
  {
    && IsRow(j, db.loans) && db.loans[j].patron == p && h.origin[j].how == ByReturn
    && db.loans[j].checkin.Some? && IsDate(db.loans[j].checkin.value)
  }

  predicate FairRow(p: int, r: (Loan, Origin)) {
    r.0.patron == p && r.1.how == ByReturn && r.0.checkin.Some? && IsDate(r.0.checkin.value) ==>
    Readable(r.0.due, r.0.checkin.value)
  }

  lemma RowIsFairIff(p: int, row: Loan, o: Origin)
    requires DatedRow(row, o)
    ensures Owes(p)((row, o)) >= LateFee(p)((row, o))
    ensures Owes(p)((row, o)) == LateFee(p)((row, o)) <==> FairRow(p, (row, o))
  {
    hide IsDate, Charge, DaysLate, Readable;
    if row.checkin.Some? && IsDate(row.checkin.value) { ChargeIsDaysLateIff(row.due, row.checkin.value); }
  }

  lemma OwedIsLateFeesIff(db: Tables, h: History, p: int)
    requires Dated(db, h)
    ensures Owed(db, h, p) >= LateFees(db, h, p)
    ensures Owed(db, h, p) == LateFees(db, h, p)
        <==> forall j :: ReturnedBy(db, h, p, j) ==> Readable(db.loans[j].due, db.loans[j].checkin.value)
  {
    hide IsDate, Readable, DatedRow, Owes, LateFee;
    var rows := Rows(db.loans, h.origin);
    forall r | r in rows ensures Owes(p)(r) >= LateFee(p)(r) && (Owes(p)(r) == LateFee(p)(r) <==> FairRow(p, r)) {
      var j :| 0 <= j < |rows| && rows[j] == r;
      RowIsFairIff(p, db.loans[j], h.origin[j]);
    }
    SumEqualIff(rows, Owes(p), LateFee(p));
    if forall r :: r in rows ==> FairRow(p, r) {
      forall j | ReturnedBy(db, h, p, j) ensures Readable(db.loans[j].due, db.loans[j].checkin.value) {
        assert rows[j] in rows;
      }
    }
  }

  /**
   Conservation in calendar days, over every run whose clocks show dates: a patron's unpaid total
   grows by at least ten cents for each day late, and by exactly that if and only if every returned
   loan's due date was readable. `DueIsDateIff` says when a due date is a date.
   */
  lemma FinesArePerDayLate(s: State, actions: seq<Action>, p: int)
    requires Start(s) && Dated(s.db, s.hist) && DateClocks(actions)
    ensures var db, h := Run(s, actions).db, Run(s, actions).hist;
            && |h.origin| == |db.loans|
            && SumUnpaidFines(db.fines, p) >= SumUnpaidFines(s.db.fines, p) + LateFees(db, h, p)
            && (SumUnpaidFines(db.fines, p) == SumUnpaidFines(s.db.fines, p) + LateFees(db, h, p)
                <==> forall j :: ReturnedBy(db, h, p, j) ==> Readable(db.loans[j].due, db.loans[j].checkin.value))
  {
    hide Run, Inv, Dated, SumUnpaidFines, Owed, LateFees, ReturnedBy, Readable, DateClocks;
    FinesAreConserved(s, actions, p);
    RunKeepsDated(s, actions);
    OwedIsLateFeesIff(Run(s, actions).db, Run(s, actions).hist, p);
  }

  // ---- The loan of the last day ----

  lemma TenThousand()
    ensures Digits(10000, 4)[0] == '1' && Digits(9999, 4)[0] == '9'
  {
    assert Digits(1, 0) == "1" && Digits(9, 1) == "9";
    assert Digits(10, 1) == Digits(1, 0) + "0" && Digits(99, 2) == Digits(9, 1) + "9";
    assert Digits(100, 2) == Digits(10, 1) + "0" && Digits(999, 3) == Digits(99, 2) + "9";
    assert Digits(1000, 3) == Digits(100, 2) + "0" && Digits(9999, 4) == Digits(999, 3) + "9";
    assert Digits(10000, 4) == Digits(1000, 3) + "0";
  }

  lemma TwoWeeksOver(y: int)
    requires 0 <= y <= MAX_YEAR
    ensures AddDays(Format(Date(y, 12, 31)), 14) == Format(Date(y + 1, 1, 14))
    ensures IsDate(Format(Date(y, 12, 31))) && DayOf(Format(Date(y, 12, 31))) == DaysBeforeYear(y + 1) - 1
  {
    hide Format, IsDate, DayOf, AddDays, FormatDay, DayNumber, DaysBeforeYear;
    YearEnds(y);
    MiddleOfJanuary(y + 1);
    FormattedDate(Date(y, 12, 31));
    FormatDayOf(Date(y + 1, 1, 14));
    AddDaysFrom(Format(Date(y, 12, 31)), 14);
  }

  lemma MiddleOfJanuary(y: int)
    ensures DayNumber(Date(y, 1, 14)) == DaysBeforeYear(y) + 13
  {
    MonthTable(y);
  }

  function LastDate(): string { Format(Date(9999, 12, 31)) }

  lemma ChargeOfTheLastDay()
    ensures IsDate(LastDate()) && !Readable(AddDays(LastDate(), 14), LastDate())
    ensures Charge(AddDays(LastDate(), 14), LastDate()) == 1067510
  {
    hide Less, Format, IsDate, DayOf, AddDays, Charge, Readable;
    TwoWeeksOver(9999);
    assert DaysBeforeYear(10000) == 3652425;
    DueTextBefore();
    NotADateAfter9999();
    ChargeUnreadable(Format(Date(10000, 1, 14)), Format(Date(9999, 12, 31)));
  }

  /** One patron and one copy, lent for 14 days. */
  function OneCopy(): Tables {
    Tables(map[1 := Patron(false, false)], {5}, map[0 := Item(5, Available, 14)], 1, [], [], [])
  }

  function OneCopyState(): State { State(OneCopy(), map[], [], FreshHistory(OneCopy())) }

  function LendAndReturn(today: string): seq<Action> {
    [Begin(Request.Borrow(1, 0))] + Steps(0, 7, today) + [Begin(Request.Return(0))] + [Step(1, today)]
  }

  lemma LendAndReturnRuns(s: State, today: string)
    requires s.calls == [] && 1 !in s.locks
    ensures Run(s, LendAndReturn(today)).db == ReturnTx(BorrowCall(s.db, 1, 0, today).1, 0, today, FINE_PER_DAY).1
  {
    hide Apply, BorrowCall, ReturnTx;
    var borrow, back := [Begin(Request.Borrow(1, 0))], [Begin(Request.Return(0))];
    RunConcat(s, borrow, Steps(0, 7, today));
    RunConcat(s, borrow + Steps(0, 7, today), back);
    RunConcat(s, borrow + Steps(0, 7, today) + back, [Step(1, today)]);
    OneAction(s, Begin(Request.Borrow(1, 0)));
    AloneIsRun(Run(s, borrow), 0, 7, today);
    BorrowAlone(s, 1, 0, today);
    var t := Run(s, borrow + Steps(0, 7, today));
    OneAction(t, Begin(Request.Return(0)));
    BeginIs(t, Request.Return(0));
    OneAction(Run(t, back), Step(1, today));
    ReturnAlone(Run(t, back), 1, 0, today);
  }

  lemma ReturnAlone(s: State, c: int, l: int, today: string)
    requires IsRow(c, s.calls) && s.calls[c] == ReturnStart(l)
    ensures Apply(s, Step(c, today)).db == ReturnTx(s.db, l, today, FINE_PER_DAY).1
  {
    hide ReturnTx, Close;
    ReturnFails(s.db, l, today);
  }

  /** What borrowing for 14 days and returning on the same day leave in the fines. */
  lemma SameDayFines(today: string, due: string)
    requires due == AddDays(today, 14)
    ensures ReturnTx(BorrowCall(OneCopy(), 1, 0, today).1, 0, today, FINE_PER_DAY).1.fines
         == WithFine([], 1, 0, FineFor(due, today, FINE_PER_DAY), today)
  {
    hide AddDays, FineFor, WithFine, Released, Woken, WokenPatron;
    var db := BorrowCall(OneCopy(), 1, 0, today).1;
    assert db.loans == [Loan(0, 1, today, due, None, 0, true)];
  }

  /** A loan of 14 days made and returned on 9999-12-31 leaves a fine for 106751 days. */
  lemma LoanOfTheLastDay()
    ensures Start(OneCopyState()) && IsDate(LastDate())
    ensures Run(OneCopyState(), LendAndReturn(LastDate())).db.fines == [Fine(1, 0, 1067510, LastDate(), false)]
  {
    hide Run, Start, AddDays, LastDate, IsDate, FineFor, BorrowCall, ReturnTx, FreshHistory, LendAndReturn, Readable;
    FreshLibraryStarts(OneCopy());
    LendAndReturnRuns(OneCopyState(), LastDate());
    SameDayFines(LastDate(), AddDays(LastDate(), 14));
    ChargeOfTheLastDay();
  }

  lemma DueTextBefore()
    ensures Less(Format(Date(10000, 1, 14)), Format(Date(9999, 12, 31)))
  {
    var last, due := Format(Date(9999, 12, 31)), Format(Date(10000, 1, 14));
    TenThousand();
    assert due[0] == Digits(10000, 4)[0] && last[0] == Digits(9999, 4)[0];
  }

  lemma NotADateAfter9999()
    ensures !IsDate(Format(Date(10000, 1, 14)))
  {
    FormatOutOfRange(Date(10000, 1, 14));
  }

  lemma ChargeUnreadable(due: string, checkin: string)
    requires !IsDate(due) && IsDate(checkin) && Less(due, checkin)
    requires DayOf(checkin) > DaysBeforeYear(1) + MAX_DURATION_DAYS
    ensures !Readable(due, checkin) && Charge(due, checkin) == 10 * MAX_DURATION_DAYS
  {
    hide IsDate, DayOf, Less, DaysBetween;
    DaysBetweenIsClamped(due, checkin);
  }
}
