/** Conservation of fines over runs, and at most one fine per renewal chain. */
module CirculationFines {
  import opened Dates
  import opened Sums
  import opened Library
  import opened Circulation
  import opened CirculationInvariant
  import opened CirculationSafety
  import opened CirculationTheorems
  import opened CirculationHistory
  import opened CirculationChains
  import opened Wrappers

  // ---- What is owed ----

  /** The charge for returning a loan: the fine, when there is one. */
  function Charge(due: string, checkin: string): int {
    var fine := FineFor(due, checkin, FINE_PER_DAY);
    if fine > 0 then fine else 0
  }

  /** Ten cents for every calendar day late, and nothing for a return on time. */
  lemma ChargeIsPerDayLate(due: string, checkin: string)
    requires IsDate(due) && IsDate(checkin)
    ensures var late := DayOf(checkin) - DayOf(due);
            Charge(due, checkin) == 10 * (if late <= 0 then 0
              else if late <= MAX_DURATION_DAYS then late else MAX_DURATION_DAYS)
  {
    hide IsDate, DayOf, Less, DaysBetween;
    DaysBetweenDates(due, checkin);
    TextOrderIsDayOrder(due, checkin);
  }

  lemma ChargeIsMultipleOfTen(due: string, checkin: string)
    ensures FineFor(due, checkin, FINE_PER_DAY) % 10 == 0
  {
    hide Less, DaysBetween;
  }

  function Rows(loans: seq<Loan>, origin: seq<Origin>): (rows: seq<(Loan, Origin)>)
    requires |loans| == |origin|
    ensures |rows| == |loans| && forall i :: 0 <= i < |rows| ==> rows[i] == (loans[i], origin[i])
  {
    seq(|loans|, i requires 0 <= i < |loans| => (loans[i], origin[i]))
  }

  function Owes(p: int): ((Loan, Origin)) -> int {
    (r: (Loan, Origin)) =>
      if r.0.patron == p && r.1.how == ByReturn && r.0.checkin.Some? then Charge(r.0.due, r.0.checkin.value) else 0
  }

  /** The charges of the loans of `p` that were closed by a return since the start. */
  function Owed(db: Tables, h: History, p: int): int
    requires |h.origin| == |db.loans|
  {
    Sum(Rows(db.loans, h.origin), Owes(p))
  }

  function Balance(s: State, p: int): int
    requires |s.hist.origin| == |s.db.loans|
  {
    SumUnpaidFines(s.db.fines, p) - Owed(s.db, s.hist, p)
  }

  lemma OwedOpened(loans: seq<Loan>, origin: seq<Origin>, row: Loan, o: Origin, p: int)
    requires |loans| == |origin| && o.how == Open
    ensures Sum(Rows(loans + [row], origin + [o]), Owes(p)) == Sum(Rows(loans, origin), Owes(p))
  {
    hide Charge;
    assert Rows(loans + [row], origin + [o]) == Rows(loans, origin) + [(row, o)];
    SumAppend(Rows(loans, origin), (row, o), Owes(p));
  }

  lemma OwedClosed(loans: seq<Loan>, origin: seq<Origin>, l: int, row: Loan, o: Origin, p: int)
    requires |loans| == |origin| && IsRow(l, loans) && origin[l].how == Open
    ensures Sum(Rows(loans[l := row], origin[l := o]), Owes(p)) == Sum(Rows(loans, origin), Owes(p)) + Owes(p)((row, o))
  {
    hide Charge;
    assert Rows(loans[l := row], origin[l := o]) == Rows(loans, origin)[l := (row, o)];
    SumUpdate(Rows(loans, origin), l, (row, o), Owes(p));
  }

  lemma FineAdded(fines: seq<Fine>, patron: int, l: int, due: string, today: string, p: int)
    ensures SumUnpaidFines(WithFine(fines, patron, l, FineFor(due, today, FINE_PER_DAY), today), p)
         == SumUnpaidFines(fines, p) + (if patron == p then Charge(due, today) else 0)
  {
    hide FineFor;
    SumAppend(fines, Fine(patron, l, FineFor(due, today, FINE_PER_DAY), today, false), UnpaidOf(p));
  }

  lemma ReturnBalances(s: State, c: int, l: int, today: string, p: int)
    requires Inv(s) && IsRow(c, s.calls)
    ensures var t := CommitReturn(s, c, l, today);
            |s.hist.origin| == |s.db.loans| && |t.hist.origin| == |t.db.loans| && Balance(t, p) == Balance(s, p)
  {
    hide Inv, FineFor, Woken, Released, WokenPatron, Owes, SumUnpaidFines, WithFine, Rows;
    OriginsMatch(s);
    if IsRow(l, s.db.loans) && s.db.loans[l].active {
      LoanIsOpen(s, l);
      var row := s.db.loans[l];
      var closed, o := row.(checkin := Some(today), active := false), s.hist.origin[l].(how := ByReturn);
      OwedClosed(s.db.loans, s.hist.origin, l, closed, o, p);
      FineAdded(s.db.fines, row.patron, l, row.due, today, p);
      OwesReturned(closed, o, today, p);
    }
  }

  lemma OwesReturned(row: Loan, o: Origin, today: string, p: int)
    requires o.how == ByReturn && row.checkin == Some(today)
    ensures Owes(p)((row, o)) == if row.patron == p then Charge(row.due, today) else 0
  {
    hide Charge;
  }

  lemma OwesNothing(row: Loan, o: Origin, p: int)
    requires o.how != ByReturn
    ensures Owes(p)((row, o)) == 0
  {
  }

  lemma LoanIsOpen(s: State, l: int)
    requires Inv(s) && IsRow(l, s.db.loans)
    ensures IsRow(l, s.hist.origin) && (s.db.loans[l].active <==> s.hist.origin[l].how == Open)
  {
    hide LoansInv, ItemsInv, DaysInv, FinesInv, HoldsInv, LimitInv, CallsInv, LocksInv, WinnersInv;
    ActiveIffOpen(s.db, s.hist, l);
  }

  lemma RenewBalances(s: State, c: int, l: int, oldDue: string, newDue: string, renewals: int, p: int)
    requires Inv(s) && IsRow(c, s.calls)
    ensures var t := CommitRenew(s, c, l, oldDue, newDue, renewals);
            |s.hist.origin| == |s.db.loans| && |t.hist.origin| == |t.db.loans| && Balance(t, p) == Balance(s, p)
  {
    hide Inv, Owes, SumUnpaidFines, Rows;
    OriginsMatch(s);
    if IsRow(l, s.db.loans) && s.db.loans[l].active {
      LoanIsOpen(s, l);
      var row := s.db.loans[l];
      var closed, o := row.(checkin := Some(oldDue), active := false), s.hist.origin[l].(how := ByRenewal);
      OwedClosed(s.db.loans, s.hist.origin, l, closed, o, p);
      OwesNothing(closed, o, p);
      OwedOpened(s.db.loans[l := closed], s.hist.origin[l := o],
        Loan(row.item, row.patron, oldDue, newDue, None, renewals, true), Origin(Some(l), Open), p);
    }
  }

  lemma BorrowBalances(s: State, c: int, pt: int, i: int, out: string, due: string, p: int)
    requires Inv(s) && IsRow(c, s.calls)
    ensures var t := CommitBorrow(s, c, pt, i, out, due);
            |s.hist.origin| == |s.db.loans| && |t.hist.origin| == |t.db.loans| && Balance(t, p) == Balance(s, p)
  {
    hide Inv, Owes, SumUnpaidFines, Rows;
    OriginsMatch(s);
    OwedOpened(s.db.loans, s.hist.origin, Loan(i, pt, out, due, None, 0, true), Origin(None, Open), p);
  }

  ghost predicate SameAccounts(s: State, t: State) {
    t.db.loans == s.db.loans && t.db.fines == s.db.fines && t.hist.origin == s.hist.origin
  }

  lemma StepBalances(s: State, a: Action, p: int)
    requires Inv(s)
    ensures |s.hist.origin| == |s.db.loans| && |Apply(s, a).hist.origin| == |Apply(s, a).db.loans|
    ensures Balance(Apply(s, a), p) == Balance(s, p)
  {
    hide Inv, Balance, CommitBorrow, CommitReturn, CommitRenew, AddDays, Less, FirstWaiting, ActiveOn, ActiveLoans;
    hide HasAvailable, AlreadyWaiting, NextPos, LimitFor;
    OriginsMatch(s);
    if a.Step? && IsRow(a.call, s.calls)
      && (s.calls[a.call].BorrowReady? || s.calls[a.call].ReturnStart? || s.calls[a.call].RenewReady?) {
      match s.calls[a.call]
      case BorrowReady(pt, i, days) => BorrowBalances(s, a.call, pt, i, a.today, AddDays(a.today, days), p);
      case RenewReady(l, row, days) => RenewBalances(s, a.call, l, row.due,
        AddDays(row.due, days), row.renewals + 1, p);
      case ReturnStart(l) => ReturnBalances(s, a.call, l, a.today, p);
    } else {
      assert SameAccounts(s, Apply(s, a));
      BalanceSame(s, Apply(s, a), p);
    }
  }

  lemma BalanceSame(s: State, t: State, p: int)
    requires SameAccounts(s, t) && |s.hist.origin| == |s.db.loans|
    ensures Balance(t, p) == Balance(s, p)
  {
  }

  lemma {:induction false} RunBalances(s: State, actions: seq<Action>, p: int)
    requires Inv(s)
    ensures |s.hist.origin| == |s.db.loans| && |Run(s, actions).hist.origin| == |Run(s, actions).db.loans|
    ensures Balance(Run(s, actions), p) == Balance(s, p)
  {
    hide Inv, Apply, Balance;
    OriginsMatch(s);
    if actions != [] {
      var n := |actions| - 1;
      RunBalances(s, actions[..n], p);
      RunKeepsInvariant(s, actions[..n]);
      StepBalances(Run(s, actions[..n]), actions[n], p);
    }
  }

  lemma StartOwesNothing(s: State, p: int)
    requires Start(s)
    ensures |s.hist.origin| == |s.db.loans| && Owed(s.db, s.hist, p) == 0
  {
    hide Inv, Owes;
    OriginsMatch(s);
    var rows := Rows(s.db.loans, s.hist.origin);
    forall r | r in rows ensures Owes(p)(r) == 0 {
      var l :| 0 <= l < |rows| && rows[l] == r;
      StartHasNoClosing(s, l);
      LoanIsOpen(s, l);
      OwesNothing(r.0, r.1, p);
    }
    SumZero(rows, Owes(p));
  }

  /**
   Conservation over any run: a patron's unpaid total grows by exactly the charges of that
   patron's loans closed by returns, ten cents for each day late.
   */
  lemma FinesAreConserved(s: State, actions: seq<Action>, p: int)
    requires Start(s)
    ensures |Run(s, actions).hist.origin| == |Run(s, actions).db.loans|
    ensures SumUnpaidFines(Run(s, actions).db.fines, p)
         == SumUnpaidFines(s.db.fines, p) + Owed(Run(s, actions).db, Run(s, actions).hist, p)
  {
    hide Run, Inv, SumUnpaidFines, Owed;
    RunBalances(s, actions, p);
    StartOwesNothing(s, p);
  }

  // ---- One fine per chain ----

  lemma OldFinesStay(s: State, a: Action)
    ensures Apply(s, a).hist.oldFines == s.hist.oldFines
  {
    hide Less, AddDays, FirstWaiting, ReturnTx, Checkout, RenewCheckout, DeleteItem, HasAvailable, AlreadyWaiting;
    hide NextPos, LimitFor, InsertHold, CancelHold;
  }

  lemma {:induction false} RunKeepsOldFines(s: State, actions: seq<Action>)
    ensures Run(s, actions).hist.oldFines == s.hist.oldFines
  {
    hide Apply;
    if actions != [] {
      RunKeepsOldFines(s, actions[..|actions| - 1]);
      OldFinesStay(Run(s, actions[..|actions| - 1]), actions[|actions| - 1]);
    }
  }

  lemma FineOfReturn(db: Tables, h: History, f: int)
    requires FinesInv(db, h) && IsRow(f, db.fines) && f >= h.oldFines
    ensures |h.origin| == |db.loans| && IsRow(db.fines[f].loan, db.loans) && h.origin[db.fines[f].loan].how == ByReturn
    ensures var row := db.loans[db.fines[f].loan];
            row.checkin.Some? && db.fines[f].patron == row.patron && !db.fines[f].paid
            && db.fines[f].amount == Charge(row.due, row.checkin.value) && db.fines[f].amount % 10 == 0
  {
    hide FineFor;
    assert FineInv(db, h, f);
    var row := db.loans[db.fines[f].loan];
    ChargeIsMultipleOfTen(row.due, row.checkin.value);
  }

  lemma ChainFinedOnce(db: Tables, h: History, f: int, g: int)
    requires LoansInv(db, h) && FinesInv(db, h) && IsRow(f, db.fines) && IsRow(g, db.fines) && f >= h.oldFines
    requires g >= h.oldFines
    requires Root(h, db.fines[f].loan) == Root(h, db.fines[g].loan)
    ensures f == g
  {
    hide LoansInv, FineInv, Charge;
    FineOfReturn(db, h, f);
    FineOfReturn(db, h, g);
    ReturnEndsChain(db, h, db.fines[f].loan, db.fines[g].loan);
    ReturnEndsChain(db, h, db.fines[g].loan, db.fines[f].loan);
    ChainsAreLinear(db, h, db.fines[f].loan, db.fines[g].loan);
  }

  /**
   In every state of every run, a fine charged since the start belongs to a loan closed by a
   return, which is the last loan of its chain; its amount is that loan's charge, a multiple
   of ten cents; and no other fine belongs to the same chain.
   */
  lemma OneFinePerChain(s: State, actions: seq<Action>, f: int)
    requires Inv(s) && IsRow(f, Run(s, actions).db.fines) && f >= s.hist.oldFines
    ensures var db, h := Run(s, actions).db, Run(s, actions).hist;
            && IsRow(db.fines[f].loan, db.loans) && db.loans[db.fines[f].loan].checkin.Some?
            && db.fines[f].amount == Charge(db.loans[db.fines[f].loan].due, db.loans[db.fines[f].loan].checkin.value)
            && db.fines[f].amount % 10 == 0
            && (forall k :: IsRow(k, db.loans) && Root(h, k) == Root(h, db.fines[f].loan)
                 ==> Depth(h, k) <= Depth(h, db.fines[f].loan))
            && (forall g :: IsRow(g, db.fines) && g >= s.hist.oldFines ==>
                  Root(h, db.fines[g].loan) == Root(h, db.fines[f].loan) ==> g == f)
  {
    hide Run, LoansInv, ItemsInv, DaysInv, FinesInv, HoldsInv, LimitInv, CallsInv, LocksInv, WinnersInv, Charge, Depth;
    hide Root;
    RunKeepsInvariant(s, actions);
    RunKeepsOldFines(s, actions);
    var db, h := Run(s, actions).db, Run(s, actions).hist;
    FineOfReturn(db, h, f);
    forall k | IsRow(k, db.loans) && Root(h, k) == Root(h, db.fines[f].loan)
      ensures Depth(h, k) <= Depth(h, db.fines[f].loan)
    {
      ReturnEndsChain(db, h, db.fines[f].loan, k);
    }
    forall g | IsRow(g, db.fines) && g >= s.hist.oldFines && Root(h, db.fines[g].loan) == Root(h, db.fines[f].loan)
      ensures g == f
    {
      ChainFinedOnce(db, h, g, f);
    }
  }
}
