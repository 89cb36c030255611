/** The invariant holds after every step, so in every state of every run. */
module CirculationSafety {
  import opened Dates
  import opened Sums
  import opened Library
  import opened Circulation
  import opened CirculationInvariant
  import opened CirculationTables
  import opened Wrappers

  function Wins(k: Call, l: int): int { if Closed(k) == Some(l) then 1 else 0 }

  function Counted(h: History, l: int): int { if ClosedHere(h, l) then 1 else 0 }

  function Committed(s: State, db: Tables, h: History, c: int, k: Call): State
    requires IsRow(c, s.calls)
  {
    State(db, s.locks, s.calls[c := k], h)
  }

  /** Only the holder of a patron's lock may raise that patron's count. */
  ghost predicate LendsUnderLock(db: Tables, db': Tables, k: Call) {
    forall q :: LockOf(k) != Some(q) ==> ActiveLoans(db'.loans, q) <= ActiveLoans(db.loans, q)
  }

  lemma Known(s: State, c: int)
    requires Inv(s) && IsRow(c, s.calls)
    ensures TablesInv(s.db, s.hist) && CallInv(s.db, s.hist, s.calls[c])
  {
    hide TablesInv, CallInv;
  }

  lemma OthersKeepKnowing(s: State, db: Tables, h: History, c: int)
    requires CallsInv(s) && LocksInv(s) && IsRow(c, s.calls)
    requires Grows(s.db, s.hist, db, h) && LendsUnderLock(s.db, db, s.calls[c])
    ensures forall d :: IsRow(d, s.calls) && d != c ==> CallInv(db, h, s.calls[d])
  {
    hide CallInv, Grows;
    forall d | IsRow(d, s.calls) && d != c ensures CallInv(db, h, s.calls[d]) {
      CallStable(s.db, s.hist, db, h, s.calls[d]);
    }
  }

  lemma CommitWinners(s: State, db: Tables, h: History, c: int, k: Call)
    requires WinnersInv(s) && IsRow(c, s.calls)
    requires forall l :: Counted(h, l) - Counted(s.hist, l) == Wins(k, l) - Wins(s.calls[c], l)
    ensures WinnersInv(Committed(s, db, h, c, k))
  {
    forall l ensures Sum(s.calls[c := k], Closes(l)) == Counted(h, l) {
      SumUpdate(s.calls, c, k, Closes(l));
    }
  }

  lemma CommitKeeps(s: State, db: Tables, h: History, c: int, k: Call)
    requires Inv(s) && IsRow(c, s.calls) && TablesInv(db, h) && Grows(s.db, s.hist, db, h)
    requires LendsUnderLock(s.db, db, s.calls[c])
    requires CallInv(db, h, k) && LockOf(k) == LockOf(s.calls[c])
    requires forall l :: Counted(h, l) - Counted(s.hist, l) == Wins(k, l) - Wins(s.calls[c], l)
    ensures Inv(Committed(s, db, h, c, k))
  {
    hide TablesInv, CallInv, Grows, LendsUnderLock, WinnersInv;
    OthersKeepKnowing(s, db, h, c);
    CommitWinners(s, db, h, c, k);
  }

  /** A commit that closes no loan. */
  lemma PlainCommitKeeps(s: State, db: Tables, h: History, c: int, k: Call)
    requires Inv(s) && IsRow(c, s.calls) && TablesInv(db, h) && Grows(s.db, s.hist, db, h)
    requires LendsUnderLock(s.db, db, s.calls[c])
    requires CallInv(db, h, k) && LockOf(k) == LockOf(s.calls[c])
    requires Closed(k).None? && Closed(s.calls[c]).None? && forall l :: ClosedHere(h, l) == ClosedHere(s.hist, l)
    ensures Inv(Committed(s, db, h, c, k))
  {
    hide Inv, TablesInv, CallInv, Grows, LendsUnderLock;
    CommitKeeps(s, db, h, c, k);
  }

  ghost predicate ClosesOnly(h: History, h': History, l: int) {
    && !ClosedHere(h, l) && ClosedHere(h', l)
    && forall x :: x != l ==> ClosedHere(h', x) == ClosedHere(h, x)
  }

  /** A commit that closes loan `l` and is the first to do so. */
  lemma CloseKeeps(s: State, db: Tables, h: History, c: int, k: Call, l: int)
    requires Inv(s) && IsRow(c, s.calls) && TablesInv(db, h) && Grows(s.db, s.hist, db, h)
    requires LendsUnderLock(s.db, db, s.calls[c])
    requires LockOf(s.calls[c]).None? && Closed(s.calls[c]).None?
    requires CallInv(db, h, k) && LockOf(k).None? && Closed(k) == Some(l)
    requires ClosesOnly(s.hist, h, l)
    ensures Inv(Committed(s, db, h, c, k))
  {
    hide Inv, TablesInv, CallInv, Grows, LendsUnderLock;
    CommitKeeps(s, db, h, c, k);
  }

  /** A step that belongs to no call: closings are as before and no count rises. */
  lemma OutsideKeeps(s: State, db: Tables, h: History)
    requires Inv(s) && TablesInv(db, h) && Grows(s.db, s.hist, db, h) && db.loans == s.db.loans
    requires h.origin == s.hist.origin
    ensures Inv(State(db, s.locks, s.calls, h))
  {
    hide TablesInv, CallInv, Grows;
    forall c | IsRow(c, s.calls) ensures CallInv(db, h, s.calls[c]) {
      CallStable(s.db, s.hist, db, h, s.calls[c]);
    }
  }

  // ---- Borrow ----

  lemma LimitIsCap(db: Tables, h: History, p: int)
    requires TablesInv(db, h)
    ensures LimitFor(db, p) <= Cap(h, p)
  {
    hide ItemsInv, DaysInv, LoansInv, FinesInv, HoldsInv;
  }

  lemma LentFacts(db: Tables, h: History, p: int, i: int, out: string, due: string, k: Call)
    requires TablesInv(db, h) && BorrowAllowed(db, h, p, i, out, due) && LockOf(k) == Some(p)
    ensures var after := Checkout(db, i, p, out, due).1;
            TablesInv(after, Lend(h)) && Grows(db, h, after, Lend(h)) && LendsUnderLock(db, after, k)
    ensures forall l :: ClosedHere(Lend(h), l) == ClosedHere(h, l)
  {
    hide TablesInv, Grows, BorrowAllowed;
    BorrowKeepsTables(db, h, p, i, out, due);
  }

  lemma ReadyToBorrow(db: Tables, h: History, p: int, i: int, days: int, out: string, due: string)
    requires CallInv(db, h, BorrowReady(p, i, days)) && due == AddDays(out, days)
    requires Checkout(db, i, p, out, due).0.Ok?
    ensures BorrowAllowed(db, h, p, i, out, due)
  {
  }

  lemma CommitBorrowKeeps(s: State, c: int, p: int, i: int, days: int, today: string, due: string)
    requires Inv(s) && IsRow(c, s.calls) && s.calls[c] == BorrowReady(p, i, days) && due == AddDays(today, days)
    ensures Inv(CommitBorrow(s, c, p, i, today, due))
  {
    hide Inv, TablesInv, CallInv, Grows, LendsUnderLock, BorrowAllowed, AddDays;
    Known(s, c);
    if Checkout(s.db, i, p, today, due).0.Err? {
      LeaveKeeps(s, c, p, Refused);
    } else {
      var db, k := Checkout(s.db, i, p, today, due).1, BorrowCommitted(p, |s.db.loans|);
      ReadyToBorrow(s.db, s.hist, p, i, days, today, due);
      LentFacts(s.db, s.hist, p, i, today, due, s.calls[c]);
      Idle(db, Lend(s.hist), k);
      PlainCommitKeeps(s, db, Lend(s.hist), c, k);
    }
  }

  /** Calls that carry no knowledge of the tables. */
  lemma Idle(db: Tables, h: History, k: Call)
    requires k.Done? || k.BorrowCommitted? || k.RenewCommitted? || k.BorrowLocked?
        || k.BorrowPatron? || k.DeleteRead? || k.DeleteReady?
    ensures CallInv(db, h, k)
  {
  }

  lemma BorrowKeeps(s: State, c: int, today: string)
    requires Inv(s) && IsRow(c, s.calls) && Borrowing(s.calls[c])
    ensures Inv(AdvanceBorrow(s, c, today))
  {
    hide Inv, TablesInv, AddDays, CommitBorrow;
    Known(s, c);
    match s.calls[c]
    case BorrowStart(p, i) =>
      if p !in s.locks { LockKeeps(s, c, BorrowLocked(p, i), p); }
    case BorrowLocked(p, i) => LeaveKeeps(s, c, p, Refused); MoveKeeps(s, c, BorrowPatron(p, i));
    case BorrowPatron(p, i) =>
      LeaveKeeps(s, c, p, Refused);
      if i in s.db.items {
        PeriodOfItem(s.db, s.hist, i);
        MoveKeeps(s, c, BorrowItem(p, i, LoanDays(s.db.items[i].duration)));
      }
    case BorrowItem(p, i, days) => MoveKeeps(s, c, BorrowCounted(p, i, days, ActiveLoans(s.db.loans, p)));
    case BorrowCounted(p, i, days, count) =>
      LimitIsCap(s.db, s.hist, p);
      if count >= LimitFor(s.db, p) { LeaveKeeps(s, c, p, Refused); } else { MoveKeeps(s, c, BorrowReady(p, i, days)); }
    case BorrowReady(p, i, days) => CommitBorrowKeeps(s, c, p, i, days, today, AddDays(today, days));
    case BorrowCommitted(p, l) => LeaveKeeps(s, c, p, Lent(l));
  }

  lemma PeriodOfItem(db: Tables, h: History, i: int)
    requires TablesInv(db, h) && i in db.items
    ensures KnowsPeriod(h, i, LoanDays(db.items[i].duration))
  {
    hide ItemsInv, LoansInv, FinesInv, HoldsInv, LimitInv;
  }

  // ---- Return ----

  lemma OpenLoanIsNotClosed(db: Tables, h: History, l: int)
    requires TablesInv(db, h) && IsRow(l, db.loans) && db.loans[l].active
    ensures IsRow(l, h.origin) && |h.origin| == |db.loans|
    ensures ClosesOnly(h, Close(h, l, ByReturn), l) && ClosesOnly(h, Continue(h, l), l)
  {
    hide ItemsInv, DaysInv, FinesInv, HoldsInv, LimitInv, Follows;
    assert LoanInv(db, h, l);
  }

  lemma ReturnedFacts(db: Tables, h: History, l: int, today: string, after: Tables, h': History, k: Call)
    requires TablesInv(db, h) && IsRow(l, db.loans) && db.loans[l].active
    requires after == ReturnTx(db, l, today, FINE_PER_DAY).1 && h' == Close(h, l, ByReturn)
    ensures TablesInv(after, h') && Grows(db, h, after, h') && ClosesOnly(h, h', l) && LendsUnderLock(db, after, k)
  {
    hide TablesInv, Grows, ClosesOnly;
    OpenLoanIsNotClosed(db, h, l);
    ReturnKeepsTables(db, h, l, today);
    ReturnGrows(db, h, l, today);
  }

  lemma ReturnKeeps(s: State, c: int, l: int, today: string)
    requires Inv(s) && IsRow(c, s.calls) && s.calls[c] == ReturnStart(l)
    ensures Inv(CommitReturn(s, c, l, today))
  {
    hide Inv, TablesInv, CallInv, Grows, LendsUnderLock, ClosesOnly;
    Known(s, c);
    Idle(s.db, s.hist, Done(Refused));
    if !IsRow(l, s.db.loans) || !s.db.loans[l].active {
      MoveKeeps(s, c, Done(Refused));
    } else {
      var db, h := ReturnTx(s.db, l, today, FINE_PER_DAY).1, Close(s.hist, l, ByReturn);
      ReturnedFacts(s.db, s.hist, l, today, db, h, s.calls[c]);
      Idle(db, h, Done(Returned(l)));
      CloseKeeps(s, db, h, c, Done(Returned(l)), l);
    }
  }

  // ---- Renew ----

  lemma RenewFacts(db: Tables, h: History, l: int, row: Loan, due: string, after: Tables, h': History, k: Call)
    requires TablesInv(db, h) && RenewAllowed(db, h, l, row, due)
    requires after == Renewal(db, l, row, due) && h' == Continue(h, l)
    ensures TablesInv(after, h') && Grows(db, h, after, h') && ClosesOnly(h, h', l) && LendsUnderLock(db, after, k)
  {
    hide TablesInv, Grows, ClosesOnly;
    OpenLoanIsNotClosed(db, h, l);
    RenewKeepsTables(db, h, l, row, due);
  }

  lemma ReadyToRenew(db: Tables, h: History, l: int, row: Loan, days: int, due: string)
    requires CallInv(db, h, RenewReady(l, row, days)) && due == AddDays(row.due, days)
    ensures IsRow(l, db.loans) && (db.loans[l].active ==> RenewAllowed(db, h, l, row, due))
  {
  }

  lemma CommitRenewKeeps(s: State, c: int, l: int, row: Loan, days: int, due: string)
    requires Inv(s) && IsRow(c, s.calls) && s.calls[c] == RenewReady(l, row, days) && due == AddDays(row.due, days)
    ensures Inv(CommitRenew(s, c, l, row.due, due, row.renewals + 1))
  {
    hide Inv, TablesInv, CallInv, Grows, LendsUnderLock, ClosesOnly, RenewAllowed, AddDays;
    Known(s, c);
    ReadyToRenew(s.db, s.hist, l, row, days, due);
    Idle(s.db, s.hist, Done(Refused));
    if !s.db.loans[l].active {
      MoveKeeps(s, c, Done(Refused));
    } else {
      var db, h, k := Renewal(s.db, l, row, due), Continue(s.hist, l), RenewCommitted(l, |s.db.loans|);
      RenewFacts(s.db, s.hist, l, row, due, db, h, s.calls[c]);
      Idle(db, h, k);
      CloseKeeps(s, db, h, c, k, l);
    }
  }

  lemma RenewKeeps(s: State, c: int, today: string)
    requires Inv(s) && IsRow(c, s.calls) && Renewing(s.calls[c])
    ensures Inv(AdvanceRenew(s, c, today))
  {
    hide Inv, TablesInv, AddDays, Less, CommitRenew, FirstWaiting;
    Known(s, c);
    match s.calls[c]
    case RenewStart(l) =>
      MoveKeeps(s, c, Done(Refused));
      if IsRow(l, s.db.loans) { MoveKeeps(s, c, RenewRead(l, s.db.loans[l])); }
    case RenewRead(l, row) =>
      MoveKeeps(s, c, Done(Refused));
      if row.renewals < MAX_RENEWALS && row.item in s.db.items {
        MoveKeeps(s, c, RenewCopy(l, row, s.db.items[row.item].biblio));
      }
    case RenewCopy(l, row, b) =>
      MoveKeeps(s, c, Done(Refused));
      MoveKeeps(s, c, RenewQueue(l, row));
    case RenewQueue(l, row) =>
      MoveKeeps(s, c, Done(Refused));
      if row.item in s.db.items {
        PeriodOfItem(s.db, s.hist, row.item);
        MoveKeeps(s, c, RenewReady(l, row, LoanDays(s.db.items[row.item].duration)));
      }
    case RenewReady(l, row, days) => CommitRenewKeeps(s, c, l, row, days, AddDays(row.due, days));
    case RenewCommitted(l, n) => MoveKeeps(s, c, Done(Renewed(l, n)));
  }

  // ---- Delete ----

  lemma CommitDeleteKeeps(s: State, c: int, i: int)
    requires Inv(s) && IsRow(c, s.calls) && s.calls[c] == DeleteReady(i)
    ensures Inv(CommitDelete(s, c, i))
  {
    hide Inv, TablesInv, CallInv, Grows;
    Known(s, c);
    Idle(s.db, s.hist, Done(Refused));
    if DeleteItem(s.db, i).0.Err? {
      MoveKeeps(s, c, Done(Refused));
    } else {
      var db := DeleteItem(s.db, i).1;
      DeleteKeepsTables(s.db, s.hist, i);
      Idle(db, s.hist, Done(Deleted(i)));
      PlainCommitKeeps(s, db, s.hist, c, Done(Deleted(i)));
    }
  }

  lemma DeleteKeeps(s: State, c: int)
    requires Inv(s) && IsRow(c, s.calls) && Deleting(s.calls[c])
    ensures Inv(AdvanceDelete(s, c))
  {
    hide Inv, TablesInv, CommitDelete;
    MoveKeeps(s, c, Done(Refused));
    match s.calls[c]
    case DeleteStart(i) => MoveKeeps(s, c, DeleteRead(i));
    case DeleteRead(i) => MoveKeeps(s, c, DeleteReady(i));
    case DeleteReady(i) => CommitDeleteKeeps(s, c, i);
  }

  // ---- Holds ----

  lemma HoldFacts(db: Tables, h: History, p: int, b: int, pos: int, seen: int, today: string)
    requires TablesInv(db, h) && CallInv(db, h, HoldNumbered(p, b, pos, seen))
    ensures var after, h' := InsertHold(db, p, b, pos, today), h.(seen := h.seen + [seen]);
            && TablesInv(after, h') && Grows(db, h, after, h')
            && LendsUnderLock(db, after, HoldNumbered(p, b, pos, seen))
            && CallInv(after, h', HoldDone(|db.holds|, seen))
  {
    hide ItemsInv, LoansInv, FinesInv, LimitInv, Grows, DaysInv;
    HoldKeepsTables(db, h, p, b, pos, seen, today);
  }

  lemma CommitHoldKeeps(s: State, c: int, p: int, b: int, pos: int, seen: int, today: string)
    requires Inv(s) && IsRow(c, s.calls) && s.calls[c] == HoldNumbered(p, b, pos, seen)
    ensures Inv(CommitHold(s, c, p, b, pos, seen, today))
  {
    hide Inv, TablesInv, CallInv, Grows, LendsUnderLock;
    Known(s, c);
    HoldFacts(s.db, s.hist, p, b, pos, seen, today);
    PlainCommitKeeps(s, InsertHold(s.db, p, b, pos, today),
      s.hist.(seen := s.hist.seen + [seen]), c, HoldDone(|s.db.holds|, seen));
  }

  lemma NumberIsAbove(holds: seq<Hold>, b: int)
    ensures forall a :: 0 <= a < |holds| && holds[a].biblio == b ==> holds[a].pos < NextPos(holds, b)
  {
    NextPosIsFresh(holds, b);
    forall a | 0 <= a < |holds| && holds[a].biblio == b ensures holds[a].pos < NextPos(holds, b) {
      assert Library.Queued(holds, a, b);
    }
  }

  lemma HoldKeeps(s: State, c: int, today: string)
    requires Inv(s) && IsRow(c, s.calls) && Holding(s.calls[c])
    ensures Inv(AdvanceHold(s, c, today))
  {
    hide Inv, TablesInv, CommitHold, HasAvailable, AlreadyWaiting, NextPos;
    Known(s, c);
    MoveKeeps(s, c, Done(Refused));
    match s.calls[c]
    case HoldStart(p, b, seen) => MoveKeeps(s, c, HoldPatron(p, b, seen));
    case HoldPatron(p, b, seen) => MoveKeeps(s, c, HoldBook(p, b, seen));
    case HoldBook(p, b, seen) => MoveKeeps(s, c, HoldCopies(p, b, seen));
    case HoldCopies(p, b, seen) => MoveKeeps(s, c, HoldReady(p, b, seen));
    case HoldReady(p, b, seen) =>
      NumberIsAbove(s.db.holds, b);
      MoveKeeps(s, c, HoldNumbered(p, b, NextPos(s.db.holds, b), seen));
    case HoldNumbered(p, b, pos, seen) => CommitHoldKeeps(s, c, p, b, pos, seen, today);
  }

  // ---- Every step, every run ----

  lemma AdvanceKeeps(s: State, c: int, today: string)
    requires Inv(s) && IsRow(c, s.calls)
    ensures Inv(Advance(s, c, today))
  {
    hide Inv, AdvanceBorrow, AdvanceRenew, AdvanceDelete, AdvanceHold, CommitReturn;
    var k := s.calls[c];
    if Borrowing(k) { BorrowKeeps(s, c, today); }
    else if Renewing(k) { RenewKeeps(s, c, today); }
    else if Deleting(k) { DeleteKeeps(s, c); }
    else if Holding(k) { HoldKeeps(s, c, today); }
    else if k.ReturnStart? { ReturnKeeps(s, c, k.loan, today); }
  }

  lemma BeginKeeps(s: State, r: Request)
    requires Inv(s)
    ensures Inv(Apply(s, Begin(r)))
  {
    hide TablesInv;
    forall l ensures Sum(s.calls + [FirstCall(s, r)], Closes(l)) == Sum(s.calls, Closes(l)) {
      SumAppend(s.calls, FirstCall(s, r), Closes(l));
    }
  }

  /** Any step, by any call or by an administrator, keeps the invariant. */
  lemma StepKeepsInvariant(s: State, a: Action)
    requires Inv(s)
    ensures Inv(Apply(s, a))
  {
    hide Advance, TablesInv, CallsInv, LocksInv, WinnersInv, Grows;
    match a
    case Begin(r) => BeginKeeps(s, r);
    case Step(c, today) => if IsRow(c, s.calls) { AdvanceKeeps(s, c, today); }
    case Cancel(p, h) =>
      CancelKeepsTables(s.db, s.hist, p, h);
      OutsideKeeps(s, CancelHold(s.db, p, h).1, s.hist);
    case AddCopy(b, duration) =>
      AddCopyKeepsTables(s.db, s.hist, b, duration);
      OutsideKeeps(s, Apply(s, a).db, Apply(s, a).hist);
    case _ =>
      AdminKeepsTables(s, a);
      OutsideKeeps(s, Apply(s, a).db, Apply(s, a).hist);
  }

  /** Every state of every interleaving, of any number of calls, satisfies the invariant. */
  lemma {:induction false} RunKeepsInvariant(s: State, actions: seq<Action>)
    requires Inv(s)
    ensures Inv(Run(s, actions))
  {
    hide Inv, Apply;
    if actions != [] {
      RunKeepsInvariant(s, actions[..|actions| - 1]);
      StepKeepsInvariant(Run(s, actions[..|actions| - 1]), actions[|actions| - 1]);
    }
  }
}
