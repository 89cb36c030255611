/**
 The checks of the interleaved calls: when a step refuses, and what every call that
 succeeded has seen on its way, under any interleaving.
 */
module CirculationChecks {
  import opened Dates
  import opened Library
  import opened Circulation
  import opened CirculationCalls
  import opened LibraryService
  import opened Sums
  import opened Wrappers

  predicate IsActive(db: Tables, l: int) { IsRow(l, db.loans) && db.loans[l].active }

  ghost predicate OnLoan(db: Tables, i: int) { exists l :: IsActive(db, l) && db.loans[l].item == i }

  // ---- Refusals ----

  /** Whether the step of a call at `k` ends it without an effect. */
  ghost predicate Refuses(db: Tables, k: Call, today: string) {
    match k
    case BorrowLocked(p, _) => !MayBorrow(db, p)
    case BorrowPatron(_, i) => !OnShelf(db, i)
    case BorrowCounted(p, _, _, count) => count >= LoansAllowed(db, p)
    case BorrowReady(_, i, _) => !OnShelf(db, i)
    case ReturnStart(l) => !IsActive(db, l)
    case RenewStart(l) => !IsActive(db, l)
    case RenewRead(_, row) => row.renewals >= 2 || Less(row.due, today) || row.item !in db.items
    case RenewCopy(_, _, b) => Awaited(db.holds, b)
    case RenewQueue(_, row) => row.item !in db.items
    case RenewReady(l, _, _) => !IsActive(db, l)
    case DeleteStart(i) => i !in db.items
    case DeleteRead(i) => OnLoan(db, i)
    case DeleteReady(i) => !OnShelf(db, i)
    case HoldStart(p, _, _) => p !in db.patrons
    case HoldPatron(_, b, _) => b !in db.biblios
    case HoldBook(_, b, _) => exists i :: CopyOnShelf(db, i, b)
    case HoldCopies(p, b, _) => WaitsFor(db, p, b)
    case _ => false
  }

  lemma AwaitedIff(holds: seq<Hold>, b: int)
    ensures Awaited(holds, b) <==> FirstWaiting(holds, b).Some?
  {
    hide FirstWaiting;
    FirstWaitingIsLeast(holds, b);
  }

  lemma OnLoanIff(db: Tables, i: int)
    ensures OnLoan(db, i) <==> ActiveOn(db.loans, i) > 0
  {
    SumNonNegative(db.loans, OnItem(i));
    if l :| IsActive(db, l) && db.loans[l].item == i {
      SumAtLeast(db.loans, l, OnItem(i));
    } else {
      forall r | r in db.loans ensures OnItem(i)(r) == 0 {
        var l :| IsRow(l, db.loans) && db.loans[l] == r;
        assert !(IsActive(db, l) && db.loans[l].item == i);
      }
      SumZero(db.loans, OnItem(i));
    }
  }

  lemma BorrowRefuses(s: State, c: int, today: string)
    requires IsRow(c, s.calls) && Borrowing(s.calls[c])
    ensures var t, k := AdvanceBorrow(s, c, today), s.calls[c];
            && |t.calls| == |s.calls| && (t.calls[c] == Done(Refused) <==> Refuses(s.db, k, today))
            && (t.calls[c] == Done(Refused) ==> t == Leave(s, c, k.patron, Refused))
  {
    hide ActiveLoans, AddDays;
  }

  lemma RenewRefuses(s: State, c: int, today: string)
    requires IsRow(c, s.calls) && Renewing(s.calls[c])
    ensures var t := AdvanceRenew(s, c, today);
            && |t.calls| == |s.calls| && (t.calls[c] == Done(Refused) <==> Refuses(s.db, s.calls[c], today))
            && (t.calls[c] == Done(Refused) ==> t == At(s, c, Done(Refused)))
  {
    hide FirstWaiting, AddDays, Less, Awaited;
    if s.calls[c].RenewCopy? { AwaitedIff(s.db.holds, s.calls[c].biblio); }
  }

  lemma HoldRefuses(s: State, c: int, today: string)
    requires IsRow(c, s.calls) && Holding(s.calls[c])
    ensures var t := AdvanceHold(s, c, today);
            && |t.calls| == |s.calls| && (t.calls[c] == Done(Refused) <==> Refuses(s.db, s.calls[c], today))
            && (t.calls[c] == Done(Refused) ==> t == At(s, c, Done(Refused)))
  {
    hide HasAvailable, AlreadyWaiting, NextPos, WaitsFor;
    match s.calls[c] {
      case HoldBook(_, b, _) => ShelfIff(s.db, b);
      case HoldCopies(p, b, _) => WaitsIff(s.db, p, b);
      case _ =>
    }
  }

  lemma DeleteRefuses(s: State, c: int, today: string)
    requires IsRow(c, s.calls) && Deleting(s.calls[c])
    ensures var t := AdvanceDelete(s, c);
            && |t.calls| == |s.calls| && (t.calls[c] == Done(Refused) <==> Refuses(s.db, s.calls[c], today))
            && (t.calls[c] == Done(Refused) ==> t == At(s, c, Done(Refused)))
  {
    hide ActiveOn, OnLoan;
    if s.calls[c].DeleteRead? { OnLoanIff(s.db, s.calls[c].item); }
  }

  lemma ReturnRefuses(s: State, c: int, today: string)
    requires IsRow(c, s.calls) && s.calls[c].ReturnStart?
    ensures var t := CommitReturn(s, c, s.calls[c].loan, today);
            && |t.calls| == |s.calls| && (t.calls[c] == Done(Refused) <==> Refuses(s.db, s.calls[c], today))
            && (t.calls[c] == Done(Refused) ==> t == At(s, c, Done(Refused)))
  {
    hide FineFor, WithFine, Released, Woken, WokenPatron;
  }

  /**
   In every state of every run, the step of an unfinished call is refused exactly when the rows it
   looks at say so. A refusal ends the call, gives up the lock of a borrower, and changes nothing
   else.
   */
  lemma StepRefusesIff(s: State, actions: seq<Action>, c: int, today: string)
    requires IsRow(c, Run(s, actions).calls) && !Run(s, actions).calls[c].Done?
    ensures var before, after := Run(s, actions), Run(s, actions + [Step(c, today)]);
            var k := before.calls[c];
            && IsRow(c, after.calls)
            && (after.calls[c] == Done(Refused) <==> Refuses(before.db, k, today))
            && (after.calls[c] == Done(Refused) ==>
                  && after.db == before.db && after.hist == before.hist
                  && after.calls == before.calls[c := Done(Refused)]
                  && after.locks == if Borrowing(k) then before.locks - {k.patron} else before.locks)
  {
    hide Run, Refuses, AdvanceBorrow, AdvanceRenew, AdvanceHold, AdvanceDelete, CommitReturn;
    var before := Run(s, actions);
    RunConcat(s, actions, [Step(c, today)]);
    OneAction(before, Step(c, today));
    StepIs(before, c, today);
    var k := before.calls[c];
    if Borrowing(k) {
      BorrowRefuses(before, c, today);
    } else if Renewing(k) {
      RenewRefuses(before, c, today);
    } else if Holding(k) {
      HoldRefuses(before, c, today);
    } else if Deleting(k) {
      DeleteRefuses(before, c, today);
    } else if k.ReturnStart? {
      ReturnRefuses(before, c, today);
    } else {
      NeverRefused(before.db, k, today);
    }
  }

  lemma NeverRefused(db: Tables, k: Call, today: string)
    requires k.HoldDone?
    ensures !Refuses(db, k, today)
  {
  }

  // ---- The last step of a call ----

  predicate First(k: Call) { k.BorrowStart? || k.ReturnStart? || k.RenewStart? || k.DeleteStart? || k.HoldStart? }

  predicate IsStep(a: Action, c: int) { a.Step? && a.call == c }

  /** Only its own steps move a call. */
  lemma ApplyMoves(s: State, a: Action, c: int)
    requires IsRow(c, Apply(s, a).calls)
    ensures IsRow(c, s.calls) && !IsStep(a, c) ==> Apply(s, a).calls[c] == s.calls[c]
    ensures !IsRow(c, s.calls) ==> First(Apply(s, a).calls[c])
  {
    hide CommitBorrow, CommitRenew, CommitReturn, CommitDelete, CommitHold, ActiveLoans, ActiveOn, LimitFor, Less;
    hide HasAvailable, AlreadyWaiting, FirstWaiting, NextPos, AddDays, CancelHold, AdvanceBorrow, AdvanceRenew;
    hide AdvanceHold, AdvanceDelete;
    if a.Step? && IsRow(a.call, s.calls) { AdvanceMoves(s, a.call, a.today); }
  }

  lemma AdvanceMoves(s: State, c: int, today: string)
    requires IsRow(c, s.calls)
    ensures var t := Advance(s, c, today); |t.calls| == |s.calls| && t.calls == s.calls[c := t.calls[c]]
  {
    hide Checkout, RenewCheckout, ReturnTx, DeleteItem, InsertHold, ActiveLoans, ActiveOn, LimitFor, Less;
    hide HasAvailable, AlreadyWaiting, FirstWaiting, NextPos, AddDays, LoanDays;
  }

  /** The step that brought a call begun in the run to where it is. */
  ghost predicate LastStep(s: State, actions: seq<Action>, c: int, n: nat) {
    && n < |actions| && IsStep(actions[n], c) && IsRow(c, Run(s, actions[..n]).calls)
    && IsRow(c, Run(s, actions).calls) && IsRow(c, Run(s, actions[..n + 1]).calls)
    && Run(s, actions[..n]).calls[c] != Run(s, actions).calls[c]
    && Run(s, actions[..n + 1]).calls[c] == Run(s, actions).calls[c]
    && Run(s, actions[..n + 1]) == Apply(Run(s, actions[..n]), actions[n])
  }

  lemma {:induction false} FindLastStep(s: State, actions: seq<Action>, c: int) returns (n: nat)
    requires |s.calls| <= c && IsRow(c, Run(s, actions).calls) && !First(Run(s, actions).calls[c])
    ensures LastStep(s, actions, c, n)
  {
    hide Apply;
    var m := |actions| - 1;
    assert actions[..m + 1] == actions;
    var before := Run(s, actions[..m]);
    ApplyMoves(before, actions[m], c);
    if before.calls[c] != Run(s, actions).calls[c] {
      n := m;
    } else {
      n := FindLastStep(s, actions[..m], c);
      assert actions[..m][..n] == actions[..n] && actions[..m][..n + 1] == actions[..n + 1];
    }
  }

  // ---- Where a call was before ----

  /** The step to `next`, if it is a borrow, was made at `k` and saw what it had to see. */
  ghost predicate BorrowMoved(db: Tables, k: Call, next: Call, after: Tables, today: string) {
    match next
    case BorrowPatron(p, i) => k == BorrowLocked(p, i) && MayBorrow(db, p)
    case BorrowItem(p, i, days) => k == BorrowPatron(p, i) && OnShelf(db, i) && days == LoanPeriod(db.items[i].duration)
    case BorrowCounted(p, i, days, count) => k == BorrowItem(p, i, days) && count == |OpenLoans(db.loans, p)|
    case BorrowReady(p, i, days) =>
      k.BorrowCounted? && k == BorrowCounted(p, i, days, k.count) && k.count < LoansAllowed(db, p)
    case BorrowCommitted(p, l) =>
      && k.BorrowReady? && k.patron == p && OnShelf(db, k.item) && l == |db.loans|
      && after == Lend(db, k.item, NewLoan(k.item, p, today, k.days))
    case Done(Lent(l)) => k.BorrowCommitted? && k.loan == l
    case _ => true
  }

  /** The renewal of a loan read as `row`: closed on its due date, its successor due on `due`. */
  function Succeed(db: Tables, l: int, row: Loan, due: string): Tables
    requires IsRow(l, db.loans)
  {
    var was := db.loans[l];
    db.(loans := db.loans[l := was.(checkin := Some(row.due), active := false)]
          + [Loan(was.item, was.patron, row.due, due, None, row.renewals + 1, true)])
  }

  ghost predicate RenewMoved(db: Tables, k: Call, next: Call, after: Tables, today: string) {
    match next
    case RenewRead(l, row) => k == RenewStart(l) && IsActive(db, l) && row == db.loans[l]
    case RenewCopy(l, row, b) =>
      && k == RenewRead(l, row) && row.renewals < 2 && !Less(row.due, today)
      && row.item in db.items && b == db.items[row.item].biblio
    case RenewQueue(l, row) => k.RenewCopy? && k == RenewCopy(l, row, k.biblio) && !Awaited(db.holds, k.biblio)
    case RenewReady(l, row, days) =>
      k == RenewQueue(l, row) && row.item in db.items && days == LoanPeriod(db.items[row.item].duration)
    case RenewCommitted(l, n) =>
      && k.RenewReady? && k.loan == l && IsActive(db, l) && n == |db.loans|
      && after == Succeed(db, l, k.row, AddDays(k.row.due, k.days))
    case Done(Renewed(l, n)) => k == RenewCommitted(l, n)
    case _ => true
  }

  ghost predicate HoldMoved(db: Tables, k: Call, next: Call, after: Tables, today: string) {
    match next
    case HoldPatron(p, b, seen) => k == HoldStart(p, b, seen) && p in db.patrons
    case HoldBook(p, b, seen) => k == HoldPatron(p, b, seen) && b in db.biblios
    case HoldCopies(p, b, seen) => k == HoldBook(p, b, seen) && forall i :: !CopyOnShelf(db, i, b)
    case HoldReady(p, b, seen) => k == HoldCopies(p, b, seen) && !WaitsFor(db, p, b)
    case HoldNumbered(p, b, pos, seen) => k == HoldReady(p, b, seen) && LastInLine(db.holds, b, pos)
    case HoldDone(h, seen) =>
      && k.HoldNumbered? && k.seen == seen && h == |db.holds|
      && after == db.(holds := db.holds + [Hold(k.biblio, k.patron, None, k.pos, Waiting, today)])
    case _ => true
  }

  lemma BorrowMoves(s: State, c: int, today: string)
    requires IsRow(c, s.calls) && Borrowing(s.calls[c])
    ensures var t := AdvanceBorrow(s, c, today);
            && |t.calls| == |s.calls| && (Borrowing(t.calls[c]) || (t.calls[c].Done? && !t.calls[c].outcome.Renewed?))
            && (t.calls[c] != s.calls[c] ==> BorrowMoved(s.db, s.calls[c], t.calls[c], t.db, today))
  {
    hide ActiveLoans, OpenLoans, AddDays, HasRoom;
    if s.calls[c].BorrowItem? { ActiveLoansAreOpen(s.db.loans, s.calls[c].patron); }
  }

  lemma RenewMoves(s: State, c: int, today: string)
    requires IsRow(c, s.calls) && Renewing(s.calls[c])
    ensures var t := AdvanceRenew(s, c, today);
            && |t.calls| == |s.calls| && (Renewing(t.calls[c]) || (t.calls[c].Done? && !t.calls[c].outcome.Lent?))
            && (t.calls[c] != s.calls[c] ==> RenewMoved(s.db, s.calls[c], t.calls[c], t.db, today))
  {
    hide FirstWaiting, Awaited, AddDays, Less;
    if s.calls[c].RenewCopy? { AwaitedIff(s.db.holds, s.calls[c].biblio); }
  }

  lemma HoldMoves(s: State, c: int, today: string)
    requires IsRow(c, s.calls) && Holding(s.calls[c])
    ensures var t := AdvanceHold(s, c, today);
            && |t.calls| == |s.calls|
            && (Holding(t.calls[c]) || t.calls[c].HoldDone? || t.calls[c] == Done(Refused))
            && (t.calls[c] != s.calls[c] ==> HoldMoved(s.db, s.calls[c], t.calls[c], t.db, today))
  {
    hide HasAvailable, AlreadyWaiting, WaitsFor, CopyOnShelf, NextPos, LastInLine;
    match s.calls[c] {
      case HoldBook(_, b, _) => ShelfIff(s.db, b);
      case HoldCopies(p, b, _) => WaitsIff(s.db, p, b);
      case HoldReady(_, b, _) => NextPosIsLastInLine(s.db.holds, b);
      case _ =>
    }
  }

  lemma OtherMoves(s: State, c: int, today: string)
    requires IsRow(c, s.calls)
    ensures var t := AdvanceDelete(s, c);
            Deleting(s.calls[c]) ==>
              && |t.calls| == |s.calls|
              && (t.calls[c].Done? ==> !t.calls[c].outcome.Lent? && !t.calls[c].outcome.Renewed?)
              && (Deleting(t.calls[c]) || t.calls[c].Done?)
    ensures s.calls[c].ReturnStart? ==>
              var t := CommitReturn(s, c, s.calls[c].loan, today);
              && |t.calls| == |s.calls|
              && t.calls[c].Done? && !t.calls[c].outcome.Lent? && !t.calls[c].outcome.Renewed?
  {
    hide ActiveOn, ReturnTx, DeleteItem;
  }

  // No call takes a step of another kind of call.

  lemma NoBorrowStep(db: Tables, k: Call, next: Call, after: Tables, today: string)
    requires !Borrowing(next) && !(next.Done? && next.outcome.Lent?)
    ensures BorrowMoved(db, k, next, after, today)
  {
  }

  lemma NoRenewStep(db: Tables, k: Call, next: Call, after: Tables, today: string)
    requires !Renewing(next) && !(next.Done? && next.outcome.Renewed?)
    ensures RenewMoved(db, k, next, after, today)
  {
  }

  lemma NoHoldStep(db: Tables, k: Call, next: Call, after: Tables, today: string)
    requires !Holding(next) && !next.HoldDone?
    ensures HoldMoved(db, k, next, after, today)
  {
  }

  lemma CameFrom(s: State, c: int, today: string)
    requires IsRow(c, s.calls) && IsRow(c, Apply(s, Step(c, today)).calls)
    requires Apply(s, Step(c, today)).calls[c] != s.calls[c]
    ensures var t := Apply(s, Step(c, today));
            && BorrowMoved(s.db, s.calls[c], t.calls[c], t.db, today)
            && RenewMoved(s.db, s.calls[c], t.calls[c], t.db, today)
            && HoldMoved(s.db, s.calls[c], t.calls[c], t.db, today)
  {
    hide BorrowMoved, RenewMoved, HoldMoved, Apply, AdvanceBorrow, AdvanceRenew, AdvanceHold, AdvanceDelete;
    hide CommitReturn;
    StepIs(s, c, today);
    var t := Apply(s, Step(c, today));
    var k := s.calls[c];
    if Borrowing(k) {
      BorrowMoves(s, c, today);
    } else {
      if Renewing(k) {
        RenewMoves(s, c, today);
      } else if Holding(k) {
        HoldMoves(s, c, today);
      } else {
        OtherMoves(s, c, today);
      }
      NoBorrowStep(s.db, k, t.calls[c], t.db, today);
    }
    if !Renewing(k) { NoRenewStep(s.db, k, t.calls[c], t.db, today); }
    if !Holding(k) { NoHoldStep(s.db, k, t.calls[c], t.db, today); }
  }

  /** At action `n` the call came to where it is before action `m`. */
  ghost predicate CameAt(s: State, actions: seq<Action>, c: int, n: nat, m: nat) {
    && n < m <= |actions| && IsStep(actions[n], c)
    && IsRow(c, Run(s, actions[..n]).calls) && IsRow(c, Run(s, actions[..m]).calls)
    && var before, after := Run(s, actions[..n]), Run(s, actions[..n + 1]);
       var k, next := before.calls[c], Run(s, actions[..m]).calls[c];
       && BorrowMoved(before.db, k, next, after.db, actions[n].today)
       && RenewMoved(before.db, k, next, after.db, actions[n].today)
       && HoldMoved(before.db, k, next, after.db, actions[n].today)
  }

  lemma Back(s: State, actions: seq<Action>, c: int, m: nat) returns (n: nat)
    requires m <= |actions| && |s.calls| <= c && IsRow(c, Run(s, actions[..m]).calls)
    requires !First(Run(s, actions[..m]).calls[c])
    ensures CameAt(s, actions, c, n, m)
  {
    hide Run, Apply, First, BorrowMoved, RenewMoved, HoldMoved;
    n := FindLastStep(s, actions[..m], c);
    assert actions[..m][..n] == actions[..n] && actions[..m][..n + 1] == actions[..n + 1];
    var before := Run(s, actions[..n]);
    assert actions[n] == Step(c, actions[n].today);
    CameFrom(before, c, actions[n].today);
  }

  // ---- What a call that succeeded has seen ----

  /**
   In every run, every borrow that succeeded has seen, in this order: its patron, existing and not
   disabled; the copy, available; fewer open loans of the patron than ten for a VIP and five
   otherwise, counted in one step and compared in the next; and in the step that made its loan the
   copy was still available.
   */
  lemma LentCallsPassedTheChecks(s: State, actions: seq<Action>, c: int, l: int)
    returns (p: int, i: int, days: int, look: nat, shelf: nat, count: nat, room: nat, commit: nat)
    requires |s.calls| <= c && IsRow(c, Run(s, actions).calls) && Run(s, actions).calls[c] == Done(Lent(l))
    ensures look < shelf < count < room < commit < |actions| && actions[commit].Step?
    ensures MayBorrow(Run(s, actions[..look]).db, p)
    ensures var db := Run(s, actions[..shelf]).db; OnShelf(db, i) && days == LoanPeriod(db.items[i].duration)
    ensures |OpenLoans(Run(s, actions[..count]).db.loans, p)| < LoansAllowed(Run(s, actions[..room]).db, p)
    ensures var before, after := Run(s, actions[..commit]).db, Run(s, actions[..commit + 1]).db;
            && OnShelf(before, i) && l == |before.loans|
            && after == Lend(before, i, NewLoan(i, p, actions[commit].today, days))
  {
    hide Run, OpenLoans, MayBorrow, OnShelf, LoansAllowed, LoanPeriod, Lend, NewLoan, RenewMoved, HoldMoved;
    assert actions[..|actions|] == actions;
    var done := Back(s, actions, c, |actions|);
    commit := Back(s, actions, c, done);
    var k := Run(s, actions[..commit]).calls[c];
    p, i, days := k.patron, k.item, k.days;
    room := Back(s, actions, c, commit);
    count := Back(s, actions, c, room);
    shelf := Back(s, actions, c, count);
    look := Back(s, actions, c, shelf);
  }

  lemma RenewalWasChecked(s: State, actions: seq<Action>, c: int, m: nat) returns (read: nat, check: nat)
    requires m <= |actions| && |s.calls| <= c && IsRow(c, Run(s, actions[..m]).calls)
    requires Run(s, actions[..m]).calls[c].RenewCopy?
    ensures read < check < m && actions[check].Step?
    ensures var k, db := Run(s, actions[..m]).calls[c], Run(s, actions[..read]).db;
            IsActive(db, k.loan) && k.row == db.loans[k.loan]
    ensures var k, db := Run(s, actions[..m]).calls[c], Run(s, actions[..check]).db;
            && k.row.renewals < 2 && !Less(k.row.due, actions[check].today)
            && k.row.item in db.items && k.biblio == db.items[k.row.item].biblio
  {
    hide Run, IsActive, Less, BorrowMoved, HoldMoved;
    check := Back(s, actions, c, m);
    read := Back(s, actions, c, check);
  }

  /**
   In every run, every renewal that succeeded has seen, in this order: its loan, active; fewer than
   two renewals, a due date not past, and the copy; nobody waiting for the copy's book; the copy's
   period; and in the step that closed the loan and opened its successor the loan was still active.
   */
  lemma RenewedCallsPassedTheChecks(s: State, actions: seq<Action>, c: int, l: int, n: int)
    returns (row: Loan, days: int, read: nat, check: nat, queue: nat, copy: nat, commit: nat)
    requires |s.calls| <= c && IsRow(c, Run(s, actions).calls) && Run(s, actions).calls[c] == Done(Renewed(l, n))
    ensures read < check < queue < copy < commit < |actions| && actions[check].Step?
    ensures var db := Run(s, actions[..read]).db; IsActive(db, l) && row == db.loans[l]
    ensures var db := Run(s, actions[..check]).db;
            && row.renewals < 2 && !Less(row.due, actions[check].today) && row.item in db.items
            && !Awaited(Run(s, actions[..queue]).db.holds, db.items[row.item].biblio)
    ensures var db := Run(s, actions[..copy]).db;
            row.item in db.items && days == LoanPeriod(db.items[row.item].duration)
    ensures var before, after := Run(s, actions[..commit]).db, Run(s, actions[..commit + 1]).db;
            && IsActive(before, l) && n == |before.loans|
            && after == Succeed(before, l, row, AddDays(row.due, days))
  {
    hide Run, IsActive, Awaited, LoanPeriod, Less, AddDays, BorrowMoved, HoldMoved;
    assert actions[..|actions|] == actions;
    var done := Back(s, actions, c, |actions|);
    commit := Back(s, actions, c, done);
    var k := Run(s, actions[..commit]).calls[c];
    row, days := k.row, k.days;
    copy := Back(s, actions, c, commit);
    queue := Back(s, actions, c, copy);
    read, check := RenewalWasChecked(s, actions, c, queue);
  }

  lemma HoldWasChecked(s: State, actions: seq<Action>, c: int, m: nat) returns (look: nat, book: nat, shelf: nat)
    requires m <= |actions| && |s.calls| <= c && IsRow(c, Run(s, actions[..m]).calls)
    requires Run(s, actions[..m]).calls[c].HoldCopies?
    ensures look < book < shelf < m
    ensures var k := Run(s, actions[..m]).calls[c];
            && k.patron in Run(s, actions[..look]).db.patrons && k.biblio in Run(s, actions[..book]).db.biblios
            && forall i :: !CopyOnShelf(Run(s, actions[..shelf]).db, i, k.biblio)
  {
    hide Run, CopyOnShelf, BorrowMoved, RenewMoved;
    shelf := Back(s, actions, c, m);
    book := Back(s, actions, c, shelf);
    look := Back(s, actions, c, book);
  }

  /**
   In every run, every hold call that succeeded has seen, in this order: its patron, the book, no
   available copy, no hold of the patron's own waiting for the book, and the next place in line;
   and then it added the row.
   */
  lemma HoldCallsPassedTheChecks(s: State, actions: seq<Action>, c: int, h: int, seen: int)
    returns (p: int, b: int, pos: int, look: nat, book: nat, shelf: nat, mine: nat, line: nat, commit: nat)
    requires |s.calls| <= c && IsRow(c, Run(s, actions).calls) && Run(s, actions).calls[c] == HoldDone(h, seen)
    ensures look < book < shelf < mine < line < commit < |actions| && actions[commit].Step?
    ensures p in Run(s, actions[..look]).db.patrons && b in Run(s, actions[..book]).db.biblios
    ensures forall i :: !CopyOnShelf(Run(s, actions[..shelf]).db, i, b)
    ensures !WaitsFor(Run(s, actions[..mine]).db, p, b)
    ensures LastInLine(Run(s, actions[..line]).db.holds, b, pos)
    ensures var before, after := Run(s, actions[..commit]).db, Run(s, actions[..commit + 1]).db;
            && h == |before.holds|
            && after == before.(holds := before.holds + [Hold(b, p, None, pos, Waiting, actions[commit].today)])
  {
    hide Run, CopyOnShelf, WaitsFor, LastInLine, BorrowMoved, RenewMoved;
    assert actions[..|actions|] == actions;
    commit := Back(s, actions, c, |actions|);
    var k := Run(s, actions[..commit]).calls[c];
    p, b, pos := k.patron, k.biblio, k.pos;
    line := Back(s, actions, c, commit);
    mine := Back(s, actions, c, line);
    look, book, shelf := HoldWasChecked(s, actions, c, mine);
  }
}
