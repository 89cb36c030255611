/** Facts about two states of one run: who closed a loan, and the order of holds. */
module CirculationHistory {
  import opened Dates
  import opened Sums
  import opened Library
  import opened Circulation
  import opened CirculationInvariant
  import opened CirculationSafety
  import opened CirculationTheorems
  import opened Wrappers

  /** Loan rows are only added; a closed row never changes again; no row becomes closed-before-the-start. */
  ghost predicate Later(a: State, b: State) {
    && |a.db.loans| <= |b.db.loans| && |a.hist.origin| <= |b.hist.origin|
    && (forall l :: IsRow(l, a.db.loans) && !a.db.loans[l].active ==> b.db.loans[l] == a.db.loans[l])
    && (forall l :: IsRow(l, a.hist.origin) ==> (b.hist.origin[l].how == Before <==> a.hist.origin[l].how == Before))
    && (forall l :: |a.hist.origin| <= l < |b.hist.origin| ==> b.hist.origin[l].how != Before)
  }

  lemma LaterSame(a: State, b: State)
    requires a.db.loans == b.db.loans && a.hist.origin == b.hist.origin
    ensures Later(a, b)
  {
  }

  lemma LaterTransitive(a: State, b: State, c: State)
    requires Later(a, b) && Later(b, c)
    ensures Later(a, c)
  {
  }

  lemma ReturnIsLater(s: State, c: int, l: int, today: string)
    requires Inv(s) && IsRow(c, s.calls)
    ensures Later(s, CommitReturn(s, c, l, today))
  {
    hide ItemsInv, DaysInv, FinesInv, HoldsInv, LimitInv, CallsInv, LocksInv, WinnersInv, FineFor, Woken, Released;
    hide WokenPatron, Follows;
    if IsRow(l, s.db.loans) { assert LoanInv(s.db, s.hist, l); }
  }

  lemma RenewIsLater(s: State, c: int, l: int, oldDue: string, newDue: string, renewals: int)
    requires Inv(s) && IsRow(c, s.calls)
    ensures Later(s, CommitRenew(s, c, l, oldDue, newDue, renewals))
  {
    hide ItemsInv, DaysInv, FinesInv, HoldsInv, LimitInv, CallsInv, LocksInv, WinnersInv, Follows;
    if IsRow(l, s.db.loans) { assert LoanInv(s.db, s.hist, l); }
  }

  lemma RenewStepIsLater(s: State, c: int, today: string)
    requires Inv(s) && IsRow(c, s.calls)
    ensures Later(s, AdvanceRenew(s, c, today))
  {
    hide Inv, Later, CommitRenew, AddDays, Less, FirstWaiting;
    match s.calls[c]
    case RenewReady(l, row, days) => RenewIsLater(s, c, l, row.due, AddDays(row.due, days), row.renewals + 1);
    case _ => LaterSame(s, AdvanceRenew(s, c, today));
  }

  lemma BorrowIsLater(s: State, c: int, today: string)
    requires IsRow(c, s.calls)
    ensures Later(s, AdvanceBorrow(s, c, today))
  {
    hide AddDays, ActiveLoans, LimitFor;
  }

  lemma HoldIsLater(s: State, c: int, today: string)
    requires IsRow(c, s.calls)
    ensures Later(s, AdvanceHold(s, c, today))
  {
    hide Later, HasAvailable, AlreadyWaiting, NextPos;
    LaterSame(s, AdvanceHold(s, c, today));
  }

  lemma StepIsLater(s: State, a: Action)
    requires Inv(s)
    ensures Later(s, Apply(s, a))
  {
    hide Inv, Later, AdvanceRenew, AdvanceBorrow, AdvanceHold, CommitReturn, ActiveOn;
    match a
    case Step(c, today) =>
      if IsRow(c, s.calls) {
        RenewStepIsLater(s, c, today);
        BorrowIsLater(s, c, today);
        HoldIsLater(s, c, today);
        if s.calls[c].ReturnStart? {
          ReturnIsLater(s, c, s.calls[c].loan, today);
        } else if Deleting(s.calls[c]) {
          LaterSame(s, AdvanceDelete(s, c));
        }
      }
      LaterSame(s, s);
    case _ => LaterSame(s, Apply(s, a));
  }

  /** Every later state of a run: loan rows are only added, and a closed loan is never touched again. */
  lemma {:induction false} RunIsLater(s: State, actions: seq<Action>)
    requires Inv(s)
    ensures Later(s, Run(s, actions))
  {
    hide Inv, Later, Apply;
    if actions == [] {
      LaterSame(s, s);
    } else {
      var n := |actions| - 1;
      RunIsLater(s, actions[..n]);
      RunKeepsInvariant(s, actions[..n]);
      StepIsLater(Run(s, actions[..n]), actions[n]);
      LaterTransitive(s, Run(s, actions[..n]), Run(s, actions));
    }
  }

  lemma StartHasNoClosing(s: State, l: int)
    requires Start(s) && IsRow(l, s.db.loans)
    ensures IsRow(l, s.hist.origin) && (s.hist.origin[l].how == Before <==> !s.db.loans[l].active)
  {
    hide ItemsInv, DaysInv, FinesInv, HoldsInv, LimitInv, CallsInv, LocksInv, Follows;
    assert LoanInv(s.db, s.hist, l);
    assert Sum(s.calls, Closes(l)) == 0;
  }

  lemma ClosedIffNotOpen(s: State, l: int)
    requires Inv(s) && IsRow(l, s.db.loans)
    ensures IsRow(l, s.hist.origin) && |s.hist.origin| == |s.db.loans|
    ensures Sum(s.calls, Closes(l)) == if !s.db.loans[l].active && s.hist.origin[l].how != Before then 1 else 0
  {
    hide ItemsInv, DaysInv, FinesInv, HoldsInv, LimitInv, CallsInv, LocksInv, Follows;
    assert LoanInv(s.db, s.hist, l);
  }

  /**
   However many calls try to return or renew a loan at once: once the loan is closed
   exactly one of them has succeeded, and while it is active none has.
   */
  lemma OneCloserPerLoan(s: State, actions: seq<Action>, l: int)
    requires Start(s) && IsRow(l, Run(s, actions).db.loans)
    ensures var t := Run(s, actions);
            Sum(t.calls, Closes(l)) == if t.db.loans[l].active || (IsRow(l, s.db.loans) && !s.db.loans[l].active) then 0
              else 1
  {
    hide Run, Inv, Closes;
    RunKeepsInvariant(s, actions);
    RunIsLater(s, actions);
    ClosedIffNotOpen(Run(s, actions), l);
    if IsRow(l, s.db.loans) { StartHasNoClosing(s, l); } else { OriginsMatch(s); }
  }

  lemma OriginsMatch(s: State)
    requires Inv(s)
    ensures |s.hist.origin| == |s.db.loans|
  {
  }

  // ---- First come, first served ----

  function SeenBy(k: Call): Option<int> {
    match k
    case HoldStart(_, _, seen) => Some(seen)
    case HoldPatron(_, _, seen) => Some(seen)
    case HoldBook(_, _, seen) => Some(seen)
    case HoldCopies(_, _, seen) => Some(seen)
    case HoldReady(_, _, seen) => Some(seen)
    case HoldNumbered(_, _, _, seen) => Some(seen)
    case HoldDone(_, seen) => Some(seen)
    case _ => None
  }

  /** `k` becomes `k'` without changing what it has seen, if it still remembers. */
  predicate StillSeen(k: Call, k': Call) { SeenBy(k').Some? ==> SeenBy(k') == SeenBy(k) }

  lemma BorrowKeepsSeen(s: State, d: int, today: string, c: int)
    requires IsRow(d, s.calls) && IsRow(c, s.calls) && Borrowing(s.calls[d])
    ensures IsRow(c, AdvanceBorrow(s, d, today).calls) && StillSeen(s.calls[c], AdvanceBorrow(s, d, today).calls[c])
  {
    hide AddDays, ActiveLoans, Checkout, LimitFor;
  }

  lemma RenewKeepsSeen(s: State, d: int, today: string, c: int)
    requires IsRow(d, s.calls) && IsRow(c, s.calls) && Renewing(s.calls[d])
    ensures IsRow(c, AdvanceRenew(s, d, today).calls) && StillSeen(s.calls[c], AdvanceRenew(s, d, today).calls[c])
  {
    hide Less, AddDays, FirstWaiting, RenewCheckout, Close;
  }

  lemma HoldKeepsSeen(s: State, d: int, today: string, c: int)
    requires IsRow(d, s.calls) && IsRow(c, s.calls) && Holding(s.calls[d])
    ensures IsRow(c, AdvanceHold(s, d, today).calls) && StillSeen(s.calls[c], AdvanceHold(s, d, today).calls[c])
  {
    hide HasAvailable, AlreadyWaiting, NextPos, InsertHold;
  }

  lemma AdvanceKeepsSeen(s: State, d: int, today: string, c: int)
    requires IsRow(d, s.calls) && IsRow(c, s.calls)
    ensures IsRow(c, Advance(s, d, today).calls) && StillSeen(s.calls[c], Advance(s, d, today).calls[c])
  {
    var k := s.calls[d];
    if Borrowing(k) {
      BorrowKeepsSeen(s, d, today, c);
    } else if Renewing(k) {
      RenewKeepsSeen(s, d, today, c);
    } else if Holding(k) {
      HoldKeepsSeen(s, d, today, c);
    }
    hide AdvanceBorrow, AdvanceRenew, AdvanceHold, ReturnTx, DeleteItem, Close, ActiveOn;
  }

  lemma {:induction false} RunKeepsSeen(s: State, actions: seq<Action>, c: int)
    requires IsRow(c, s.calls)
    ensures IsRow(c, Run(s, actions).calls)
    ensures SeenBy(Run(s, actions).calls[c]).Some? ==> SeenBy(Run(s, actions).calls[c]) == SeenBy(s.calls[c])
  {
    hide Advance, SeenBy;
    if actions != [] {
      var n := |actions| - 1;
      RunKeepsSeen(s, actions[..n], c);
      var a, t := actions[n], Run(s, actions[..n]);
      if a.Step? && IsRow(a.call, t.calls) { AdvanceKeepsSeen(t, a.call, a.today, c); }
    }
  }

  lemma HoldOrder(s: State, a: int, b: int, seen: int)
    requires Inv(s) && HoldDone(b, seen) in s.calls && 0 <= a < seen && IsRow(a, s.db.holds)
    ensures IsRow(b, s.db.holds)
    ensures s.db.holds[a].biblio == s.db.holds[b].biblio ==>
              s.db.holds[a].pos < s.db.holds[b].pos
                && !(s.db.holds[b].status == Fulfilled && s.db.holds[a].status == Waiting)
  {
    hide ItemsInv, DaysInv, LoansInv, FinesInv, LimitInv, LocksInv, WinnersInv;
    var c :| IsRow(c, s.calls) && s.calls[c] == HoldDone(b, seen);
    assert CallInv(s.db, s.hist, s.calls[c]);
  }

  /**
   Real-time order of holds. `before` is any run; then patron `p` asks for a hold; `after` is
   any continuation in which that call completes with hold `b`. Every hold `a` on the same
   book that existed when the call began has the smaller position, and at no time is `b`
   fulfilled while `a` still waits.
   */
  lemma HoldsAreFirstComeFirstServed(s: State, before: seq<Action>, p: int, biblio: int, after: seq<Action>, a: int,
      b: int, seen: int)
    requires Inv(s)
    requires var t := Run(s, before);
             var u := Run(Apply(t, Begin(PlaceHold(p, biblio))), after);
             && IsRow(a, t.db.holds) && IsRow(|t.calls|, u.calls) && u.calls[|t.calls|] == HoldDone(b, seen)
    ensures var t := Run(s, before);
            var u := Run(Apply(t, Begin(PlaceHold(p, biblio))), after);
            && IsRow(a, u.db.holds) && IsRow(b, u.db.holds)
            && (u.db.holds[a].biblio == u.db.holds[b].biblio ==>
                 u.db.holds[a].pos < u.db.holds[b].pos
                   && !(u.db.holds[b].status == Fulfilled && u.db.holds[a].status == Waiting))
  {
    hide Run, Inv;
    var t := Run(s, before);
    var t' := Apply(t, Begin(PlaceHold(p, biblio)));
    var u := Run(t', after);
    RunKeepsInvariant(s, before);
    StepKeepsInvariant(t, Begin(PlaceHold(p, biblio)));
    RunKeepsInvariant(t', after);
    RunKeepsSeen(t', after, |t.calls|);
    assert seen == |t.db.holds|;
    SeenHoldsExist(u, |t.calls|, b, seen);
    HoldOrder(u, a, b, seen);
  }

  lemma SeenHoldsExist(s: State, c: int, b: int, seen: int)
    requires Inv(s) && IsRow(c, s.calls) && s.calls[c] == HoldDone(b, seen)
    ensures seen <= |s.db.holds|
  {
    hide ItemsInv, DaysInv, LoansInv, FinesInv, LimitInv, LocksInv, WinnersInv;
    assert CallInv(s.db, s.hist, s.calls[c]);
  }
}
