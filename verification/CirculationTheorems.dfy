/** What the circulation invariant means to a librarian, for every run. */
module CirculationTheorems {
  import opened Dates
  import opened Sums
  import opened Library
  import opened Circulation
  import opened CirculationInvariant
  import opened CirculationTables
  import opened CirculationSafety

  /** A start state: consistent tables, no call in flight. */
  ghost predicate Start(s: State) { Inv(s) && s.calls == [] }

  /** The history of a library that has lent nothing yet. */
  function FreshHistory(db: Tables): History {
    History(set p | p in db.patrons && db.patrons[p].vip,
            map i | i in db.items :: db.items[i].duration,
            [], seq(|db.holds|, _ => 0), |db.fines|)
  }

  /** Any patrons, books, available copies, holds and old fines make a start state. */
  lemma FreshLibraryStarts(db: Tables)
    requires db.loans == [] && forall i :: i in db.items ==> i < db.nextItem && db.items[i].status == Available
    ensures Start(State(db, map[], [], FreshHistory(db)))
  {
    var h := FreshHistory(db);
    assert forall i :: ActiveOn(db.loans, i) == 0;
    assert forall p :: ActiveLoans(db.loans, p) == 0;
    assert FinesInv(db, h) && HoldsInv(db, h) && LoansInv(db, h);
  }

  // ---- Copies and loans ----

  function IsActive(): Loan -> int { (l: Loan) => if l.active then 1 else 0 }

  function AllActive(loans: seq<Loan>): int { Sum(loans, IsActive()) }

  function ItemsOnLoan(loans: seq<Loan>): set<int> { set l | l in loans && l.active :: l.item }

  datatype Stats = Stats(copies: int, available: int, borrowed: int)

  /** The copy counts of `LibraryStats`. */
  function LibraryStats(db: Tables): Stats {
    Stats(|db.items|,
          |set i | i in db.items && db.items[i].status == Available|,
          |set i | i in db.items && db.items[i].status == Borrowed|)
  }

  lemma {:induction false} OnLoanHasLoan(loans: seq<Loan>, i: int)
    ensures ActiveOn(loans, i) >= 0
    ensures i in ItemsOnLoan(loans) <==> ActiveOn(loans, i) >= 1
  {
    if loans != [] {
      var n := |loans| - 1;
      OnLoanHasLoan(loans[..n], i);
      assert loans == loans[..n] + [loans[n]];
      assert ItemsOnLoan(loans) == ItemsOnLoan(loans[..n]) + (if loans[n].active then {loans[n].item} else {});
    }
  }

  lemma OnLoanGrows(front: seq<Loan>, last: Loan)
    ensures forall i ::
        ActiveOn(front + [last], i) == ActiveOn(front, i) + (if last.active && last.item == i then 1 else 0)
    ensures AllActive(front + [last]) == AllActive(front) + (if last.active then 1 else 0)
    ensures ItemsOnLoan(front + [last]) == ItemsOnLoan(front) + (if last.active then {last.item} else {})
  {
    forall i
      ensures ActiveOn(front + [last], i) == ActiveOn(front, i) + (if last.active && last.item == i then 1 else 0)
    {
      SumAppend(front, last, OnItem(i));
    }
    SumAppend(front, last, IsActive());
  }

  lemma {:induction false} OnLoanCount(loans: seq<Loan>)
    requires forall i :: ActiveOn(loans, i) <= 1
    ensures |ItemsOnLoan(loans)| == AllActive(loans)
  {
    if loans != [] {
      hide ActiveOn, AllActive, ItemsOnLoan;
      var front, last := loans[..|loans| - 1], loans[|loans| - 1];
      assert loans == front + [last];
      OnLoanGrows(front, last);
      OnLoanCount(front);
      OnLoanHasLoan(front, last.item);
    }
  }

  lemma StatsBalance(db: Tables)
    requires ItemsInv(db)
    ensures var st := LibraryStats(db); st.copies == st.available + st.borrowed && st.borrowed == AllActive(db.loans)
  {
    var lent := set i | i in db.items && db.items[i].status == Borrowed;
    var here := set i | i in db.items && db.items[i].status == Available;
    assert db.items.Keys == here + lent by {
      forall i ensures i in db.items.Keys <==> i in here + lent { }
    }
    assert here !! lent;
    forall i ensures i in lent <==> i in ItemsOnLoan(db.loans) {
      OnLoanHasLoan(db.loans, i);
    }
    assert lent == ItemsOnLoan(db.loans);
    OnLoanCount(db.loans);
  }

  /**
   In every state of every interleaving: a copy is Borrowed exactly when it has one
   active loan and Available exactly when it has none, no active loan points at a
   missing copy, and the library's counts add up.
   */
  lemma CopiesMatchLoans(s: State, actions: seq<Action>)
    requires Inv(s)
    ensures var db := Run(s, actions).db;
            && (forall i :: i in db.items ==>
                 (db.items[i].status == Borrowed <==> ActiveOn(db.loans, i) == 1) &&
                 (db.items[i].status == Available <==> ActiveOn(db.loans, i) == 0))
            && (forall l :: IsRow(l, db.loans) && db.loans[l].active ==> db.loans[l].item in db.items)
            && var st := LibraryStats(db); st.copies == st.available + st.borrowed && st.borrowed == AllActive(db.loans)
  {
    hide Run, DaysInv, LoansInv, FinesInv, HoldsInv, LimitInv, CallsInv, LocksInv, WinnersInv, LibraryStats;
    RunKeepsInvariant(s, actions);
    var db := Run(s, actions).db;
    StatsBalance(db);
    forall l | IsRow(l, db.loans) && db.loans[l].active ensures db.loans[l].item in db.items {
      SumAtLeastOne(db.loans, l);
    }
  }

  // ---- Borrowing limits ----

  /** Some action makes the patron VIP. */
  predicate MadeVip(actions: seq<Action>, p: int) {
    exists a :: a in actions && a.SetPatron? && a.patron == p && a.row.vip
  }

  lemma StepVip(s: State, a: Action, p: int)
    ensures p in Apply(s, a).hist.everVip ==> p in s.hist.everVip || (a.SetPatron? && a.patron == p && a.row.vip)
  {
    hide Less, AddDays, FirstWaiting, ReturnTx, Checkout, RenewCheckout, DeleteItem, HasAvailable, AlreadyWaiting;
    hide NextPos, LimitFor, InsertHold;
  }

  lemma {:induction false} RunVip(s: State, actions: seq<Action>, p: int)
    requires p !in s.hist.everVip && !MadeVip(actions, p)
    ensures p !in Run(s, actions).hist.everVip
  {
    hide Apply;
    if actions != [] {
      var n := |actions| - 1;
      assert actions[n] in actions;
      assert forall a :: a in actions[..n] ==> a in actions;
      RunVip(s, actions[..n], p);
      StepVip(Run(s, actions[..n]), actions[n], p);
    }
  }

  /**
   No patron ever has more than ten active loans, nor more than five if never VIP,
   although the limit check and the checkout are separate steps of concurrent calls.
   */
  lemma BorrowLimit(s: State, actions: seq<Action>, p: int)
    requires Inv(s)
    ensures ActiveLoans(Run(s, actions).db.loans, p) <= 10
    ensures p !in s.hist.everVip && !MadeVip(actions, p)
        ==> ActiveLoans(Run(s, actions).db.loans, p) <= 5
  {
    hide Run, ItemsInv, DaysInv, LoansInv, FinesInv, HoldsInv, CallsInv, LocksInv, WinnersInv, MadeVip;
    RunKeepsInvariant(s, actions);
    if p !in s.hist.everVip && !MadeVip(actions, p) { RunVip(s, actions, p); }
  }
}
