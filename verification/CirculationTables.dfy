/** Each transaction keeps the invariants of the tables. */
module CirculationTables {
  import opened Dates
  import opened Sums
  import opened Library
  import opened Circulation
  import opened CirculationInvariant
  import opened Wrappers

  // ---- Counting active loans across a change of rows ----

  lemma CountOpened(loans: seq<Loan>, row: Loan)
    requires row.active
    ensures forall i :: ActiveOn(loans + [row], i) == ActiveOn(loans, i) + (if i == row.item then 1 else 0)
    ensures forall p :: ActiveLoans(loans + [row], p) == ActiveLoans(loans, p) + (if p == row.patron then 1 else 0)
  {
    forall i ensures ActiveOn(loans + [row], i) == ActiveOn(loans, i) + (if i == row.item then 1 else 0) {
      SumAppend(loans, row, OnItem(i));
    }
    forall p ensures ActiveLoans(loans + [row], p) == ActiveLoans(loans, p) + (if p == row.patron then 1 else 0) {
      SumAppend(loans, row, OfPatron(p));
    }
  }

  lemma CountClosed(loans: seq<Loan>, l: int, row: Loan)
    requires IsRow(l, loans) && loans[l].active && !row.active
    ensures forall i :: ActiveOn(loans[l := row], i) == ActiveOn(loans, i) - (if i == loans[l].item then 1 else 0)
    ensures forall p ::
        ActiveLoans(loans[l := row], p) == ActiveLoans(loans, p) - (if p == loans[l].patron then 1 else 0)
  {
    forall i ensures ActiveOn(loans[l := row], i) == ActiveOn(loans, i) - (if i == loans[l].item then 1 else 0) {
      SumUpdate(loans, l, row, OnItem(i));
    }
    forall p
      ensures ActiveLoans(loans[l := row], p) == ActiveLoans(loans, p) - (if p == loans[l].patron then 1 else 0)
    {
      SumUpdate(loans, l, row, OfPatron(p));
    }
  }

  // ---- Borrow ----

  ghost predicate BorrowAllowed(db: Tables, h: History, p: int, i: int, out: string, due: string) {
    && ActiveLoans(db.loans, p) < Cap(h, p)
    && i in h.days && due == AddDays(out, LoanDays(h.days[i]))
    && Checkout(db, i, p, out, due).0.Ok?
  }

  function Lend(h: History): History { h.(origin := h.origin + [Origin(None, Open)]) }

  lemma BorrowKeepsItems(db: Tables, p: int, i: int, out: string, due: string)
    requires ItemsInv(db) && Checkout(db, i, p, out, due).0.Ok?
    ensures ItemsInv(Checkout(db, i, p, out, due).1)
  {
    CountOpened(db.loans, Loan(i, p, out, due, None, 0, true));
  }

  lemma BorrowKeepsLoans(db: Tables, h: History, p: int, i: int, out: string, due: string)
    requires DaysInv(db, h) && LoansInv(db, h) && BorrowAllowed(db, h, p, i, out, due)
    ensures LoansInv(Checkout(db, i, p, out, due).1, Lend(h))
  {
    var db', h' := Checkout(db, i, p, out, due).1, Lend(h);
    forall j | IsRow(j, db'.loans) ensures LoanInv(db', h', j) {
      if j < |db.loans| { assert LoanInv(db, h, j); }
    }
    forall j, k | IsRow(j, db'.loans) && IsRow(k, db'.loans) && SameParent(h', j, k) ensures j == k {
      assert SameParent(h, j, k);
    }
  }

  lemma BorrowKeepsTables(db: Tables, h: History, p: int, i: int, out: string, due: string)
    requires TablesInv(db, h) && BorrowAllowed(db, h, p, i, out, due)
    ensures TablesInv(Checkout(db, i, p, out, due).1, Lend(h))
    ensures Grows(db, h, Checkout(db, i, p, out, due).1, Lend(h))
    ensures forall q :: q != p ==> ActiveLoans(Checkout(db, i, p, out, due).1.loans, q) == ActiveLoans(db.loans, q)
  {
    BorrowKeepsItems(db, p, i, out, due);
    BorrowKeepsLoans(db, h, p, i, out, due);
    CountOpened(db.loans, Loan(i, p, out, due, None, 0, true));
    BorrowKeepsFines(db, h, p, i, out, due);
  }

  lemma BorrowKeepsFines(db: Tables, h: History, p: int, i: int, out: string, due: string)
    requires FinesInv(db, h) && BorrowAllowed(db, h, p, i, out, due)
    ensures FinesInv(Checkout(db, i, p, out, due).1, Lend(h))
  {
    var db', h' := Checkout(db, i, p, out, due).1, Lend(h);
    forall f | IsRow(f, db'.fines) && f >= h'.oldFines ensures FineInv(db', h', f) {
      assert FineInv(db, h, f);
    }
  }

  // ---- Return ----

  lemma ReturnKeepsItems(db: Tables, l: int, today: string)
    requires ItemsInv(db) && ReturnTx(db, l, today, FINE_PER_DAY).0.Ok?
    ensures ItemsInv(ReturnTx(db, l, today, FINE_PER_DAY).1)
  {
    var row := db.loans[l];
    CountClosed(db.loans, l, row.(checkin := Some(today), active := false));
    var db' := ReturnTx(db, l, today, FINE_PER_DAY).1;
    SumAtLeastOne(db.loans, l);
    assert row.item in db.items && db.items[row.item].status == Borrowed;
  }

  lemma SumAtLeastOne(loans: seq<Loan>, l: int)
    requires IsRow(l, loans) && loans[l].active
    ensures ActiveOn(loans, loans[l].item) >= 1 && ActiveLoans(loans, loans[l].patron) >= 1
  {
    SumAtLeast(loans, l, OnItem(loans[l].item));
    SumAtLeast(loans, l, OfPatron(loans[l].patron));
  }

  lemma ReturnKeepsLoans(db: Tables, h: History, l: int, today: string)
    requires LoansInv(db, h) && ReturnTx(db, l, today, FINE_PER_DAY).0.Ok?
    ensures LoansInv(ReturnTx(db, l, today, FINE_PER_DAY).1, Close(h, l, ByReturn))
  {
    var db', h' := ReturnTx(db, l, today, FINE_PER_DAY).1, Close(h, l, ByReturn);
    assert LoanInv(db, h, l);
    forall j | IsRow(j, db'.loans) ensures LoanInv(db', h', j) {
      assert LoanInv(db, h, j);
    }
    forall j, k | IsRow(j, db'.loans) && IsRow(k, db'.loans) && SameParent(h', j, k) ensures j == k {
      assert SameParent(h, j, k);
    }
  }

  lemma ReturnKeepsFines(db: Tables, h: History, l: int, today: string)
    requires FinesInv(db, h) && LoansInv(db, h) && ReturnTx(db, l, today, FINE_PER_DAY).0.Ok?
    ensures FinesInv(ReturnTx(db, l, today, FINE_PER_DAY).1, Close(h, l, ByReturn))
  {
    hide FineFor, Woken, Released, Follows;
    var db', h' := ReturnTx(db, l, today, FINE_PER_DAY).1, Close(h, l, ByReturn);
    assert LoanInv(db, h, l);
    forall f | IsRow(f, db'.fines) && f >= h'.oldFines ensures FineInv(db', h', f) {
      if f < |db.fines| { assert FineInv(db, h, f); }
    }
    forall f, g | IsRow(f, db'.fines) && IsRow(g, db'.fines) && h'.oldFines <= f < g
      ensures db'.fines[f].loan != db'.fines[g].loan
    {
      assert FineInv(db, h, f);
    }
  }

  /** Hold `b` is fulfilled by the change from `before` to `after`. */
  predicate NewlyFulfilled(before: seq<Hold>, after: seq<Hold>, b: int)
    requires IsRow(b, before) && IsRow(b, after)
  {
    after[b].status == Fulfilled && before[b].status != Fulfilled
  }

  lemma WokenKeepsHolds(holds: seq<Hold>, items: map<int, Item>, item: int)
    ensures HoldsGrow(holds, Woken(holds, items, item)) && |Woken(holds, items, item)| == |holds|
    ensures forall b :: IsRow(b, holds) && Woken(holds, items, item)[b].status == Waiting ==> holds[b].status == Waiting
    ensures forall a, b :: IsRow(a, holds) && IsRow(b, holds) && NewlyFulfilled(holds, Woken(holds, items, item), b) ==>
              !(holds[a].biblio == holds[b].biblio && holds[a].pos < holds[b].pos && holds[a].status == Waiting)
  {
    if item in items {
      var biblio := items[item].biblio;
      FirstWaitingIsLeast(holds, biblio);
      forall a, b | IsRow(a, holds) && IsRow(b, holds) && NewlyFulfilled(holds, Woken(holds, items, item), b)
        ensures !(holds[a].biblio == holds[b].biblio && holds[a].pos < holds[b].pos && holds[a].status == Waiting)
      {
        assert FirstWaiting(holds, biblio) == Some(b);
        assert holds[a].status == Waiting && holds[a].biblio == biblio ==> WaitingFor(holds, a, biblio);
      }
    }
  }

  lemma ReturnKeepsHolds(db: Tables, h: History, l: int, today: string)
    requires HoldsInv(db, h) && ReturnTx(db, l, today, FINE_PER_DAY).0.Ok?
    ensures HoldsInv(ReturnTx(db, l, today, FINE_PER_DAY).1, Close(h, l, ByReturn))
  {
    WokenKeepsHolds(db.holds, db.items, db.loans[l].item);
  }

  lemma ReturnGrows(db: Tables, h: History, l: int, today: string)
    requires |h.origin| == |db.loans| && ReturnTx(db, l, today, FINE_PER_DAY).0.Ok?
    ensures Grows(db, h, ReturnTx(db, l, today, FINE_PER_DAY).1, Close(h, l, ByReturn))
    ensures forall q :: ActiveLoans(ReturnTx(db, l, today, FINE_PER_DAY).1.loans, q) <= ActiveLoans(db.loans, q)
  {
    var row := db.loans[l];
    WokenKeepsHolds(db.holds, db.items, row.item);
    CountClosed(db.loans, l, row.(checkin := Some(today), active := false));
  }

  lemma ReturnKeepsLimits(db: Tables, h: History, l: int, today: string)
    requires DaysInv(db, h) && LimitInv(db, h) && |h.origin| == |db.loans| && ReturnTx(db, l, today, FINE_PER_DAY).0.Ok?
    ensures DaysInv(ReturnTx(db, l, today, FINE_PER_DAY).1, Close(h, l, ByReturn))
    ensures LimitInv(ReturnTx(db, l, today, FINE_PER_DAY).1, Close(h, l, ByReturn))
  {
    ReturnGrows(db, h, l, today);
  }

  lemma ReturnKeepsTables(db: Tables, h: History, l: int, today: string)
    requires TablesInv(db, h) && ReturnTx(db, l, today, FINE_PER_DAY).0.Ok?
    ensures TablesInv(ReturnTx(db, l, today, FINE_PER_DAY).1, Close(h, l, ByReturn))
  {
    ReturnKeepsItems(db, l, today);
    ReturnKeepsLoans(db, h, l, today);
    ReturnKeepsFines(db, h, l, today);
    ReturnKeepsHolds(db, h, l, today);
    ReturnKeepsLimits(db, h, l, today);
  }

  // ---- Renew ----

  ghost predicate RenewAllowed(db: Tables, h: History, l: int, row: Loan, due: string) {
    && KnowsLoan(db, l, row) && row.renewals < MAX_RENEWALS && db.loans[l].active
    && row.item in h.days && due == AddDays(row.due, LoanDays(h.days[row.item]))
  }

  function Renewal(db: Tables, l: int, row: Loan, due: string): Tables {
    RenewCheckout(db, l, row.due, due, row.renewals + 1).1
  }

  function Continue(h: History, l: int): History {
    var closed := Close(h, l, ByRenewal);
    closed.(origin := closed.origin + [Origin(Some(l), Open)])
  }

  lemma RenewalCounts(db: Tables, l: int, row: Loan, due: string)
    requires KnowsLoan(db, l, row) && db.loans[l].active
    ensures forall i :: ActiveOn(Renewal(db, l, row, due).loans, i) == ActiveOn(db.loans, i)
    ensures forall p :: ActiveLoans(Renewal(db, l, row, due).loans, p) == ActiveLoans(db.loans, p)
  {
    var closed := db.loans[l].(checkin := Some(row.due), active := false);
    CountClosed(db.loans, l, closed);
    CountOpened(db.loans[l := closed], Loan(row.item, row.patron, row.due, due, None, row.renewals + 1, true));
  }

  lemma RenewKeepsLoans(db: Tables, h: History, l: int, row: Loan, due: string)
    requires LoansInv(db, h) && RenewAllowed(db, h, l, row, due)
    ensures LoansInv(Renewal(db, l, row, due), Continue(h, l))
  {
    hide AddDays;
    var db', h' := Renewal(db, l, row, due), Continue(h, l);
    var n := |db.loans|;
    assert LoanInv(db, h, l);
    forall j | IsRow(j, db'.loans) ensures LoanInv(db', h', j) {
      if j < n { assert LoanInv(db, h, j); }
    }
    forall j | IsRow(j, db.loans) ensures h.origin[j].parent != Some(l) {
      assert LoanInv(db, h, j);
    }
    forall j, k | IsRow(j, db'.loans) && IsRow(k, db'.loans) && SameParent(h', j, k) ensures j == k {
      if j < n && k < n { assert SameParent(h, j, k); }
    }
  }

  lemma RenewKeepsFines(db: Tables, h: History, l: int, row: Loan, due: string)
    requires FinesInv(db, h) && LoansInv(db, h) && RenewAllowed(db, h, l, row, due)
    ensures FinesInv(Renewal(db, l, row, due), Continue(h, l))
  {
    hide FineFor, Follows, AddDays;
    var db', h' := Renewal(db, l, row, due), Continue(h, l);
    assert LoanInv(db, h, l);
    forall f | IsRow(f, db'.fines) && f >= h'.oldFines ensures FineInv(db', h', f) {
      assert FineInv(db, h, f);
    }
  }

  lemma RenewKeepsTables(db: Tables, h: History, l: int, row: Loan, due: string)
    requires TablesInv(db, h) && RenewAllowed(db, h, l, row, due)
    ensures TablesInv(Renewal(db, l, row, due), Continue(h, l))
    ensures Grows(db, h, Renewal(db, l, row, due), Continue(h, l))
    ensures forall q :: ActiveLoans(Renewal(db, l, row, due).loans, q) == ActiveLoans(db.loans, q)
  {
    hide LoansInv, FinesInv;
    RenewalCounts(db, l, row, due);
    RenewKeepsLoans(db, h, l, row, due);
    RenewKeepsFines(db, h, l, row, due);
  }

  // ---- Holds ----

  lemma HoldKeepsTables(db: Tables, h: History, p: int, b: int, pos: int, seen: int, today: string)
    requires TablesInv(db, h) && AboveSeen(db, b, pos, seen)
    ensures TablesInv(InsertHold(db, p, b, pos, today), h.(seen := h.seen + [seen]))
    ensures Grows(db, h, InsertHold(db, p, b, pos, today), h.(seen := h.seen + [seen]))
  {
    hide LoansInv, FinesInv;
    LoansFrame(db, h, InsertHold(db, p, b, pos, today), h.(seen := h.seen + [seen]));
  }

  lemma CancelKeepsTables(db: Tables, h: History, p: int, x: int)
    requires TablesInv(db, h)
    ensures TablesInv(CancelHold(db, p, x).1, h) && Grows(db, h, CancelHold(db, p, x).1, h)
  {
    hide LoansInv, FinesInv;
    LoansFrame(db, h, CancelHold(db, p, x).1, h);
  }

  /** Loans and fines keep their invariants when only other tables change. */
  lemma LoansFrame(db: Tables, h: History, db': Tables, h': History)
    requires LoansInv(db, h) && FinesInv(db, h)
    requires db'.loans == db.loans && db'.fines == db.fines && h'.origin == h.origin && h'.oldFines == h.oldFines
    requires forall i :: i in h.days ==> i in h'.days && h.days[i] == h'.days[i]
    ensures LoansInv(db', h') && FinesInv(db', h')
  {
    hide FineFor, Follows, AddDays;
    forall j | IsRow(j, db'.loans) ensures LoanInv(db', h', j) {
      assert LoanInv(db, h, j);
    }
    forall j, k | IsRow(j, db'.loans) && IsRow(k, db'.loans) && SameParent(h', j, k) ensures j == k {
      assert SameParent(h, j, k);
    }
    forall f | IsRow(f, db'.fines) && f >= h'.oldFines ensures FineInv(db', h', f) {
      assert FineInv(db, h, f);
    }
  }

  // ---- Copies and patrons ----

  lemma DeleteKeepsTables(db: Tables, h: History, i: int)
    requires TablesInv(db, h)
    ensures TablesInv(DeleteItem(db, i).1, h) && Grows(db, h, DeleteItem(db, i).1, h)
  {
    hide LoansInv, FinesInv;
    LoansFrame(db, h, DeleteItem(db, i).1, h);
  }

  /** The tables with one more available copy, under the next id. */
  function WithCopy(db: Tables, b: int, duration: int): Tables {
    db.(items := db.items[db.nextItem := Item(b, Available, duration)], nextItem := db.nextItem + 1)
  }

  lemma AddCopyKeepsItems(db: Tables, h: History, b: int, duration: int)
    requires ItemsInv(db) && DaysInv(db, h)
    ensures ItemsInv(WithCopy(db, b, duration))
    ensures DaysInv(WithCopy(db, b, duration), h.(days := h.days[db.nextItem := duration]))
  {
    hide ActiveOn;
  }

  lemma AddCopyKeepsTables(db: Tables, h: History, b: int, duration: int)
    requires TablesInv(db, h)
    ensures var db', h' := WithCopy(db, b, duration), h.(days := h.days[db.nextItem := duration]);
            TablesInv(db', h') && Grows(db, h, db', h')
  {
    hide LoansInv, FinesInv, ItemsInv;
    AddCopyKeepsItems(db, h, b, duration);
    LoansFrame(db, h, WithCopy(db, b, duration), h.(days := h.days[db.nextItem := duration]));
  }

  lemma AdminKeepsTables(s: State, a: Action)
    requires TablesInv(s.db, s.hist) && (a.SetPatron? || a.AddBook?)
    ensures TablesInv(Apply(s, a).db, Apply(s, a).hist) && Grows(s.db, s.hist, Apply(s, a).db, Apply(s, a).hist)
  {
    hide LoansInv, FinesInv, ActiveOn, ActiveLoans, Advance;
    LoansFrame(s.db, s.hist, Apply(s, a).db, Apply(s, a).hist);
  }
}
