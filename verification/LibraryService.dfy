/**
 The store and the service as programs over mutable tables. Every method runs
 without interruption; what interleaved calls may do is the circulation machine,
 and the lemmas at the end say that a machine call left alone does what the
 method does.
 */
module LibraryService {
  import opened Dates
  import opened Sums
  import opened Library
  import opened Circulation
  import opened Wrappers

  // ---- Whole calls, from tables to tables ----

  function BorrowCall(db: Tables, p: int, i: int, today: string): (Result<int>, Tables) {
    if p !in db.patrons then (Err(PatronNotFound), db)
    else if db.patrons[p].disabled then (Err(PatronDisabled), db)
    else if i !in db.items then (Err(ItemNotFound), db)
    else if db.items[i].status != Available then (Err(ItemUnavailable), db)
    else if ActiveLoans(db.loans, p) >= LimitFor(db, p) then (Err(LoanLimitReached), db)
    else Checkout(db, i, p, today, AddDays(today, LoanDays(db.items[i].duration)))
  }

  /** `renewErr`: why a loan cannot be renewed, if it cannot. */
  function RenewError(db: Tables, row: Loan, today: string): Option<Error> {
    if !row.active then Some(LoanNotActive)
    else if row.renewals >= MAX_RENEWALS then Some(MaxRenewals)
    else if Less(row.due, today) then Some(Overdue)
    else if row.item !in db.items then Some(ItemNotFound)
    else if FirstWaiting(db.holds, db.items[row.item].biblio).Some? then Some(HoldPending)
    else None
  }

  function RenewCall(db: Tables, l: int, today: string): (Result<int>, Tables) {
    if !IsRow(l, db.loans) then (Err(LoanNotFound), db)
    else
      var row := db.loans[l];
      match RenewError(db, row, today)
      case Some(e) => (Err(e), db)
      case None => RenewCheckout(db, l, row.due, AddDays(row.due, LoanDays(db.items[row.item].duration)),
        row.renewals + 1)
  }

  function PlaceHoldCall(db: Tables, p: int, b: int, today: string): (Result<int>, Tables) {
    if p !in db.patrons then (Err(PatronNotFound), db)
    else if b !in db.biblios then (Err(BiblioNotFound), db)
    else if HasAvailable(db, b) then (Err(NoAvailableItem), db)
    else if AlreadyWaiting(db, p, b) then (Err(AlreadyHeld), db)
    else (Ok(|db.holds|), InsertHold(db, p, b, NextPos(db.holds, b), today))
  }

  // ---- The program ----

  class LibraryStore {
    var patrons: map<int, Patron>
    var biblios: set<int>
    var items: map<int, Item>
    var nextItem: int
    var loans: seq<Loan>
    var fines: seq<Fine>
    var holds: seq<Hold>

    function Db(): Tables
      reads this
    {
      Tables(patrons, biblios, items, nextItem, loans, fines, holds)
    }

    constructor (db: Tables)
      ensures Db() == db
    {
      patrons, biblios, items, nextItem := db.patrons, db.biblios, db.items, db.nextItem;
      loans, fines, holds := db.loans, db.fines, db.holds;
    }

    method Rollback(db: Tables)
      modifies this
      ensures Db() == db
    {
      patrons, biblios, items, nextItem := db.patrons, db.biblios, db.items, db.nextItem;
      loans, fines, holds := db.loans, db.fines, db.holds;
    }

    method CheckoutTx(item: int, patron: int, out: string, due: string) returns (r: Result<int>)
      modifies this
      ensures (r, Db()) == Checkout(old(Db()), item, patron, out, due)
    {
      var begin := Db();
      var id := |loans|;
      loans := loans + [Loan(item, patron, out, due, None, 0, true)];
      var affected := 0;
      if item in items && items[item].status == Available {
        items := items[item := items[item].(status := Borrowed)];
        affected := 1;
      }
      if affected == 0 {
        Rollback(begin);
        return Err(ItemTaken);
      }
      return Ok(id);
    }

    method RenewCheckoutTx(loan: int, oldDue: string, newDue: string, renewals: int) returns (r: Result<int>)
      modifies this
      ensures (r, Db()) == RenewCheckout(old(Db()), loan, oldDue, newDue, renewals)
    {
      if !IsRow(loan, loans) { return Err(LoanNotFound); }
      var item, patron := loans[loan].item, loans[loan].patron;
      if !loans[loan].active { return Err(LoanNotActive); }
      loans := loans[loan := loans[loan].(checkin := Some(oldDue), active := false)];
      var id := |loans|;
      loans := loans + [Loan(item, patron, oldDue, newDue, None, renewals, true)];
      return Ok(id);
    }

    /** `ORDER BY queue_pos, id LIMIT 1` over the book's waiting holds. */
    method FindFirstWaiting(biblio: int) returns (r: Option<int>)
      ensures r == FirstWaiting(holds, biblio)
    {
      r := None;
      for h := 0 to |holds|
        invariant r == FirstWaiting(holds[..h], biblio)
      {
        assert holds[..h + 1][..h] == holds[..h];
        if holds[h].status == Waiting && holds[h].biblio == biblio && (r.None? || holds[h].pos < holds[r.value].pos) {
          r := Some(h);
        }
      }
      assert holds[..|holds|] == holds;
    }

    method ReturnLoanTx(loan: int, checkin: string, perDay: int) returns (r: Result<ReturnReport>)
      modifies this
      ensures (r, Db()) == ReturnTx(old(Db()), loan, checkin, perDay)
    {
      if !IsRow(loan, loans) { return Err(LoanNotFound); }
      var row := loans[loan];
      if !row.active { return Err(LoanNotActive); }
      var fine := 0;
      if Less(row.due, checkin) {
        var days := DaysBetween(row.due, checkin);
        fine := days * perDay;
        if fine > 0 {
          fines := fines + [Fine(row.patron, loan, fine, checkin, false)];
        }
      }
      loans := loans[loan := row.(checkin := Some(checkin), active := false)];
      var wake: Option<int> := None;
      if row.item in items {
        items := items[row.item := items[row.item].(status := Available)];
        var first := FindFirstWaiting(items[row.item].biblio);
        if first.Some? {
          var h := first.value;
          holds := holds[h := holds[h].(status := Fulfilled, item := Some(row.item))];
          wake := Some(holds[h].patron);
        }
      }
      return Ok(ReturnReport(fine, wake, row.patron));
    }

    method DeleteItemSafe(item: int) returns (r: Result<int>)
      modifies this
      ensures (r, Db()) == DeleteItem(old(Db()), item)
    {
      if item in items && items[item].status == Available {
        items := items - {item};
        return Ok(item);
      }
      return Err(ItemNotDeletable);
    }

    /** `SELECT COALESCE(MAX(queue_pos),0)+1`. */
    method ReadNextPos(biblio: int) returns (pos: int)
      ensures pos == NextPos(holds, biblio)
    {
      var best: Option<int> := None;
      for h := 0 to |holds|
        invariant best == MaxPos(holds[..h], biblio)
      {
        assert holds[..h + 1][..h] == holds[..h];
        if holds[h].biblio == biblio && (best.None? || holds[h].pos > best.value) { best := Some(holds[h].pos); }
      }
      assert holds[..|holds|] == holds;
      pos := if best.None? then 1 else best.value + 1;
    }

    method CreateHold(patron: int, biblio: int, created: string) returns (id: int)
      modifies this
      ensures id == |old(holds)| && Db() == InsertHold(old(Db()), patron, biblio, NextPos(old(holds), biblio), created)
    {
      var pos := ReadNextPos(biblio);
      id := |holds|;
      holds := holds + [Hold(biblio, patron, None, pos, Waiting, created)];
    }

    method CancelHoldById(patron: int, hold: int) returns (r: Result<int>)
      modifies this
      ensures (r, Db()) == CancelHold(old(Db()), patron, hold)
    {
      if IsRow(hold, holds) && holds[hold].patron == patron && holds[hold].status == Waiting {
        holds := holds[hold := holds[hold].(status := Cancelled)];
        return Ok(hold);
      }
      return Err(HoldNotCancelable);
    }

    method CountActiveLoans(patron: int) returns (n: int)
      ensures n == ActiveLoans(loans, patron)
    {
      n := 0;
      for l := 0 to |loans|
        invariant n == ActiveLoans(loans[..l], patron)
      {
        assert loans[..l + 1][..l] == loans[..l];
        if loans[l].active && loans[l].patron == patron { n := n + 1; }
      }
      assert loans[..|loans|] == loans;
    }

    // ---- The service ----

    method Borrow(patron: int, item: int, today: string) returns (r: Result<int>)
      modifies this
      ensures (r, Db()) == BorrowCall(old(Db()), patron, item, today)
    {
      if patron !in patrons { return Err(PatronNotFound); }
      if patrons[patron].disabled { return Err(PatronDisabled); }
      if item !in items { return Err(ItemNotFound); }
      if items[item].status != Available { return Err(ItemUnavailable); }
      var active := CountActiveLoans(patron);
      var limit := MAX_ACTIVE_LOANS;
      if patrons[patron].vip { limit := MAX_ACTIVE_LOANS * 2; }
      if active >= limit { return Err(LoanLimitReached); }
      var days := items[item].duration;
      if days <= 0 { days := DEFAULT_LOAN_DAYS; }
      r := CheckoutTx(item, patron, today, AddDays(today, days));
    }

    method Return(loan: int, today: string) returns (r: Result<ReturnReport>)
      modifies this
      ensures (r, Db()) == ReturnTx(old(Db()), loan, today, FINE_PER_DAY)
    {
      r := ReturnLoanTx(loan, today, FINE_PER_DAY);
    }

    method Renew(loan: int, today: string) returns (r: Result<int>)
      modifies this
      ensures (r, Db()) == RenewCall(old(Db()), loan, today)
    {
      if !IsRow(loan, loans) { return Err(LoanNotFound); }
      var row := loans[loan];
      if !row.active { return Err(LoanNotActive); }
      if row.renewals >= MAX_RENEWALS { return Err(MaxRenewals); }
      if Less(row.due, today) { return Err(Overdue); }
      if row.item !in items { return Err(ItemNotFound); }
      var first := FindFirstWaiting(items[row.item].biblio);
      if first.Some? { return Err(HoldPending); }
      var days := items[row.item].duration;
      if days <= 0 { days := DEFAULT_LOAN_DAYS; }
      r := RenewCheckoutTx(loan, row.due, AddDays(row.due, days), row.renewals + 1);
    }

    method PlaceHold(patron: int, biblio: int, today: string) returns (r: Result<int>)
      modifies this
      ensures (r, Db()) == PlaceHoldCall(old(Db()), patron, biblio, today)
    {
      if patron !in patrons { return Err(PatronNotFound); }
      if biblio !in biblios { return Err(BiblioNotFound); }
      if HasAvailable(Db(), biblio) { return Err(NoAvailableItem); }
      for h := 0 to |holds|
        invariant forall k :: 0 <= k < h ==> !(WaitingFor(holds, k, biblio) && holds[k].patron == patron)
      {
        if holds[h].biblio == biblio && holds[h].status == Waiting && holds[h].patron == patron {
          return Err(AlreadyHeld);
        }
      }
      var id := CreateHold(patron, biblio, today);
      r := Ok(id);
    }
  }

  // ---- A machine call left alone does what the method does ----

  /** `n` steps of call `c` and nobody else. */
  function Alone(s: State, c: int, n: nat, today: string): State
    decreases n
  {
    if n == 0 then s else Alone(Apply(s, Step(c, today)), c, n - 1, today)
  }

  lemma OneAction(s: State, a: Action)
    ensures Run(s, [a]) == Apply(s, a)
  {
    hide Apply;
    assert [a][..0] == [];
  }

  /** The same steps as a run. */
  function Steps(c: int, n: nat, today: string): seq<Action> {
    if n == 0 then [] else Steps(c, n - 1, today) + [Step(c, today)]
  }

  lemma {:induction false} AloneLast(s: State, c: int, n: nat, today: string)
    requires n > 0
    ensures Alone(s, c, n, today) == Apply(Alone(s, c, n - 1, today), Step(c, today))
    decreases n
  {
    hide Apply;
    if n > 1 { AloneLast(Apply(s, Step(c, today)), c, n - 1, today); }
  }

  lemma {:induction false} AloneIsRun(s: State, c: int, n: nat, today: string)
    ensures Run(s, Steps(c, n, today)) == Alone(s, c, n, today)
    decreases n
  {
    hide Apply;
    if n > 0 {
      AloneIsRun(s, c, n - 1, today);
      AloneLast(s, c, n, today);
      assert Steps(c, n, today)[..|Steps(c, n, today)| - 1] == Steps(c, n - 1, today);
    }
  }

  lemma {:induction false} DoneStays(s: State, c: int, n: nat, today: string)
    requires IsRow(c, s.calls) && s.calls[c].Done?
    ensures Alone(s, c, n, today) == s
    decreases n
  {
    if n > 0 {
      StepIs(s, c, today);
      hide Apply;
      DoneStays(Apply(s, Step(c, today)), c, n - 1, today);
    }
  }

  lemma BeginIs(s: State, r: Request)
    ensures Apply(s, Begin(r)) == s.(calls := s.calls + [FirstCall(s, r)])
  {
    hide Advance, CancelHold;
  }

  lemma StepIs(s: State, c: int, today: string)
    requires IsRow(c, s.calls)
    ensures Borrowing(s.calls[c]) ==> Apply(s, Step(c, today)) == AdvanceBorrow(s, c, today)
    ensures Renewing(s.calls[c]) ==> Apply(s, Step(c, today)) == AdvanceRenew(s, c, today)
    ensures Holding(s.calls[c]) ==> Apply(s, Step(c, today)) == AdvanceHold(s, c, today)
    ensures Deleting(s.calls[c]) ==> Apply(s, Step(c, today)) == AdvanceDelete(s, c)
    ensures s.calls[c].ReturnStart? ==> Apply(s, Step(c, today)) == CommitReturn(s, c, s.calls[c].loan, today)
    ensures s.calls[c].Done? || s.calls[c].HoldDone? ==> Apply(s, Step(c, today)) == s
  {
    hide AdvanceBorrow, AdvanceRenew, AdvanceHold, AdvanceDelete, CommitReturn;
  }

  lemma BorrowFromCount(s: State, c: int, p: int, i: int, days: int, today: string)
    requires IsRow(c, s.calls) && s.calls[c] == BorrowItem(p, i, days) && p in s.locks
    ensures var t := Alone(s, c, 4, today);
            if ActiveLoans(s.db.loans, p) >= LimitFor(s.db, p) then t == Leave(s, c, p, Refused)
            else
              var (r, db) := Checkout(s.db, i, p, today, AddDays(today, days));
              t.db == db && t.locks == s.locks - {p}
              && t.calls == s.calls[c := Done(if r.Ok? then Lent(r.value) else Refused)]
  {
    hide ActiveLoans, LimitFor, AddDays, Apply;
    StepIs(s, c, today);
    var s1 := Apply(s, Step(c, today));
    StepIs(s1, c, today);
    var s2 := Apply(s1, Step(c, today));
    StepIs(s2, c, today);
    var s3 := Apply(s2, Step(c, today));
    StepIs(s3, c, today);
    assert Alone(s, c, 4, today) == Alone(s1, c, 3, today) == Alone(s2, c, 2, today) == Alone(s3, c, 1, today);
    assert s1.calls[c] == BorrowCounted(p, i, days, ActiveLoans(s.db.loans, p));
    if s2.calls[c].Done? {
      DoneStays(s2, c, 2, today);
    } else {
      assert s2.calls[c] == BorrowReady(p, i, days);
      if s3.calls[c].Done? { DoneStays(s3, c, 1, today); }
    }
  }

  lemma BorrowFromPatron(s: State, c: int, p: int, i: int, today: string)
    requires IsRow(c, s.calls) && s.calls[c] == BorrowPatron(p, i) && p in s.locks && p in s.db.patrons
    requires !s.db.patrons[p].disabled
    ensures var t := Alone(s, c, 5, today);
            var (r, db) := BorrowCall(s.db, p, i, today);
            && t.db == db && t.locks == s.locks - {p}
            && t.calls == s.calls[c := Done(if r.Ok? then Lent(r.value) else Refused)]
  {
    hide ActiveLoans, LimitFor, AddDays, Checkout, Apply, CommitBorrow;
    StepIs(s, c, today);
    var s1 := Apply(s, Step(c, today));
    assert Alone(s, c, 5, today) == Alone(s1, c, 4, today);
    if s1.calls[c].Done? {
      DoneStays(s1, c, 4, today);
    } else {
      BorrowFromCount(s1, c, p, i, LoanDays(s.db.items[i].duration), today);
    }
  }

  /** `Borrow`, run alone from an unlocked patron, has the effect of the method and releases the lock. */
  lemma BorrowAlone(s: State, p: int, i: int, today: string)
    requires p !in s.locks
    ensures var c := |s.calls|;
            var t := Alone(Apply(s, Begin(Request.Borrow(p, i))), c, 7, today);
            var (r, db) := BorrowCall(s.db, p, i, today);
            && t.db == db && t.locks == s.locks
            && t.calls == s.calls + [Done(if r.Ok? then Lent(r.value) else Refused)]
  {
    hide ActiveLoans, LimitFor, AddDays, Checkout, Apply, CommitBorrow;
    var c := |s.calls|;
    BeginIs(s, Request.Borrow(p, i));
    var s0 := Apply(s, Begin(Request.Borrow(p, i)));
    StepIs(s0, c, today);
    var s1 := Apply(s0, Step(c, today));
    StepIs(s1, c, today);
    var s2 := Apply(s1, Step(c, today));
    assert Alone(s0, c, 7, today) == Alone(s1, c, 6, today) == Alone(s2, c, 5, today);
    assert s1.calls[c] == BorrowLocked(p, i) && s1.locks - {p} == s.locks;
    if s2.calls[c].Done? {
      DoneStays(s2, c, 5, today);
    } else {
      BorrowFromPatron(s2, c, p, i, today);
    }
  }

  /** `Renew`, run alone, has the effect of the method. */
  lemma RenewAlone(s: State, l: int, today: string)
    ensures var c := |s.calls|;
            var t := Alone(Apply(s, Begin(Request.Renew(l))), c, 6, today);
            var (r, db) := RenewCall(s.db, l, today);
            && t.db == db && t.locks == s.locks
            && t.calls == s.calls + [Done(if r.Ok? then Renewed(l, r.value) else Refused)]
  {
    hide AddDays, Less, FirstWaiting, Apply, CommitRenew;
    var c := |s.calls|;
    BeginIs(s, Request.Renew(l));
    var s0 := Apply(s, Begin(Request.Renew(l)));
    StepIs(s0, c, today);
    var s1 := Apply(s0, Step(c, today));
    assert Alone(s0, c, 6, today) == Alone(s1, c, 5, today);
    if s1.calls[c].Done? {
      DoneStays(s1, c, 5, today);
    } else {
      assert s1.calls[c] == RenewRead(l, s.db.loans[l]);
      RenewFromRead(s1, c, l, s.db.loans[l], today);
    }
  }

  lemma RenewFromRead(s: State, c: int, l: int, row: Loan, today: string)
    requires IsRow(c, s.calls) && s.calls[c] == RenewRead(l, row) && IsRow(l, s.db.loans) && s.db.loans[l] == row
    requires row.active
    ensures var t := Alone(s, c, 5, today);
            var (r, db) := RenewCall(s.db, l, today);
            && t.db == db && t.locks == s.locks
            && t.calls == s.calls[c := Done(if r.Ok? then Renewed(l, r.value) else Refused)]
  {
    hide AddDays, Less, FirstWaiting, RenewCheckout, Apply, CommitRenew;
    StepIs(s, c, today);
    var s1 := Apply(s, Step(c, today));
    StepIs(s1, c, today);
    var s2 := Apply(s1, Step(c, today));
    assert Alone(s, c, 5, today) == Alone(s1, c, 4, today) == Alone(s2, c, 3, today);
    if s1.calls[c].Done? {
      DoneStays(s1, c, 4, today);
    } else if s2.calls[c].Done? {
      DoneStays(s2, c, 3, today);
    } else {
      assert s2.calls[c] == RenewQueue(l, row);
      RenewFromQueue(s2, c, l, row, today);
    }
  }

  lemma RenewFromQueue(s: State, c: int, l: int, row: Loan, today: string)
    requires IsRow(c, s.calls) && s.calls[c] == RenewQueue(l, row) && row.item in s.db.items && IsRow(l, s.db.loans)
    requires s.db.loans[l] == row && row.active
    ensures var t := Alone(s, c, 3, today);
            var (r, db) := RenewCheckout(s.db, l, row.due,
              AddDays(row.due, LoanDays(s.db.items[row.item].duration)), row.renewals + 1);
            && r.Ok? && t.db == db && t.locks == s.locks && t.calls == s.calls[c := Done(Renewed(l, r.value))]
  {
    hide AddDays, Apply;
    StepIs(s, c, today);
    var s1 := Apply(s, Step(c, today));
    StepIs(s1, c, today);
    var s2 := Apply(s1, Step(c, today));
    StepIs(s2, c, today);
    assert Alone(s, c, 3, today) == Alone(s1, c, 2, today) == Alone(s2, c, 1, today);
    assert s1.calls[c] == RenewReady(l, row, LoanDays(s.db.items[row.item].duration));
    assert s2.calls[c] == RenewCommitted(l, |s.db.loans|);
  }

  /** `PlaceHold`, run alone, has the effect of the method. */
  lemma PlaceHoldAlone(s: State, p: int, b: int, today: string)
    ensures var c := |s.calls|;
            var t := Alone(Apply(s, Begin(Request.PlaceHold(p, b))), c, 6, today);
            var (r, db) := PlaceHoldCall(s.db, p, b, today);
            && t.db == db && t.locks == s.locks
            && t.calls == s.calls + [if r.Ok? then HoldDone(r.value, |s.db.holds|) else Done(Refused)]
  {
    hide HasAvailable, AlreadyWaiting, NextPos, Apply;
    var c := |s.calls|;
    BeginIs(s, Request.PlaceHold(p, b));
    var s0 := Apply(s, Begin(Request.PlaceHold(p, b)));
    StepIs(s0, c, today);
    var s1 := Apply(s0, Step(c, today));
    StepIs(s1, c, today);
    var s2 := Apply(s1, Step(c, today));
    assert Alone(s0, c, 6, today) == Alone(s1, c, 5, today) == Alone(s2, c, 4, today);
    if s1.calls[c].Done? {
      DoneStays(s1, c, 5, today);
    } else if s2.calls[c].Done? {
      DoneStays(s2, c, 4, today);
    } else {
      assert s2.calls[c] == HoldBook(p, b, |s.db.holds|);
      HoldFromBook(s2, c, p, b, |s.db.holds|, today);
    }
  }

  lemma HoldFromBook(s: State, c: int, p: int, b: int, seen: int, today: string)
    requires IsRow(c, s.calls) && s.calls[c] == HoldBook(p, b, seen) && p in s.db.patrons && b in s.db.biblios
    ensures var t := Alone(s, c, 4, today);
            var (r, db) := PlaceHoldCall(s.db, p, b, today);
            && t.db == db && t.locks == s.locks
            && t.calls == s.calls[c := if r.Ok? then HoldDone(r.value, seen) else Done(Refused)]
  {
    hide HasAvailable, AlreadyWaiting, NextPos, Apply;
    StepIs(s, c, today);
    var s1 := Apply(s, Step(c, today));
    StepIs(s1, c, today);
    var s2 := Apply(s1, Step(c, today));
    assert Alone(s, c, 4, today) == Alone(s1, c, 3, today) == Alone(s2, c, 2, today);
    if s1.calls[c].Done? {
      DoneStays(s1, c, 3, today);
    } else if s2.calls[c].Done? {
      DoneStays(s2, c, 2, today);
    } else {
      assert s2.calls[c] == HoldReady(p, b, seen);
      HoldFromReady(s2, c, p, b, seen, today);
    }
  }

  lemma HoldFromReady(s: State, c: int, p: int, b: int, seen: int, today: string)
    requires IsRow(c, s.calls) && s.calls[c] == HoldReady(p, b, seen)
    ensures var t := Alone(s, c, 2, today);
            && t.db == InsertHold(s.db, p, b, NextPos(s.db.holds, b), today) && t.locks == s.locks
            && t.calls == s.calls[c := HoldDone(|s.db.holds|, seen)]
  {
    hide NextPos, Apply;
    StepIs(s, c, today);
    var s1 := Apply(s, Step(c, today));
    StepIs(s1, c, today);
    assert Alone(s, c, 2, today) == Alone(s1, c, 1, today);
    assert s1.calls[c] == HoldNumbered(p, b, NextPos(s.db.holds, b), seen);
  }
}
