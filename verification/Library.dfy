/**
 The circulation tables and what each database transaction does to them.

 Loans, fines and holds are never deleted, so a row's id is its position.
 Copies can be deleted; their ids come from a counter and are never reused.
 Each transaction is a function from tables to tables: it is one atomic step
 on the single SQLite connection.
 */
module Library {
  import opened Dates
  import opened Sums
  import opened Wrappers

  const MAX_ACTIVE_LOANS := 5
  const MAX_RENEWALS := 2
  const FINE_PER_DAY := 10
  const DEFAULT_LOAN_DAYS := 14

  datatype ItemStatus = Available | Borrowed | OnHold | Lost
  datatype Item = Item(biblio: int, status: ItemStatus, duration: int)
  datatype Patron = Patron(disabled: bool, vip: bool)
  datatype Loan = Loan(item: int, patron: int, checkout: string, due: string,
                       checkin: Option<string>, renewals: int, active: bool)
  datatype Fine = Fine(patron: int, loan: int, amount: int, created: string, paid: bool)
  datatype HoldStatus = Waiting | Fulfilled | Cancelled
  datatype Hold = Hold(biblio: int, patron: int, item: Option<int>, pos: int, status: HoldStatus, created: string)

  datatype Tables = Tables(patrons: map<int, Patron>, biblios: set<int>, items: map<int, Item>, nextItem: int,
                           loans: seq<Loan>, fines: seq<Fine>, holds: seq<Hold>)

  datatype Error = PatronNotFound | ItemNotFound | BiblioNotFound | LoanNotFound | PatronDisabled | ItemUnavailable
                 | ItemTaken | LoanLimitReached | LoanNotActive | MaxRenewals | Overdue | HoldPending
                 | NoAvailableItem | AlreadyHeld | HoldNotCancelable | ItemNotDeletable
  datatype Result<+T> = Ok(value: T) | Err(error: Error)

  function LoanDays(duration: int): int {
    if duration <= 0 then DEFAULT_LOAN_DAYS else duration
  }

  // ---- Counts ----

  function OfPatron(p: int): Loan -> int {
    (l: Loan) => if l.active && l.patron == p then 1 else 0
  }

  function OnItem(i: int): Loan -> int {
    (l: Loan) => if l.active && l.item == i then 1 else 0
  }

  function ActiveLoans(loans: seq<Loan>, p: int): int { Sum(loans, OfPatron(p)) }

  function ActiveOn(loans: seq<Loan>, i: int): int { Sum(loans, OnItem(i)) }

  function UnpaidOf(p: int): Fine -> int {
    (f: Fine) => if f.patron == p && !f.paid then f.amount else 0
  }

  function SumUnpaidFines(fines: seq<Fine>, p: int): int { Sum(fines, UnpaidOf(p)) }

  // ---- Transactions ----

  /** `Checkout`: insert the loan, then take the copy only if it is still available; otherwise roll back. */
  function Checkout(db: Tables, item: int, patron: int, out: string, due: string): (Result<int>, Tables) {
    if item in db.items && db.items[item].status == Available then
      (Ok(|db.loans|),
       db.(loans := db.loans + [Loan(item, patron, out, due, None, 0, true)],
           items := db.items[item := db.items[item].(status := Borrowed)]))
    else
      (Err(ItemTaken), db)
  }

  /** `RenewCheckout`: close the old loan on its due date if it is still active, and open its successor. */
  function RenewCheckout(db: Tables, loan: int, oldDue: string, newDue: string, renewals: int): (Result<int>, Tables) {
    if !IsRow(loan, db.loans) then (Err(LoanNotFound), db)
    else
      var row := db.loans[loan];
      if !row.active then (Err(LoanNotActive), db)
      else
        (Ok(|db.loans|),
         db.(loans := db.loans[loan := row.(checkin := Some(oldDue), active := false)]
                      + [Loan(row.item, row.patron, oldDue, newDue, None, renewals, true)]))
  }

  /** The fine for a return: days late, when the due date is before the return date as text. */
  function FineFor(due: string, checkin: string, perDay: int): int {
    if Less(due, checkin) then DaysBetween(due, checkin) * perDay else 0
  }

  /** The waiting hold a return wakes: smallest queue position, then smallest id. */
  function FirstWaiting(holds: seq<Hold>, biblio: int): (r: Option<int>)
    ensures r.Some? ==> IsRow(r.value, holds) && holds[r.value].status == Waiting && holds[r.value].biblio == biblio
  {
    if holds == [] then None
    else
      var n := |holds| - 1;
      var best := FirstWaiting(holds[..n], biblio);
      if holds[n].status == Waiting && holds[n].biblio == biblio
         && (best.None? || holds[n].pos < holds[best.value].pos) then Some(n)
      else best
  }

  function WithFine(fines: seq<Fine>, patron: int, loan: int, amount: int, created: string): seq<Fine> {
    if amount > 0 then fines + [Fine(patron, loan, amount, created, false)] else fines
  }

  function Released(items: map<int, Item>, item: int): map<int, Item> {
    if item in items then items[item := items[item].(status := Available)] else items
  }

  function Woken(holds: seq<Hold>, items: map<int, Item>, item: int): seq<Hold> {
    if item !in items then holds
    else
      match FirstWaiting(holds, items[item].biblio)
      case None => holds
      case Some(h) => holds[h := holds[h].(status := Fulfilled, item := Some(item))]
  }

  datatype ReturnReport = ReturnReport(fine: int, wake: Option<int>, patron: int)

  function WokenPatron(holds: seq<Hold>, items: map<int, Item>, item: int): Option<int> {
    if item !in items then None
    else
      match FirstWaiting(holds, items[item].biblio)
      case None => None
      case Some(h) => Some(holds[h].patron)
  }

  /** `ReturnTx`: charge the fine, close the loan, release the copy and wake the first waiting hold. */
  function ReturnTx(db: Tables, loan: int, checkin: string, perDay: int): (Result<ReturnReport>, Tables) {
    if !IsRow(loan, db.loans) then (Err(LoanNotFound), db)
    else
      var row := db.loans[loan];
      if !row.active then (Err(LoanNotActive), db)
      else
        var fine := FineFor(row.due, checkin, perDay);
        (Ok(ReturnReport(fine, WokenPatron(db.holds, db.items, row.item), row.patron)),
         db.(fines := WithFine(db.fines, row.patron, loan, fine, checkin),
             loans := db.loans[loan := row.(checkin := Some(checkin), active := false)],
             items := Released(db.items, row.item),
             holds := Woken(db.holds, db.items, row.item)))
  }

  lemma ReturnFails(db: Tables, l: int, today: string)
    ensures ReturnTx(db, l, today, FINE_PER_DAY).0.Err? ==> ReturnTx(db, l, today, FINE_PER_DAY).1 == db
  {
    hide FineFor, WithFine, Released, Woken, WokenPatron;
  }

  /** `DeleteItemSafe`: delete the copy only while it is available. */
  function DeleteItem(db: Tables, item: int): (Result<int>, Tables) {
    if item in db.items && db.items[item].status == Available then
      (Ok(item), db.(items := db.items - {item}))
    else
      (Err(ItemNotDeletable), db)
  }

  /** `MAX(queue_pos)` over every hold of the book, whatever its status. */
  function MaxPos(holds: seq<Hold>, biblio: int): Option<int> {
    if holds == [] then None
    else
      var n := |holds| - 1;
      var best := MaxPos(holds[..n], biblio);
      if holds[n].biblio == biblio && (best.None? || holds[n].pos > best.value) then Some(holds[n].pos) else best
  }

  /** First half of `CreateHold`: the next queue position. */
  function NextPos(holds: seq<Hold>, biblio: int): int {
    match MaxPos(holds, biblio) case None => 1 case Some(p) => p + 1
  }

  /** Second half of `CreateHold`: insert the row at the position read before. */
  function InsertHold(db: Tables, patron: int, biblio: int, pos: int, created: string): Tables {
    db.(holds := db.holds + [Hold(biblio, patron, None, pos, Waiting, created)])
  }

  /** `CancelHoldByID`: only the patron's own waiting hold. */
  function CancelHold(db: Tables, patron: int, hold: int): (Result<int>, Tables) {
    if IsRow(hold, db.holds) && db.holds[hold].patron == patron && db.holds[hold].status == Waiting then
      (Ok(hold), db.(holds := db.holds[hold := db.holds[hold].(status := Cancelled)]))
    else
      (Err(HoldNotCancelable), db)
  }

  // ---- What the queries mean ----

  predicate WaitsBefore(holds: seq<Hold>, a: int, b: int)
    requires IsRow(a, holds) && IsRow(b, holds)
  {
    holds[a].pos < holds[b].pos || (holds[a].pos == holds[b].pos && a < b)
  }

  predicate WaitingFor(holds: seq<Hold>, h: int, biblio: int) {
    IsRow(h, holds) && holds[h].biblio == biblio && holds[h].status == Waiting
  }

  /** The woken hold is the least waiting one by (position, id); none is woken only if none waits. */
  lemma {:induction false} FirstWaitingIsLeast(holds: seq<Hold>, biblio: int)
    ensures FirstWaiting(holds, biblio).None? <==> forall h :: !WaitingFor(holds, h, biblio)
    ensures FirstWaiting(holds, biblio).Some? ==>
              forall h :: WaitingFor(holds, h, biblio) && h != FirstWaiting(holds, biblio).value ==>
                WaitsBefore(holds, FirstWaiting(holds, biblio).value, h)
  {
    if holds != [] {
      var n := |holds| - 1;
      var front := holds[..n];
      FirstWaitingIsLeast(front, biblio);
      assert forall h :: 0 <= h < n ==> WaitingFor(holds, h, biblio) == WaitingFor(front, h, biblio);
      var r := FirstWaiting(holds, biblio);
      if r.Some? {
        assert WaitingFor(holds, r.value, biblio);
      } else {
        assert FirstWaiting(front, biblio).None?;
        assert !WaitingFor(holds, n, biblio);
      }
      if FirstWaiting(front, biblio).Some? {
        assert WaitingFor(holds, FirstWaiting(front, biblio).value, biblio);
      }
    }
  }

  predicate Queued(holds: seq<Hold>, h: int, biblio: int) {
    IsRow(h, holds) && holds[h].biblio == biblio
  }

  /** The next position is above every position the book ever used, and one above the last. */
  lemma {:induction false} NextPosIsFresh(holds: seq<Hold>, biblio: int)
    ensures MaxPos(holds, biblio).None? ==> forall h :: !Queued(holds, h, biblio)
    ensures forall h :: Queued(holds, h, biblio) ==> holds[h].pos < NextPos(holds, biblio)
    ensures MaxPos(holds, biblio).Some?
        ==> exists h :: Queued(holds, h, biblio) && holds[h].pos + 1 == NextPos(holds, biblio)
  {
    if holds != [] {
      var n := |holds| - 1;
      var front := holds[..n];
      NextPosIsFresh(front, biblio);
      assert forall h :: 0 <= h < n ==> Queued(holds, h, biblio) == Queued(front, h, biblio);
      if MaxPos(holds, biblio).Some? {
        if MaxPos(holds, biblio) == MaxPos(front, biblio) {
          var h :| Queued(front, h, biblio) && front[h].pos + 1 == NextPos(front, biblio);
          assert Queued(holds, h, biblio);
        } else {
          assert Queued(holds, n, biblio);
        }
      }
    }
  }
}
