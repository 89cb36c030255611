/**
 The circulation service as a state machine: any number of service calls in
 flight, each advancing by one database access at a time, interleaved at will.

 `Advance` is one step of one call; `Apply` is any step of the system; `Run` is
 a whole interleaving. Today's date is an argument of every step, so clocks are
 arbitrary. `History` records what happened and never influences a step.
 */
module Circulation {
  import opened Dates
  import opened Sums
  import opened Library
  import opened Wrappers

  datatype Outcome = Refused | Lent(loan: int) | Returned(loan: int) | Renewed(loan: int, successor: int)
                   | Deleted(item: int) | Queued(hold: int)

  /** Where a call is, with what it has read so far. */
  datatype Call =
    | BorrowStart(patron: int, item: int)
    | BorrowLocked(patron: int, item: int)
    | BorrowPatron(patron: int, item: int)
    | BorrowItem(patron: int, item: int, days: int)
    | BorrowCounted(patron: int, item: int, days: int, count: int)
    | BorrowReady(patron: int, item: int, days: int)
    | BorrowCommitted(patron: int, loan: int)
    | ReturnStart(loan: int)
    | RenewStart(loan: int)
    | RenewRead(loan: int, row: Loan)
    | RenewCopy(loan: int, row: Loan, biblio: int)
    | RenewQueue(loan: int, row: Loan)
    | RenewReady(loan: int, row: Loan, days: int)
    | RenewCommitted(loan: int, successor: int)
    | DeleteStart(item: int)
    | DeleteRead(item: int)
    | DeleteReady(item: int)
    | HoldStart(patron: int, biblio: int, seen: int)
    | HoldPatron(patron: int, biblio: int, seen: int)
    | HoldBook(patron: int, biblio: int, seen: int)
    | HoldCopies(patron: int, biblio: int, seen: int)
    | HoldReady(patron: int, biblio: int, seen: int)
    | HoldNumbered(patron: int, biblio: int, pos: int, seen: int)
    | HoldDone(hold: int, seen: int)
    | Done(outcome: Outcome)

  datatype Closing = Open | ByReturn | ByRenewal | Before

  datatype Origin = Origin(parent: Option<int>, how: Closing)

  /**
   History variables: who was ever VIP, every copy's loan period, how each loan
   was opened and closed, and how many holds existed when each hold's call began.
   */
  datatype History = History(everVip: set<int>, days: map<int, int>, origin: seq<Origin>, seen: seq<int>, oldFines: nat)

  datatype State = State(db: Tables, locks: map<int, int>, calls: seq<Call>, hist: History)

  function At(s: State, c: int, k: Call): State
    requires IsRow(c, s.calls)
  {
    s.(calls := s.calls[c := k])
  }

  /** The deferred unlock of `Borrow`. */
  function Leave(s: State, c: int, p: int, outcome: Outcome): State
    requires IsRow(c, s.calls)
  {
    s.(calls := s.calls[c := Done(outcome)], locks := s.locks - {p})
  }

  function IsVip(db: Tables, p: int): bool { p in db.patrons && db.patrons[p].vip }

  function LimitFor(db: Tables, p: int): int {
    if IsVip(db, p) then MAX_ACTIVE_LOANS * 2 else MAX_ACTIVE_LOANS
  }

  predicate HasAvailable(db: Tables, biblio: int) {
    exists i :: i in db.items && db.items[i].biblio == biblio && db.items[i].status == Available
  }

  predicate AlreadyWaiting(db: Tables, p: int, biblio: int) {
    exists h :: 0 <= h < |db.holds| && WaitingFor(db.holds, h, biblio) && db.holds[h].patron == p
  }

  // ---- The committing steps ----

  function CommitBorrow(s: State, c: int, p: int, i: int, out: string, due: string): State
    requires IsRow(c, s.calls)
  {
    match Checkout(s.db, i, p, out, due)
    case (Err(_), _) => Leave(s, c, p, Refused)
    case (Ok(l), db) => At(s.(db := db, hist := s.hist.(origin := s.hist.origin + [Origin(None, Open)])),
      c, BorrowCommitted(p, l))
  }

  function Close(h: History, l: int, how: Closing): History {
    if IsRow(l, h.origin) then h.(origin := h.origin[l := h.origin[l].(how := how)]) else h
  }

  function CommitReturn(s: State, c: int, l: int, today: string): State
    requires IsRow(c, s.calls)
  {
    match ReturnTx(s.db, l, today, FINE_PER_DAY)
    case (Err(_), _) => At(s, c, Done(Refused))
    case (Ok(_), db) => At(s.(db := db, hist := Close(s.hist, l, ByReturn)), c, Done(Returned(l)))
  }

  function CommitRenew(s: State, c: int, l: int, oldDue: string, newDue: string, renewals: int): State
    requires IsRow(c, s.calls)
  {
    match RenewCheckout(s.db, l, oldDue, newDue, renewals)
    case (Err(_), _) => At(s, c, Done(Refused))
    case (Ok(n), db) =>
      var h := Close(s.hist, l, ByRenewal);
      At(s.(db := db, hist := h.(origin := h.origin + [Origin(Some(l), Open)])), c, RenewCommitted(l, n))
  }

  function CommitDelete(s: State, c: int, i: int): State
    requires IsRow(c, s.calls)
  {
    match DeleteItem(s.db, i)
    case (Err(_), _) => At(s, c, Done(Refused))
    case (Ok(_), db) => At(s.(db := db), c, Done(Deleted(i)))
  }

  function CommitHold(s: State, c: int, p: int, b: int, pos: int, seen: int, today: string): State
    requires IsRow(c, s.calls)
  {
    At(s.(db := InsertHold(s.db, p, b, pos, today), hist := s.hist.(seen := s.hist.seen + [seen])),
       c, HoldDone(|s.db.holds|, seen))
  }

  // ---- One step of one call ----

  function AdvanceBorrow(s: State, c: int, today: string): State
    requires IsRow(c, s.calls)
  {
    var db := s.db;
    match s.calls[c]
    case BorrowStart(p, i) =>
      if p in s.locks then s else At(s.(locks := s.locks[p := c]), c, BorrowLocked(p, i))
    case BorrowLocked(p, i) =>
      if p !in db.patrons || db.patrons[p].disabled then Leave(s, c, p, Refused) else At(s, c, BorrowPatron(p, i))
    case BorrowPatron(p, i) =>
      if i !in db.items || db.items[i].status != Available then Leave(s, c, p, Refused)
      else At(s, c, BorrowItem(p, i, LoanDays(db.items[i].duration)))
    case BorrowItem(p, i, days) => At(s, c, BorrowCounted(p, i, days, ActiveLoans(db.loans, p)))
    case BorrowCounted(p, i, days, count) =>
      if count >= LimitFor(db, p) then Leave(s, c, p, Refused) else At(s, c, BorrowReady(p, i, days))
    case BorrowReady(p, i, days) => CommitBorrow(s, c, p, i, today, AddDays(today, days))
    case BorrowCommitted(p, l) => Leave(s, c, p, Lent(l))
    case _ => s
  }

  function AdvanceRenew(s: State, c: int, today: string): State
    requires IsRow(c, s.calls)
  {
    var db := s.db;
    match s.calls[c]
    case RenewStart(l) =>
      if !IsRow(l, db.loans) || !db.loans[l].active then At(s, c, Done(Refused))
        else At(s, c, RenewRead(l, db.loans[l]))
    case RenewRead(l, row) =>
      if row.renewals >= MAX_RENEWALS || Less(row.due, today) || row.item !in db.items then At(s, c, Done(Refused))
      else At(s, c, RenewCopy(l, row, db.items[row.item].biblio))
    case RenewCopy(l, row, b) =>
      if FirstWaiting(db.holds, b).Some? then At(s, c, Done(Refused)) else At(s, c, RenewQueue(l, row))
    case RenewQueue(l, row) =>
      if row.item !in db.items then At(s, c, Done(Refused))
      else At(s, c, RenewReady(l, row, LoanDays(db.items[row.item].duration)))
    case RenewReady(l, row, days) => CommitRenew(s, c, l, row.due, AddDays(row.due, days), row.renewals + 1)
    case RenewCommitted(l, n) => At(s, c, Done(Renewed(l, n)))
    case _ => s
  }

  function AdvanceDelete(s: State, c: int): State
    requires IsRow(c, s.calls)
  {
    var db := s.db;
    match s.calls[c]
    case DeleteStart(i) => if i !in db.items then At(s, c, Done(Refused)) else At(s, c, DeleteRead(i))
    case DeleteRead(i) => if ActiveOn(db.loans, i) > 0 then At(s, c, Done(Refused)) else At(s, c, DeleteReady(i))
    case DeleteReady(i) => CommitDelete(s, c, i)
    case _ => s
  }

  function AdvanceHold(s: State, c: int, today: string): State
    requires IsRow(c, s.calls)
  {
    var db := s.db;
    match s.calls[c]
    case HoldStart(p, b, seen) => if p !in db.patrons then At(s, c, Done(Refused)) else At(s, c, HoldPatron(p, b, seen))
    case HoldPatron(p, b, seen) => if b !in db.biblios then At(s, c, Done(Refused)) else At(s, c, HoldBook(p, b, seen))
    case HoldBook(p, b, seen) => if HasAvailable(db, b) then At(s, c, Done(Refused))
      else At(s, c, HoldCopies(p, b, seen))
    case HoldCopies(p, b, seen) => if AlreadyWaiting(db, p, b) then At(s, c, Done(Refused))
      else At(s, c, HoldReady(p, b, seen))
    case HoldReady(p, b, seen) => At(s, c, HoldNumbered(p, b, NextPos(db.holds, b), seen))
    case HoldNumbered(p, b, pos, seen) => CommitHold(s, c, p, b, pos, seen, today)
    case _ => s
  }

  predicate Borrowing(k: Call) {
    k.BorrowStart? || k.BorrowLocked? || k.BorrowPatron? || k.BorrowItem?
      || k.BorrowCounted? || k.BorrowReady? || k.BorrowCommitted?
  }

  predicate Renewing(k: Call) {
    k.RenewStart? || k.RenewRead? || k.RenewCopy? || k.RenewQueue? || k.RenewReady? || k.RenewCommitted?
  }

  predicate Deleting(k: Call) { k.DeleteStart? || k.DeleteRead? || k.DeleteReady? }

  predicate Holding(k: Call) {
    k.HoldStart? || k.HoldPatron? || k.HoldBook? || k.HoldCopies? || k.HoldReady? || k.HoldNumbered?
  }

  function Advance(s: State, c: int, today: string): State
    requires IsRow(c, s.calls)
  {
    var k := s.calls[c];
    if Borrowing(k) then AdvanceBorrow(s, c, today)
    else if Renewing(k) then AdvanceRenew(s, c, today)
    else if Deleting(k) then AdvanceDelete(s, c)
    else if Holding(k) then AdvanceHold(s, c, today)
    else if k.ReturnStart? then CommitReturn(s, c, k.loan, today)
    else s
  }

  // ---- Any step of the system ----

  datatype Request = Borrow(patron: int, item: int) | Return(loan: int) | Renew(loan: int)
                   | DeleteCopy(item: int) | PlaceHold(patron: int, biblio: int)

  datatype Action =
    | Begin(request: Request)
    | Step(call: int, today: string)
    | Cancel(patron: int, hold: int)
    | SetPatron(patron: int, row: Patron)
    | AddBook(biblio: int)
    | AddCopy(biblio: int, duration: int)

  function FirstCall(s: State, r: Request): Call {
    match r
    case Borrow(p, i) => BorrowStart(p, i)
    case Return(l) => ReturnStart(l)
    case Renew(l) => RenewStart(l)
    case DeleteCopy(i) => DeleteStart(i)
    case PlaceHold(p, b) => HoldStart(p, b, |s.db.holds|)
  }

  function Apply(s: State, a: Action): State {
    match a
    case Begin(r) => s.(calls := s.calls + [FirstCall(s, r)])
    case Step(c, today) => if IsRow(c, s.calls) then Advance(s, c, today) else s
    case Cancel(p, h) => s.(db := CancelHold(s.db, p, h).1)
    case SetPatron(p, row) =>
      s.(db := s.db.(patrons := s.db.patrons[p := row]),
         hist := s.hist.(everVip := if row.vip then s.hist.everVip + {p} else s.hist.everVip))
    case AddBook(b) => s.(db := s.db.(biblios := s.db.biblios + {b}))
    case AddCopy(b, duration) =>
      s.(db := s.db.(items := s.db.items[s.db.nextItem := Item(b, Available, duration)], nextItem := s.db.nextItem + 1),
         hist := s.hist.(days := s.hist.days[s.db.nextItem := duration]))
  }

  function Run(s: State, actions: seq<Action>): State {
    if actions == [] then s
    else Apply(Run(s, actions[..|actions| - 1]), actions[|actions| - 1])
  }

  lemma {:induction false} RunConcat(s: State, a: seq<Action>, b: seq<Action>)
    ensures Run(s, a + b) == Run(Run(s, a), b)
  {
    if b == [] {
      assert a + b == a;
    } else {
      var n := |b| - 1;
      assert (a + b)[..|a + b| - 1] == a + b[..n];
      RunConcat(s, a, b[..n]);
    }
  }
}
