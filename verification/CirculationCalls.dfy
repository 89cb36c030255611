/**
 What the whole calls of the service accept, refuse and change, said in terms of the rows
 of the tables and the numbers of the lending rules.
 */
module CirculationCalls {
  import opened Dates
  import opened Library
  import opened Circulation
  import opened LibraryService
  import opened Sums
  import opened Wrappers

  /** The loans a patron has not brought back. */
  function OpenLoans(loans: seq<Loan>, p: int): set<int> {
    set l | 0 <= l < |loans| && loans[l].active && loans[l].patron == p
  }

  lemma ActiveLoansAreOpen(loans: seq<Loan>, p: int)
    ensures ActiveLoans(loans, p) == |OpenLoans(loans, p)|
  {
    SumCounts(loans, OfPatron(p));
    assert OpenLoans(loans, p) == Counted(loans, OfPatron(p));
  }

  /** Two weeks unless the copy says otherwise. */
  function LoanPeriod(duration: int): int { if duration > 0 then duration else 14 }

  // ---- Borrow ----

  predicate MayBorrow(db: Tables, p: int) { p in db.patrons && !db.patrons[p].disabled }

  predicate OnShelf(db: Tables, i: int) { i in db.items && db.items[i].status == Available }

  function LoansAllowed(db: Tables, p: int): int { if p in db.patrons && db.patrons[p].vip then 10 else 5 }

  predicate HasRoom(db: Tables, p: int) { |OpenLoans(db.loans, p)| < LoansAllowed(db, p) }

  lemma RoomIffBelowLimit(db: Tables, p: int)
    ensures HasRoom(db, p) <==> ActiveLoans(db.loans, p) < LimitFor(db, p)
  {
    hide ActiveLoans, OpenLoans;
    ActiveLoansAreOpen(db.loans, p);
  }

  /** The loan a borrower walks away with. */
  function NewLoan(i: int, p: int, today: string, days: int): Loan {
    Loan(i, p, today, AddDays(today, days), None, 0, true)
  }

  function Lend(db: Tables, i: int, row: Loan): Tables
    requires i in db.items
  {
    db.(loans := db.loans + [row], items := db.items[i := db.items[i].(status := Borrowed)])
  }

  /**
   A borrow succeeds exactly for a patron who exists and is not disabled, on an available copy,
   with fewer than ten open loans for a VIP and fewer than five otherwise. It then adds one loan,
   from today for the copy's period, and marks the copy. Otherwise nothing changes, and the error
   names the first condition that fails.
   */
  lemma BorrowSucceedsIff(db: Tables, p: int, i: int, today: string)
    ensures var (r, after) := BorrowCall(db, p, i, today);
            var may, shelf := MayBorrow(db, p), OnShelf(db, i);
            && (r.Ok? <==> may && shelf && HasRoom(db, p))
            && (r.Ok? ==>
                  r.value == |db.loans| && after == Lend(db, i, NewLoan(i, p, today, LoanPeriod(db.items[i].duration))))
            && (r.Err? ==> after == db)
            && (r == Err(PatronNotFound) <==> p !in db.patrons)
            && (r == Err(PatronDisabled) <==> p in db.patrons && db.patrons[p].disabled)
            && (r == Err(ItemNotFound) <==> may && i !in db.items)
            && (r == Err(ItemUnavailable) <==> may && i in db.items && !shelf)
            && (r == Err(LoanLimitReached) <==> may && shelf && !HasRoom(db, p))
  {
    hide ActiveLoans, HasRoom, AddDays, LimitFor;
    RoomIffBelowLimit(db, p);
  }

  // ---- Return ----

  /** `h` waits for the book, and everyone else who waits for it comes later by (position, id). */
  ghost predicate FirstInQueue(holds: seq<Hold>, h: int, biblio: int) {
    && WaitingFor(holds, h, biblio)
    && forall k :: WaitingFor(holds, k, biblio) && k != h ==> WaitsBefore(holds, h, k)
  }

  ghost predicate Awaited(holds: seq<Hold>, biblio: int) { exists h :: WaitingFor(holds, h, biblio) }

  /** The first hold of the queue is fulfilled with the copy and its patron is told; every other row stays. */
  ghost predicate Wakes(before: seq<Hold>, after: seq<Hold>, biblio: int, copy: int, wake: Option<int>) {
    exists h :: FirstInQueue(before, h, biblio) && wake == Some(before[h].patron)
      && after == before[h := before[h].(status := Fulfilled, item := Some(copy))]
  }

  lemma WokenWakes(holds: seq<Hold>, items: map<int, Item>, copy: int)
    requires copy in items && Awaited(holds, items[copy].biblio)
    ensures Wakes(holds, Woken(holds, items, copy), items[copy].biblio, copy, WokenPatron(holds, items, copy))
  {
    hide FirstWaiting;
    var b := items[copy].biblio;
    FirstWaitingIsLeast(holds, b);
    assert FirstInQueue(holds, FirstWaiting(holds, b).value, b);
  }

  lemma NobodyWoken(holds: seq<Hold>, items: map<int, Item>, copy: int)
    requires copy !in items || !Awaited(holds, items[copy].biblio)
    ensures Woken(holds, items, copy) == holds && WokenPatron(holds, items, copy) == None
  {
    hide FirstWaiting;
    if copy in items { FirstWaitingIsLeast(holds, items[copy].biblio); }
  }

  /**
   A return succeeds exactly for an active loan. It closes that loan today and frees the copy, and
   if anyone waits for the book, the first in the queue gets the copy: that one hold changes, and
   its patron is reported. If nobody waits, no hold changes and nobody is reported.
   */
  lemma ReturnWakesFirst(db: Tables, l: int, today: string, perDay: int)
    ensures var (r, after) := ReturnTx(db, l, today, perDay);
            && (r.Ok? <==> IsRow(l, db.loans) && db.loans[l].active)
            && (r.Err? ==> after == db && r.error == if IsRow(l, db.loans) then LoanNotActive else LoanNotFound)
            && (r.Ok? ==>
                  var row, copy := db.loans[l], db.loans[l].item;
                  && after.loans == db.loans[l := row.(checkin := Some(today), active := false)]
                  && after.items.Keys == db.items.Keys
                  && (forall i :: i in db.items ==>
                        after.items[i] == if i == copy then db.items[i].(status := Available) else db.items[i])
                  && (copy in db.items && Awaited(db.holds, db.items[copy].biblio) ==>
                        Wakes(db.holds, after.holds, db.items[copy].biblio, copy, r.value.wake))
                  && (copy !in db.items || !Awaited(db.holds, db.items[copy].biblio) ==>
                        after.holds == db.holds && r.value.wake == None)
                  && after == db.(loans := after.loans, items := after.items, holds := after.holds,
                                  fines := after.fines))
  {
    hide Woken, WokenPatron, FineFor, WithFine, Wakes, Awaited;
    if IsRow(l, db.loans) {
      var copy := db.loans[l].item;
      if copy in db.items && Awaited(db.holds, db.items[copy].biblio) {
        WokenWakes(db.holds, db.items, copy);
      } else {
        NobodyWoken(db.holds, db.items, copy);
      }
    }
  }

  /**
   The fine of a return is the charge for the days late; one unpaid row for the borrower, about
   the loan, is added when it is positive, and it is the fine that is reported.
   */
  lemma ReturnCharges(db: Tables, l: int, today: string, perDay: int)
    requires IsRow(l, db.loans) && db.loans[l].active
    ensures var (r, after) := ReturnTx(db, l, today, perDay);
            var row := db.loans[l];
            && r.Ok? && r.value.patron == row.patron
            && r.value.fine == (if Less(row.due, today) then DaysBetween(row.due, today) * perDay else 0)
            && after.fines == db.fines
                 + (if r.value.fine > 0 then [Fine(row.patron, l, r.value.fine, today, false)] else [])
  {
    hide Woken, WokenPatron, Less, DaysBetween, Released;
  }

  // ---- Renew ----

  /**
   A renewal succeeds exactly for an active loan, renewed fewer than two times, not overdue, of an
   existing copy, while nobody waits for the book. It closes the loan on its due date and opens
   its successor from there, for the copy's period, renewed once more. Otherwise nothing changes,
   and the error names the first condition that fails.
   */
  lemma RenewSucceedsIff(db: Tables, l: int, today: string)
    ensures var (r, after) := RenewCall(db, l, today);
            if !IsRow(l, db.loans) then r == Err(LoanNotFound) && after == db
            else
              var row := db.loans[l];
              var copy, due := row.item, row.due;
              && (r.Ok? <==> row.active && row.renewals < 2 && !Less(due, today) && copy in db.items
                             && forall h :: !WaitingFor(db.holds, h, db.items[copy].biblio))
              && (r.Ok? ==>
                    && r.value == |db.loans|
                    && after == db.(loans := db.loans[l := row.(checkin := Some(due), active := false)]
                         + [Loan(copy, row.patron, due, AddDays(due, LoanPeriod(db.items[copy].duration)), None,
                                 row.renewals + 1, true)]))
              && (r.Err? ==> after == db)
              && (r == Err(LoanNotActive) <==> !row.active)
              && (r == Err(MaxRenewals) <==> row.active && row.renewals >= 2)
              && (r == Err(Overdue) <==> row.active && row.renewals < 2 && Less(due, today))
              && (r == Err(ItemNotFound) <==> row.active && row.renewals < 2 && !Less(due, today) && copy !in db.items)
              && (r == Err(HoldPending) <==> row.active && row.renewals < 2 && !Less(due, today) && copy in db.items
                                             && exists h :: WaitingFor(db.holds, h, db.items[copy].biblio))
  {
    hide FirstWaiting, AddDays, Less;
    if IsRow(l, db.loans) && db.loans[l].item in db.items {
      FirstWaitingIsLeast(db.holds, db.items[db.loans[l].item].biblio);
    }
  }

  // ---- PlaceHold ----

  predicate CopyOnShelf(db: Tables, i: int, b: int) {
    i in db.items && db.items[i].biblio == b && db.items[i].status == Available
  }

  /** The place behind every hold the book ever had, and right behind the last. */
  ghost predicate LastInLine(holds: seq<Hold>, b: int, pos: int) {
    && (forall h :: IsRow(h, holds) && holds[h].biblio == b ==> holds[h].pos < pos)
    && (if forall h :: IsRow(h, holds) ==> holds[h].biblio != b then pos == 1
        else exists h :: IsRow(h, holds) && holds[h].biblio == b && holds[h].pos + 1 == pos)
  }

  ghost predicate JoinsLine(db: Tables, after: Tables, p: int, b: int, today: string) {
    exists pos ::
      LastInLine(db.holds, b, pos) && after == db.(holds := db.holds + [Hold(b, p, None, pos, Waiting, today)])
  }

  lemma NextPosIsLastInLine(holds: seq<Hold>, b: int)
    ensures LastInLine(holds, b, NextPos(holds, b))
  {
    hide MaxPos;
    NextPosIsFresh(holds, b);
    if MaxPos(holds, b).Some? {
      var h :| Library.Queued(holds, h, b) && holds[h].pos + 1 == NextPos(holds, b);
      assert holds[h].biblio == b;
    }
    forall h | IsRow(h, holds) && holds[h].biblio == b
      ensures holds[h].pos < NextPos(holds, b) && MaxPos(holds, b).Some?
    {
      assert Library.Queued(holds, h, b);
    }
  }

  ghost predicate WaitsFor(db: Tables, p: int, b: int) {
    exists h :: WaitingFor(db.holds, h, b) && db.holds[h].patron == p
  }

  /**
   A hold is accepted exactly for an existing patron and book, while the book has no available
   copy and the patron does not wait for it yet. One waiting row is added, last in line, and
   nothing else changes. Otherwise nothing changes, and the error names the first condition that
   fails.
   */
  lemma HoldAcceptedIff(db: Tables, p: int, b: int, today: string)
    ensures var (r, after) := PlaceHoldCall(db, p, b, today);
            var known := p in db.patrons && b in db.biblios;
            var shelf := exists i :: CopyOnShelf(db, i, b);
            && (r.Ok? <==> known && !shelf && !WaitsFor(db, p, b))
            && (r.Ok? ==> r.value == |db.holds| && JoinsLine(db, after, p, b, today))
            && (r.Err? ==> after == db)
            && (r == Err(PatronNotFound) <==> p !in db.patrons)
            && (r == Err(BiblioNotFound) <==> p in db.patrons && b !in db.biblios)
            && (r == Err(NoAvailableItem) <==> known && shelf)
            && (r == Err(AlreadyHeld) <==> known && !shelf && WaitsFor(db, p, b))
  {
    hide NextPos, LastInLine, HasAvailable, AlreadyWaiting, WaitsFor;
    NextPosIsLastInLine(db.holds, b);
    ShelfIff(db, b);
    WaitsIff(db, p, b);
  }

  lemma ShelfIff(db: Tables, b: int)
    ensures HasAvailable(db, b) <==> exists i :: CopyOnShelf(db, i, b)
  {
    if HasAvailable(db, b) {
      var i :| i in db.items && db.items[i].biblio == b && db.items[i].status == Available;
      assert CopyOnShelf(db, i, b);
    }
  }

  lemma WaitsIff(db: Tables, p: int, b: int)
    ensures AlreadyWaiting(db, p, b) <==> WaitsFor(db, p, b)
  {
  }

  // ---- Cancelling and deleting ----

  /** Only the patron's own waiting hold can be cancelled, and then only its status changes. */
  lemma CancelSucceedsIff(db: Tables, p: int, h: int)
    ensures var (r, after) := CancelHold(db, p, h);
            && (r.Ok? <==> exists b :: WaitingFor(db.holds, h, b) && db.holds[h].patron == p)
            && (r.Err? ==> after == db)
            && (r.Ok? ==>
                  && |after.holds| == |db.holds| && after == db.(holds := after.holds)
                  && forall k ::
                       0 <= k < |db.holds| ==>
                         after.holds[k] == if k == h then db.holds[k].(status := HoldStatus.Cancelled) else db.holds[k])
  {
    if CancelHold(db, p, h).0.Ok? { assert WaitingFor(db.holds, h, db.holds[h].biblio); }
  }

  /** Only an available copy can be deleted, and then only its row goes. */
  lemma DeleteSucceedsIff(db: Tables, i: int)
    ensures var (r, after) := DeleteItem(db, i);
            && (r.Ok? <==> OnShelf(db, i))
            && after == db.(items := after.items)
            && (forall k :: k in after.items <==> k in db.items && !(k == i && r.Ok?))
            && (forall k :: k in after.items ==> after.items[k] == db.items[k])
  {
  }
}
