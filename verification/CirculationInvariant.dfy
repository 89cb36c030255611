/** What every step of the circulation machine keeps, under every interleaving. */
module CirculationInvariant {
  import opened Dates
  import opened Sums
  import opened Library
  import opened Circulation
  import opened Wrappers

  // ---- The tables ----

  /** A copy is Borrowed with exactly one active loan or Available with none; a missing copy has none. */
  ghost predicate ItemsInv(db: Tables) {
    && (forall i :: i in db.items
         ==> i < db.nextItem && (db.items[i].status == Available || db.items[i].status == Borrowed))
    && (forall i :: ActiveOn(db.loans, i) == if i in db.items && db.items[i].status == Borrowed then 1 else 0)
  }

  ghost predicate DaysInv(db: Tables, h: History) {
    && (forall i :: i in db.items ==> i in h.days && h.days[i] == db.items[i].duration)
    && (forall i :: i in h.days ==> i < db.nextItem)
    && (forall j :: IsRow(j, db.loans) ==> db.loans[j].item in h.days)
  }

  /** `next` is what a renewal makes of `row` for a copy lent `days` days at a time. */
  predicate Follows(row: Loan, next: Loan, days: int) {
    && next.item == row.item && next.patron == row.patron && next.renewals == row.renewals + 1
    && next.checkout == row.due && row.checkin == Some(row.due) && next.due == AddDays(row.due, days)
  }

  predicate SameParent(h: History, j: int, k: int)
    requires IsRow(j, h.origin) && IsRow(k, h.origin)
  {
    h.origin[j].parent.Some? && h.origin[j].parent == h.origin[k].parent
  }

  ghost predicate LoansInv(db: Tables, h: History) {
    && |h.origin| == |db.loans|
    && (forall j :: IsRow(j, db.loans) ==> LoanInv(db, h, j))
    && (forall j, k :: IsRow(j, db.loans) && IsRow(k, db.loans) && SameParent(h, j, k) ==> j == k)
  }

  ghost predicate LoanInv(db: Tables, h: History, j: int)
    requires |h.origin| == |db.loans| && IsRow(j, db.loans)
  {
    var row := db.loans[j];
    && (row.active <==> h.origin[j].how == Open)
    && 0 <= row.renewals <= MAX_RENEWALS
    && (h.origin[j].how == ByReturn ==> row.checkin.Some?)
    && row.item in h.days
    && match h.origin[j].parent
       case None => row.renewals == 0 && row.due == AddDays(row.checkout, LoanDays(h.days[row.item]))
       case Some(i) =>
         && 0 <= i < j && h.origin[i].how == ByRenewal
         && Follows(db.loans[i], row, LoanDays(h.days[row.item]))
  }

  /** Every fine charged since the start was charged by the return of its loan, and no loan is fined twice. */
  ghost predicate FinesInv(db: Tables, h: History) {
    && |h.origin| == |db.loans|
    && (forall f :: IsRow(f, db.fines) && f >= h.oldFines ==> FineInv(db, h, f))
    && (forall f, g :: IsRow(f, db.fines) && IsRow(g, db.fines) && h.oldFines <= f < g
         ==> db.fines[f].loan != db.fines[g].loan)
  }

  ghost predicate FineInv(db: Tables, h: History, f: int)
    requires |h.origin| == |db.loans| && IsRow(f, db.fines)
  {
    var fine := db.fines[f];
    && IsRow(fine.loan, db.loans) && h.origin[fine.loan].how == ByReturn
    && var row := db.loans[fine.loan];
       row.checkin.Some? && fine.patron == row.patron
         && fine.amount == FineFor(row.due, row.checkin.value, FINE_PER_DAY) > 0
       && fine.created == row.checkin.value && !fine.paid
  }

  /** A hold created before another hold's call began is ahead of it, and is never passed over. */
  ghost predicate HoldsInv(db: Tables, h: History) {
    && |h.seen| == |db.holds|
    && (forall b :: IsRow(b, db.holds) ==> h.seen[b] <= b)
    && (forall a, b ::
          IsRow(a, db.holds) && IsRow(b, db.holds) && a < h.seen[b] && db.holds[a].biblio == db.holds[b].biblio ==>
          db.holds[a].pos < db.holds[b].pos && !(db.holds[b].status == Fulfilled && db.holds[a].status == Waiting))
  }

  function Cap(h: History, p: int): int {
    if p in h.everVip then MAX_ACTIVE_LOANS * 2 else MAX_ACTIVE_LOANS
  }

  ghost predicate LimitInv(db: Tables, h: History) {
    && (forall p :: p in db.patrons && db.patrons[p].vip ==> p in h.everVip)
    && (forall p :: ActiveLoans(db.loans, p) <= Cap(h, p))
  }

  ghost predicate TablesInv(db: Tables, h: History) {
    ItemsInv(db) && DaysInv(db, h) && LoansInv(db, h) && FinesInv(db, h) && HoldsInv(db, h) && LimitInv(db, h)
  }

  // ---- Calls in flight ----

  predicate SameTerms(a: Loan, b: Loan) {
    a.item == b.item && a.patron == b.patron && a.checkout == b.checkout && a.due == b.due && a.renewals == b.renewals
  }

  /** A call holding a patron's lock, from taking it to releasing it. */
  function LockOf(k: Call): Option<int> {
    match k
    case BorrowLocked(p, _) => Some(p)
    case BorrowPatron(p, _) => Some(p)
    case BorrowItem(p, _, _) => Some(p)
    case BorrowCounted(p, _, _, _) => Some(p)
    case BorrowReady(p, _, _) => Some(p)
    case BorrowCommitted(p, _) => Some(p)
    case _ => None
  }

  ghost predicate KnowsPeriod(h: History, item: int, days: int) {
    item in h.days && days == LoanDays(h.days[item])
  }

  /** The row a renewal read earlier still tells the loan's terms, however stale it is. */
  ghost predicate KnowsLoan(db: Tables, loan: int, row: Loan) {
    IsRow(loan, db.loans) && SameTerms(row, db.loans[loan])
  }

  ghost predicate AboveSeen(db: Tables, biblio: int, pos: int, seen: int) {
    && 0 <= seen <= |db.holds|
    && forall a :: 0 <= a < seen && db.holds[a].biblio == biblio ==> db.holds[a].pos < pos
  }

  ghost predicate CallInv(db: Tables, h: History, k: Call) {
    match k
    case BorrowItem(_, i, days) => KnowsPeriod(h, i, days)
    case BorrowCounted(p, i, days, count) => KnowsPeriod(h, i, days) && ActiveLoans(db.loans, p) <= count
    case BorrowReady(p, i, days) => KnowsPeriod(h, i, days) && ActiveLoans(db.loans, p) < Cap(h, p)
    case RenewRead(l, row) => KnowsLoan(db, l, row)
    case RenewCopy(l, row, _) => KnowsLoan(db, l, row) && row.renewals < MAX_RENEWALS
    case RenewQueue(l, row) => KnowsLoan(db, l, row) && row.renewals < MAX_RENEWALS
    case RenewReady(l, row, days) => KnowsLoan(db, l, row) && row.renewals < MAX_RENEWALS
      && KnowsPeriod(h, row.item, days)
    case HoldStart(_, _, seen) => 0 <= seen <= |db.holds|
    case HoldPatron(_, _, seen) => 0 <= seen <= |db.holds|
    case HoldBook(_, _, seen) => 0 <= seen <= |db.holds|
    case HoldCopies(_, _, seen) => 0 <= seen <= |db.holds|
    case HoldReady(_, _, seen) => 0 <= seen <= |db.holds|
    case HoldNumbered(_, b, pos, seen) => AboveSeen(db, b, pos, seen)
    case HoldDone(x, seen) => IsRow(x, h.seen) && h.seen[x] == seen
    case _ => true
  }

  ghost predicate LocksInv(s: State) {
    && (forall p :: p in s.locks ==> IsRow(s.locks[p], s.calls) && LockOf(s.calls[s.locks[p]]) == Some(p))
    && (forall c :: IsRow(c, s.calls) && LockOf(s.calls[c]).Some? ==>
          LockOf(s.calls[c]).value in s.locks && s.locks[LockOf(s.calls[c]).value] == c)
  }

  /** The calls that closed loan `l`, by return or by renewal. */
  function Closed(k: Call): Option<int> {
    match k
    case Done(Returned(l)) => Some(l)
    case Done(Renewed(l, _)) => Some(l)
    case RenewCommitted(l, _) => Some(l)
    case _ => None
  }

  function Closes(l: int): Call -> int {
    (k: Call) => if Closed(k) == Some(l) then 1 else 0
  }

  predicate ClosedHere(h: History, l: int) {
    IsRow(l, h.origin) && (h.origin[l].how == ByReturn || h.origin[l].how == ByRenewal)
  }

  /** A loan closed since the start was closed by exactly one call, any other loan by none. */
  ghost predicate WinnersInv(s: State) {
    forall l :: Sum(s.calls, Closes(l)) == if ClosedHere(s.hist, l) then 1 else 0
  }

  ghost predicate CallsInv(s: State) {
    forall c :: IsRow(c, s.calls) ==> CallInv(s.db, s.hist, s.calls[c])
  }

  ghost predicate Inv(s: State) {
    TablesInv(s.db, s.hist) && CallsInv(s) && LocksInv(s) && WinnersInv(s)
  }

  // ---- Rely: what one step may do to what another call knows ----

  ghost predicate LoansGrow(a: seq<Loan>, b: seq<Loan>) {
    |a| <= |b| && forall j :: 0 <= j < |a| ==> SameTerms(a[j], b[j]) && (b[j].active ==> a[j].active)
  }

  ghost predicate HoldsGrow(a: seq<Hold>, b: seq<Hold>) {
    |a| <= |b| && forall j :: 0 <= j < |a| ==> a[j].biblio == b[j].biblio && a[j].pos == b[j].pos
  }

  ghost predicate HistoryGrows(a: History, b: History) {
    && a.everVip <= b.everVip && a.seen <= b.seen
    && forall i :: i in a.days ==> i in b.days && a.days[i] == b.days[i]
  }

  ghost predicate Grows(a: Tables, ah: History, b: Tables, bh: History) {
    LoansGrow(a.loans, b.loans) && HoldsGrow(a.holds, b.holds) && HistoryGrows(ah, bh)
  }

  /** Everything a call knows survives the steps of others, if nobody lends to a patron whose lock it holds. */
  lemma CallStable(a: Tables, ah: History, b: Tables, bh: History, k: Call)
    requires CallInv(a, ah, k) && Grows(a, ah, b, bh)
    requires LockOf(k).Some? ==> ActiveLoans(b.loans, LockOf(k).value) <= ActiveLoans(a.loans, LockOf(k).value)
    ensures CallInv(b, bh, k)
  {
  }

  // ---- Steps that change no table ----

  lemma WinnersAt(s: State, c: int, k: Call)
    requires IsRow(c, s.calls) && WinnersInv(s) && Closed(k) == Closed(s.calls[c])
    ensures WinnersInv(At(s, c, k))
  {
    forall l ensures Sum(s.calls[c := k], Closes(l)) == Sum(s.calls, Closes(l)) {
      SumUpdate(s.calls, c, k, Closes(l));
    }
  }

  lemma MoveKeeps(s: State, c: int, k: Call)
    requires Inv(s) && IsRow(c, s.calls) && CallInv(s.db, s.hist, k)
    requires LockOf(k) == LockOf(s.calls[c]) && Closed(k) == Closed(s.calls[c])
    ensures Inv(At(s, c, k))
  {
    WinnersAt(s, c, k);
  }

  lemma LockKeeps(s: State, c: int, k: Call, p: int)
    requires Inv(s) && IsRow(c, s.calls) && CallInv(s.db, s.hist, k)
    requires LockOf(s.calls[c]).None? && Closed(s.calls[c]).None? && Closed(k).None?
    requires p !in s.locks && LockOf(k) == Some(p)
    ensures Inv(At(s.(locks := s.locks[p := c]), c, k))
  {
    WinnersAt(s, c, k);
  }

  lemma LeaveKeeps(s: State, c: int, p: int, outcome: Outcome)
    requires Inv(s) && IsRow(c, s.calls) && LockOf(s.calls[c]) == Some(p)
    requires Closed(Done(outcome)).None?
    ensures Inv(Leave(s, c, p, outcome))
  {
    WinnersAt(s, c, Done(outcome));
  }
}
