/**
 The due-date reminder scan. It may run at any hour and any number of times; a loan is
 told once that it is due and once that it is overdue.
 */
module Reminders {
  import opened Dates
  import opened Library
  import opened StableSort
  import opened Sums
  import opened Wrappers

  datatype Kind = DueToday | PastDue | HoldReady | FineCharged

  /** Only the scan's notices refer to a loan; the others carry no reference. */
  datatype Notice = Notice(patron: int, kind: Kind, ref: Option<int>)

  datatype DueLoan = DueLoan(loan: int, patron: int, due: string, overdue: bool)

  // ---- The query ----

  /** An active loan due today or before, of a copy and a book that still exist. */
  predicate IsDue(db: Tables, l: int, today: string) {
    && IsRow(l, db.loans) && db.loans[l].active && !Less(today, db.loans[l].due)
    && db.loans[l].item in db.items && db.items[db.loans[l].item].biblio in db.biblios
  }

  function RowFor(db: Tables, l: int, today: string): DueLoan
    requires IsRow(l, db.loans)
  {
    DueLoan(l, db.loans[l].patron, db.loans[l].due, Less(db.loans[l].due, today))
  }

  function DueRows(db: Tables, today: string, n: nat): seq<DueLoan>
    requires n <= |db.loans|
  {
    if n == 0 then []
    else DueRows(db, today, n - 1) + (if IsDue(db, n - 1, today) then [RowFor(db, n - 1, today)] else [])
  }

  function EarlierDue(): (DueLoan, DueLoan) -> bool { (a: DueLoan, b: DueLoan) => Less(a.due, b.due) }

  function LoanOf(): DueLoan -> int { (r: DueLoan) => r.loan }

  function DueLoansOn(db: Tables, today: string): seq<DueLoan> { Sorted(DueRows(db, today, |db.loans|), EarlierDue()) }

  ghost predicate DueExactly(db: Tables, today: string, rows: seq<DueLoan>) {
    && (forall r :: r in rows ==> IsDue(db, r.loan, today) && r == RowFor(db, r.loan, today))
    && (forall l :: IsDue(db, l, today) ==> RowFor(db, l, today) in rows)
  }

  lemma {:induction false} DueRowsAre(db: Tables, today: string, n: nat)
    requires n <= |db.loans|
    ensures forall r ::
        r in DueRows(db, today, n) ==> r.loan < n && IsDue(db, r.loan, today) && r == RowFor(db, r.loan, today)
    ensures forall l :: l < n && IsDue(db, l, today) ==> RowFor(db, l, today) in DueRows(db, today, n)
    ensures DistinctBy(DueRows(db, today, n), LoanOf())
  {
    hide Less;
    if n > 0 {
      DueRowsAre(db, today, n - 1);
      var front := DueRows(db, today, n - 1);
      forall i | 0 <= i < |front| ensures front[i].loan < n - 1 { assert front[i] in front; }
    }
  }

  lemma DueOrder()
    ensures WeakOrder(EarlierDue())
  {
    hide Less;
    forall a, b | EarlierDue()(a, b) ensures !EarlierDue()(b, a) { LessTotal(a.due, b.due); }
    forall a, b, c | EarlierDue()(a, c) ensures EarlierDue()(a, b) || EarlierDue()(b, c) {
      LessTotal(a.due, b.due);
      LessTotal(b.due, c.due);
      LessTransitive(b.due, a.due, c.due);
    }
  }

  /** A listing the query may answer with: loans with equal due dates come in any order. */
  ghost predicate Listing(db: Tables, today: string, rows: seq<DueLoan>) {
    && DueExactly(db, today, rows) && DistinctBy(rows, LoanOf())
    && forall i, j :: 0 <= i < j < |rows| ==> !Less(rows[j].due, rows[i].due)
  }

  /** The query lists exactly the due loans, each once, in order of due date. */
  lemma DueLoansAre(db: Tables, today: string)
    ensures Listing(db, today, DueLoansOn(db, today))
  {
    hide Less, IsDue, Sorted, WeakOrder;
    var rows := DueRows(db, today, |db.loans|);
    DueRowsAre(db, today, |db.loans|);
    DueOrder();
    SortedIsStableSort(rows, EarlierDue());
    PermutationKeepsDistinct(rows, Sorted(rows, EarlierDue()), LoanOf());
    forall r ensures r in Sorted(rows, EarlierDue()) <==> r in rows {
      assert r in multiset(Sorted(rows, EarlierDue())) <==> r in multiset(rows);
    }
    forall l | IsDue(db, l, today) ensures l < |db.loans| { DueIsRow(db, l, today); }
  }

  lemma DueIsRow(db: Tables, l: int, today: string)
    requires IsDue(db, l, today)
    ensures IsRow(l, db.loans)
  {
  }

  // ---- The scan ----

  function KindOf(r: DueLoan): Kind { if r.overdue then PastDue else DueToday }

  function About(kind: Kind,
      ref: int): Notice -> int { (n: Notice) => if n.kind == kind && n.ref == Some(ref) then 1 else 0 }

  function Told(notes: seq<Notice>, kind: Kind, ref: int): int { Sum(notes, About(kind, ref)) }

  /** The notices after a scan: those from before stay, in front. */
  function Remind(notes: seq<Notice>, rows: seq<DueLoan>): (after: seq<Notice>)
    ensures notes <= after
  {
    if rows == [] then notes
    else
      var before, r := Remind(notes, rows[..|rows| - 1]), rows[|rows| - 1];
      if Told(before, KindOf(r), r.loan) > 0 then before else before + [Notice(r.patron, KindOf(r), Some(r.loan))]
  }

  /** `DueLoans`: the listing, in some order of equal due dates. */
  method DueLoans(db: Tables, today: string) returns (due: seq<DueLoan>)
    ensures Listing(db, today, due)
  {
    hide DueExactly;
    DueLoansAre(db, today);
    due := DueLoansOn(db, today);
  }

  class ReminderTask {
    var notes: seq<Notice>

    constructor ()
      ensures notes == []
    {
      notes := [];
    }

    /** `NotificationExistsByRef`. */
    method Exists(kind: Kind, ref: int) returns (found: bool)
      ensures found <==> Told(notes, kind, ref) > 0
    {
      var n := 0;
      for i := 0 to |notes|
        invariant n == Told(notes[..i], kind, ref)
      {
        assert notes[..i + 1][..i] == notes[..i];
        if notes[i].kind == kind && notes[i].ref == Some(ref) { n := n + 1; }
      }
      assert notes[..|notes|] == notes;
      return n > 0;
    }

    /** `CheckDueLoansNow`, over whichever listing the query answers with. */
    method CheckDueLoansNow(db: Tables, today: string)
      modifies this
      ensures exists due :: Listing(db, today, due) && notes == Remind(old(notes), due)
    {
      hide Told, Listing;
      var due := DueLoans(db, today);
      for i := 0 to |due|
        invariant notes == Remind(old(notes), due[..i])
      {
        assert due[..i + 1][..i] == due[..i];
        var kind := DueToday;
        if due[i].overdue { kind := PastDue; }
        var found := Exists(kind, due[i].loan);
        if found { continue; }
        notes := notes + [Notice(due[i].patron, kind, Some(due[i].loan))];
      }
      assert due[..|due|] == due;
    }
  }

  predicate Calls(rows: seq<DueLoan>, kind: Kind, ref: int) {
    exists i :: 0 <= i < |rows| && rows[i].loan == ref && KindOf(rows[i]) == kind
  }

  lemma CallsLast(rows: seq<DueLoan>, kind: Kind, ref: int)
    requires rows != []
    ensures var n := |rows| - 1;
            Calls(rows, kind, ref) <==> Calls(rows[..n], kind, ref) || (rows[n].loan == ref && KindOf(rows[n]) == kind)
  {
    var n := |rows| - 1;
    if Calls(rows[..n], kind, ref) {
      var i :| 0 <= i < n && rows[..n][i].loan == ref && KindOf(rows[..n][i]) == kind;
      assert rows[i].loan == ref;
    }
  }

  /** A scan adds one notice for each due loan not yet told of its kind, and changes nothing else. */
  lemma {:induction false} RemindTells(notes: seq<Notice>, rows: seq<DueLoan>, kind: Kind, ref: int)
    ensures Told(Remind(notes, rows), kind, ref)
         == if Calls(rows, kind, ref) && Told(notes, kind, ref) <= 0 then Told(notes, kind, ref) + 1
           else Told(notes, kind, ref)
  {
    hide Calls;
    if rows == [] {
      NoCalls(kind, ref);
    } else {
      var n := |rows| - 1;
      var before, r := Remind(notes, rows[..n]), rows[n];
      RemindTells(notes, rows[..n], kind, ref);
      CallsLast(rows, kind, ref);
      SumAppend(before, Notice(r.patron, KindOf(r), Some(r.loan)), About(kind, ref));
      SumNonNegative(notes, About(kind, ref));
    }
  }

  lemma NoCalls(kind: Kind, ref: int)
    ensures !Calls([], kind, ref)
  {
  }

  lemma CallsIffDue(db: Tables, today: string, rows: seq<DueLoan>, kind: Kind, l: int)
    requires DueExactly(db, today, rows)
    ensures Calls(rows, kind, l)
        <==> IsDue(db, l, today) && kind == (if Less(db.loans[l].due, today) then PastDue else DueToday)
  {
    hide Less, IsDue;
    if IsDue(db, l, today) {
      DueIsRow(db, l, today);
      var i :| 0 <= i < |rows| && rows[i] == RowFor(db, l, today);
      forall j | 0 <= j < |rows| && rows[j].loan == l
        ensures rows[j] == RowFor(db, l, today)
      {
        assert rows[j] in rows;
      }
    } else {
      forall i | 0 <= i < |rows| ensures IsDue(db, rows[i].loan, today) { assert rows[i] in rows; }
    }
  }

  // ---- To whom a notice goes ----

  /** A notice to the borrower about an active loan due today, or past due, of a catalogued copy. */
  predicate Reminds(n: Notice, db: Tables, today: string, l: int) {
    && IsRow(l, db.loans) && db.loans[l].active && !Less(today, db.loans[l].due)
    && db.loans[l].item in db.items && db.items[db.loans[l].item].biblio in db.biblios
    && n == Notice(db.loans[l].patron, if Less(db.loans[l].due, today) then PastDue else DueToday, Some(l))
  }

  /** The notices a scan adds. */
  function Sent(notes: seq<Notice>, rows: seq<DueLoan>): seq<Notice> { Remind(notes, rows)[|notes|..] }

  /** A scan only adds notices, and every one of them goes to the borrower of a due loan. */
  lemma {:induction false} SentToBorrowers(db: Tables, today: string, rows: seq<DueLoan>, notes: seq<Notice>)
    requires forall r :: r in rows ==> IsDue(db, r.loan, today) && r == RowFor(db, r.loan, today)
    ensures Remind(notes, rows) == notes + Sent(notes, rows)
    ensures forall n :: n in Sent(notes, rows) ==> Reminds(n, db, today, RefOf(n))
  {
    hide Told, Less;
    if rows != [] {
      var n := |rows| - 1;
      SentToBorrowers(db, today, rows[..n], notes);
      assert rows[n] in rows;
      var before, after := Remind(notes, rows[..n]), Remind(notes, rows);
      assert after == before || after == before + [after[|before|]];
      assert Sent(notes, rows) == Sent(notes, rows[..n]) + after[|before|..];
    }
  }

  /** The loan a notice is about. */
  function RefOf(n: Notice): int { if n.ref.Some? then n.ref.value else -1 }

  /** A scan after which more notices tell of a loan has told its borrower. */
  lemma TellsTheBorrower(db: Tables, today: string, rows: seq<DueLoan>, notes: seq<Notice>, kind: Kind, l: int)
    requires forall r :: r in rows ==> IsDue(db, r.loan, today) && r == RowFor(db, r.loan, today)
    requires IsRow(l, db.loans) && Told(Remind(notes, rows), kind, l) > Told(notes, kind, l)
    ensures Notice(db.loans[l].patron, kind, Some(l)) in Sent(notes, rows)
  {
    hide Remind, Less, IsDue, Sent;
    SentToBorrowers(db, today, rows, notes);
    var sent := Sent(notes, rows);
    SumConcat(notes, sent, About(kind, l));
    if forall n :: n in sent ==> About(kind, l)(n) == 0 { SumZero(sent, About(kind, l)); }
  }

  ghost predicate AtMostOnce(notes: seq<Notice>, kind: Kind) { forall l :: Told(notes, kind, l) <= 1 }

  /**
   After a scan every due loan has exactly one notice of the right kind: of being due if its
   due date is today, of being overdue if it is past.
   */
  lemma ScanTellsEveryDueLoan(db: Tables, today: string, rows: seq<DueLoan>, notes: seq<Notice>, l: int)
    requires Listing(db, today, rows) && AtMostOnce(notes, DueToday) && AtMostOnce(notes, PastDue)
    requires IsDue(db, l, today)
    ensures db.loans[l].due == today || Less(db.loans[l].due, today)
    ensures var kind := if db.loans[l].due == today then DueToday else PastDue;
            && Told(Remind(notes, rows), kind, l) == 1
            && (Told(notes, kind, l) == 0 ==>
                  Notice(db.loans[l].patron, kind, Some(l)) in Sent(notes, rows))
  {
    hide Told, Remind, Less, DueExactly;
    var kind := if db.loans[l].due == today then DueToday else PastDue;
    LessTotal(db.loans[l].due, today);
    CallsIffDue(db, today, rows, kind, l);
    RemindTells(notes, rows, kind, l);
    ToldNotNegative(notes, kind, l);
    if Told(notes, kind, l) == 0 {
      ListedAreDue(db, today, rows);
      TellsTheBorrower(db, today, rows, notes, kind, l);
    }
  }

  lemma ListedAreDue(db: Tables, today: string, rows: seq<DueLoan>)
    requires DueExactly(db, today, rows)
    ensures forall r :: r in rows ==> IsDue(db, r.loan, today) && r == RowFor(db, r.loan, today)
  {
  }

  lemma ToldNotNegative(notes: seq<Notice>, kind: Kind, l: int)
    ensures Told(notes, kind, l) >= 0
  {
    SumNonNegative(notes, About(kind, l));
  }

  /** A scan adds nothing about a loan that is not due. */
  lemma ScanTellsOnlyDueLoans(db: Tables, today: string, rows: seq<DueLoan>, notes: seq<Notice>, kind: Kind, l: int)
    requires Listing(db, today, rows) && !IsDue(db, l, today)
    ensures Told(Remind(notes, rows), kind, l) == Told(notes, kind, l)
  {
    hide Told, Remind, IsDue, DueExactly;
    CallsIffDue(db, today, rows, kind, l);
    RemindTells(notes, rows, kind, l);
  }

  /** Scanning the same loans on the same day again adds nothing, even if the query lists ties in another order. */
  lemma RescanAddsNothing(db: Tables, today: string, rows: seq<DueLoan>, again: seq<DueLoan>, notes: seq<Notice>)
    requires Listing(db, today, rows) && Listing(db, today, again)
    ensures var once := Remind(notes, rows); Remind(once, again) == once
  {
    hide Told, DueExactly, Remind;
    var once := Remind(notes, rows);
    forall i | 0 <= i < |again| ensures Told(once, KindOf(again[i]), again[i].loan) > 0 {
      var kind, l := KindOf(again[i]), again[i].loan;
      assert Calls(again, kind, l);
      CallsIffDue(db, today, again, kind, l);
      CallsIffDue(db, today, rows, kind, l);
      RemindTells(notes, rows, kind, l);
      ToldNotNegative(notes, kind, l);
    }
    NothingLeft(once, again);
  }

  lemma {:induction false} NothingLeft(notes: seq<Notice>, rows: seq<DueLoan>)
    requires forall i :: 0 <= i < |rows| ==> Told(notes, KindOf(rows[i]), rows[i].loan) > 0
    ensures Remind(notes, rows) == notes
  {
    hide Told;
    if rows != [] { NothingLeft(notes, rows[..|rows| - 1]); }
  }

  // ---- Whole runs ----

  /** Scans of any listings, and the service's other notices in between. */
  datatype Event = Scan(due: seq<DueLoan>) | Send(patron: int, kind: Kind)

  function Handle(notes: seq<Notice>, e: Event): seq<Notice> {
    match e
    case Scan(due) => Remind(notes, due)
    case Send(p, kind) => notes + [Notice(p, kind, None)]
  }

  function HandleAll(notes: seq<Notice>, events: seq<Event>): seq<Notice> {
    if events == [] then notes else Handle(HandleAll(notes, events[..|events| - 1]), events[|events| - 1])
  }

  lemma SendTellsNothing(notes: seq<Notice>, p: int, k: Kind, kind: Kind, l: int)
    ensures Told(notes + [Notice(p, k, None)], kind, l) == Told(notes, kind, l)
  {
    SumAppend(notes, Notice(p, k, None), About(kind, l));
  }

  lemma HandleKeeps(notes: seq<Notice>, e: Event, kind: Kind)
    requires AtMostOnce(notes, kind)
    ensures AtMostOnce(Handle(notes, e), kind)
  {
    hide Calls, Told, Remind;
    forall l ensures Told(Handle(notes, e), kind, l) <= 1 {
      assert Told(notes, kind, l) <= 1;
      match e {
        case Scan(due) => RemindTells(notes, due, kind, l);
        case Send(p, k) => SendTellsNothing(notes, p, k, kind, l);
      }
    }
  }

  /** Over any run a loan is told at most once that it is due and at most once that it is overdue. */
  lemma {:induction false} ToldAtMostOnce(notes: seq<Notice>, events: seq<Event>)
    requires AtMostOnce(notes, DueToday) && AtMostOnce(notes, PastDue)
    ensures AtMostOnce(HandleAll(notes, events), DueToday) && AtMostOnce(HandleAll(notes, events), PastDue)
  {
    hide AtMostOnce, Handle;
    if events != [] {
      var n := |events| - 1;
      ToldAtMostOnce(notes, events[..n]);
      HandleKeeps(HandleAll(notes, events[..n]), events[n], DueToday);
      HandleKeeps(HandleAll(notes, events[..n]), events[n], PastDue);
    }
  }
}
