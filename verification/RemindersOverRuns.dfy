/** The reminder scan over the tables that runs of the circulation service produce. */
module RemindersOverRuns {
  import opened Circulation
  import opened CirculationInvariant
  import opened CirculationTheorems
  import opened Dates
  import opened Library
  import opened LibraryService
  import opened Reminders
  import opened Sums
  import opened Wrappers

  function DueKind(due: string, today: string): Kind { if due == today then DueToday else PastDue }

  lemma CopyExists(s: State, actions: seq<Action>, l: int)
    requires Inv(s) && IsRow(l, Run(s, actions).db.loans) && Run(s, actions).db.loans[l].active
    ensures Run(s, actions).db.loans[l].item in Run(s, actions).db.items
  {
    hide Run, Inv, LibraryStats, AllActive;
    CopiesMatchLoans(s, actions);
  }

  /**
   In every state of every run, after a scan an active loan due by today has exactly one notice of
   the right kind if and only if its copy's book is catalogued, or the notice was there before; if it
   is new, it goes to the borrower. The copy always exists.
   */
  lemma ToldIffBookIsCatalogued(s: State, actions: seq<Action>, today: string, due: seq<DueLoan>, notes: seq<Notice>,
      l: int)
    requires Inv(s) && Listing(Run(s, actions).db, today, due) && AtMostOnce(notes, DueToday)
    requires AtMostOnce(notes, PastDue)
    requires var db := Run(s, actions).db; IsRow(l, db.loans) && db.loans[l].active && !Less(today, db.loans[l].due)
    ensures var db := Run(s, actions).db;
            var kind := DueKind(db.loans[l].due, today);
            && db.loans[l].item in db.items
            && (Told(Remind(notes, due), kind, l) == 1
                <==> db.items[db.loans[l].item].biblio in db.biblios || Told(notes, kind, l) == 1)
            && (db.items[db.loans[l].item].biblio in db.biblios && Told(notes, kind, l) == 0 ==>
                  Notice(db.loans[l].patron, kind, Some(l)) in Sent(notes, due))
  {
    hide Run, Inv, Told, Remind, Sent, Listing, Less, AtMostOnce;
    CopyExists(s, actions, l);
    var db := Run(s, actions).db;
    if IsDue(db, l, today) {
      ScanTellsEveryDueLoan(db, today, due, notes, l);
    } else {
      ScanTellsOnlyDueLoans(db, today, due, notes, DueKind(db.loans[l].due, today), l);
    }
  }

  // ---- Scans while the service runs ----

  /** A step of the circulation service, a scan of the tables as they are, or another notice. */
  datatype Event = Act(action: Action) | Scan(today: string, due: seq<DueLoan>) | Send(patron: int, kind: Kind)

  datatype Office = Office(service: State, notes: seq<Notice>)

  function Handle(o: Office, e: Event): Office {
    match e
    case Act(a) => o.(service := Apply(o.service, a))
    case Scan(_, due) => o.(notes := Remind(o.notes, due))
    case Send(p, kind) => o.(notes := o.notes + [Notice(p, kind, None)])
  }

  function HandleAll(o: Office, events: seq<Event>): Office {
    if events == [] then o else Handle(HandleAll(o, events[..|events| - 1]), events[|events| - 1])
  }

  /** Every scan sees what the query answers at that moment. */
  ghost predicate ScansSeeTables(o: Office, events: seq<Event>) {
    events == [] ||
    (var n := |events| - 1;
     && ScansSeeTables(o, events[..n])
     && (events[n].Scan? ==> Listing(HandleAll(o, events[..n]).service.db, events[n].today, events[n].due)))
  }

  /** Every notice that refers to a loan is addressed to its borrower. */
  predicate Addressed(notes: seq<Notice>, loans: seq<Loan>) {
    forall i :: 0 <= i < |notes| && notes[i].ref.Some? ==> ToBorrower(notes[i], loans)
  }

  predicate ToBorrower(n: Notice, loans: seq<Loan>) {
    n.ref.Some? && IsRow(n.ref.value, loans) && n.patron == loans[n.ref.value].patron
  }

  ghost predicate SameBorrowers(a: seq<Loan>, b: seq<Loan>) {
    |a| <= |b| && forall l :: IsRow(l, a) ==> b[l].patron == a[l].patron
  }

  lemma LendingSame(s: State, c: int, today: string)
    requires IsRow(c, s.calls)
    ensures SameBorrowers(s.db.loans, AdvanceBorrow(s, c, today).db.loans)
    ensures SameBorrowers(s.db.loans, AdvanceRenew(s, c, today).db.loans)
  {
    hide ActiveLoans, LimitFor, Less, AddDays, LoanDays, FirstWaiting;
  }

  lemma OthersSame(s: State, c: int, today: string)
    requires IsRow(c, s.calls)
    ensures AdvanceHold(s, c, today).db.loans == AdvanceDelete(s, c).db.loans == s.db.loans
    ensures s.calls[c].ReturnStart? ==> SameBorrowers(s.db.loans, CommitReturn(s, c, s.calls[c].loan, today).db.loans)
  {
    hide ActiveOn, HasAvailable, AlreadyWaiting, NextPos, FineFor, WithFine, Released, Woken, WokenPatron;
  }

  lemma ApplySameBorrowers(s: State, a: Action)
    ensures SameBorrowers(s.db.loans, Apply(s, a).db.loans)
  {
    hide AdvanceBorrow, AdvanceRenew, AdvanceHold, AdvanceDelete, CommitReturn;
    if a.Step? && IsRow(a.call, s.calls) {
      LendingSame(s, a.call, a.today);
      OthersSame(s, a.call, a.today);
    }
  }

  lemma AddressedLater(notes: seq<Notice>, a: seq<Loan>, b: seq<Loan>)
    requires Addressed(notes, a) && SameBorrowers(a, b)
    ensures Addressed(notes, b)
  {
  }

  lemma ScanAddresses(db: Tables, today: string, due: seq<DueLoan>, notes: seq<Notice>)
    requires Addressed(notes, db.loans) && Listing(db, today, due)
    ensures Addressed(Remind(notes, due), db.loans)
  {
    hide Remind, Sent, Less;
    ListedAreDue(db, today, due);
    SentToBorrowers(db, today, due, notes);
    var sent := Sent(notes, due);
    forall i | 0 <= i < |sent| && sent[i].ref.Some? ensures ToBorrower(sent[i], db.loans) {
      assert Reminds(sent[i], db, today, RefOf(sent[i]));
    }
    AddressedTogether(notes, sent, db.loans);
  }

  lemma AddressedTogether(a: seq<Notice>, b: seq<Notice>, loans: seq<Loan>)
    requires Addressed(a, loans) && Addressed(b, loans)
    ensures Addressed(a + b, loans)
  {
    hide ToBorrower;
  }

  /**
   However the service's steps, the scans and the other notices interleave, every notice about a
   loan is addressed to the patron who borrowed it, if it was so at the start.
   */
  lemma {:induction false} NoticesReachBorrowers(o: Office, events: seq<Event>)
    requires Addressed(o.notes, o.service.db.loans) && ScansSeeTables(o, events)
    ensures Addressed(HandleAll(o, events).notes, HandleAll(o, events).service.db.loans)
  {
    hide Addressed, Apply, Remind, Listing;
    if events != [] {
      var n := |events| - 1;
      NoticesReachBorrowers(o, events[..n]);
      var before := HandleAll(o, events[..n]);
      match events[n] {
        case Act(a) =>
          ApplySameBorrowers(before.service, a);
          AddressedLater(before.notes, before.service.db.loans, Apply(before.service, a).db.loans);
        case Scan(today, due) => ScanAddresses(before.service.db, today, due, before.notes);
        case Send(p, kind) =>
          SentWithoutLoan(p, kind, before.service.db.loans);
          AddressedTogether(before.notes, [Notice(p, kind, None)], before.service.db.loans);
      }
    }
  }

  lemma SentWithoutLoan(p: int, kind: Kind, loans: seq<Loan>)
    ensures Addressed([Notice(p, kind, None)], loans)
  {
  }

  // ---- A loan that is never told ----

  const LEND_DATE := "2024-01-01"

  /** One patron and an empty catalogue. */
  function Bare(): Tables { Tables(map[1 := Patron(false, false)], {}, map[], 0, [], [], []) }

  function WithUncataloguedCopy(): State { Apply(State(Bare(), map[], [], FreshHistory(Bare())), AddCopy(99, 14)) }

  function LendIt(): seq<Action> { [AddCopy(99, 14)] + [Begin(Request.Borrow(1, 0))] + Steps(0, 7, LEND_DATE) }

  lemma LendItRuns()
    ensures Run(State(Bare(), map[], [], FreshHistory(Bare())), LendIt()).db
        == BorrowCall(WithUncataloguedCopy().db, 1, 0, LEND_DATE).1
  {
    hide Apply, BorrowCall, FreshHistory;
    var s0 := State(Bare(), map[], [], FreshHistory(Bare()));
    var s1 := WithUncataloguedCopy();
    var s2 := Apply(s1, Begin(Request.Borrow(1, 0)));
    assert [AddCopy(99, 14)][..0] == [] && [Begin(Request.Borrow(1, 0))][..0] == [];
    assert Run(s0, [AddCopy(99, 14)]) == s1 && Run(s1, [Begin(Request.Borrow(1, 0))]) == s2;
    RunConcat(s0, [AddCopy(99, 14)], [Begin(Request.Borrow(1, 0))]);
    RunConcat(s0, [AddCopy(99, 14)] + [Begin(Request.Borrow(1, 0))], Steps(0, 7, LEND_DATE));
    AloneIsRun(s2, 0, 7, LEND_DATE);
    NothingInFlight();
    BorrowAlone(s1, 1, 0, LEND_DATE);
  }

  lemma NothingInFlight()
    ensures WithUncataloguedCopy().calls == [] && WithUncataloguedCopy().locks == map[]
    ensures WithUncataloguedCopy().db == Bare().(items := map[0 := Item(99, Available, 14)], nextItem := 1)
  {
  }

  /** A copy of a book that is not in the catalogue can be lent, and its loan is never told that it is due. */
  lemma LoanOfUncataloguedBook()
    ensures var s := State(Bare(), map[], [], FreshHistory(Bare()));
            var db := Run(s, LendIt()).db;
            && Start(s) && |db.loans| == 1 && db.loans[0].active && db.loans[0].patron == 1
            && forall due :: Listing(db, db.loans[0].due, due) ==> Remind([], due) == []
  {
    hide Run, Apply, FreshHistory, Start, AddDays, IsDue;
    FreshLibraryStarts(Bare());
    LendItRuns();
    NothingInFlight();
    var db := BorrowCall(WithUncataloguedCopy().db, 1, 0, LEND_DATE).1;
    assert db.loans == [Loan(0, 1, LEND_DATE, AddDays(LEND_DATE, 14), None, 0, true)];
    NotInCatalogue(db, db.loans[0].due);
  }

  lemma NotInCatalogue(db: Tables, today: string)
    requires db.biblios == {} && |db.loans| == 1
    ensures forall due :: Listing(db, today, due) ==> due == []
  {
    forall due | Listing(db, today, due) ensures due == [] {
      if due != [] { FirstIsListed(due); }
    }
  }

  lemma FirstIsListed(due: seq<DueLoan>)
    requires due != []
    ensures due[0] in due
  {
  }
}
