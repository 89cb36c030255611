/** At most one waiting hold per patron and book, as long as the patron's calls do not overlap. */
module CirculationHolds {
  import opened Circulation
  import opened CirculationTheorems
  import opened Dates
  import opened Library
  import opened LibraryService
  import opened Sums
  import opened Wrappers

  function IsWaiting(p: int, b: int): Hold -> int {
    (h: Hold) => if h.patron == p && h.biblio == b && h.status == Waiting then 1 else 0
  }

  /** How many holds of the patron wait for the book. */
  function WaitingHolds(holds: seq<Hold>, p: int, b: int): int { Sum(holds, IsWaiting(p, b)) }

  function Asks(p: int, b: int): Call -> int {
    (k: Call) => if Holding(k) && k.patron == p && k.biblio == b then 1 else 0
  }

  /** How many calls of the patron for the book are in flight. */
  function InFlight(s: State, p: int, b: int): int { Sum(s.calls, Asks(p, b)) }

  /** No two calls of this patron for this book are in flight at the same time of the run. */
  predicate OneAtATime(s: State, actions: seq<Action>, p: int, b: int) {
    && InFlight(Run(s, actions), p, b) <= 1
    && (actions == [] || OneAtATime(s, actions[..|actions| - 1], p, b))
  }

  /** A call that has found no waiting hold of the patron and will insert one. */
  predicate WillInsert(k: Call, p: int, b: int) {
    (k.HoldReady? || k.HoldNumbered?) && k.patron == p && k.biblio == b
  }

  ghost predicate OneWaits(s: State, p: int, b: int) {
    && WaitingHolds(s.db.holds, p, b) <= 1
    && (forall c :: IsRow(c, s.calls) && WillInsert(s.calls[c], p, b) ==> WaitingHolds(s.db.holds, p, b) <= 0)
  }

  // ---- Counting ----

  lemma NoneWaits(db: Tables, p: int, b: int)
    requires !AlreadyWaiting(db, p, b)
    ensures WaitingHolds(db.holds, p, b) == 0
  {
    forall h | h in db.holds ensures IsWaiting(p, b)(h) == 0 {
      var i :| 0 <= i < |db.holds| && db.holds[i] == h;
      assert !(WaitingFor(db.holds, i, b) && db.holds[i].patron == p);
    }
    SumZero(db.holds, IsWaiting(p, b));
  }

  lemma OneMoreWaits(db: Tables, q: int, c: int, pos: int, today: string, p: int, b: int)
    ensures WaitingHolds(InsertHold(db, q, c, pos, today).holds, p, b)
         == WaitingHolds(db.holds, p, b) + (if q == p && c == b then 1 else 0)
  {
    SumAppend(db.holds, Hold(c, q, None, pos, Waiting, today), IsWaiting(p, b));
  }

  lemma NoMoreWait(holds: seq<Hold>, h: int, row: Hold, p: int, b: int)
    requires IsRow(h, holds) && row.status != Waiting
    ensures WaitingHolds(holds[h := row], p, b) <= WaitingHolds(holds, p, b)
  {
    SumUpdate(holds, h, row, IsWaiting(p, b));
  }

  lemma ReturnWakes(db: Tables, l: int, today: string, p: int, b: int)
    ensures WaitingHolds(ReturnTx(db, l, today, FINE_PER_DAY).1.holds, p, b) <= WaitingHolds(db.holds, p, b)
  {
    hide WaitingHolds, FineFor, WithFine, Released, WokenPatron;
    if IsRow(l, db.loans) && db.loans[l].active && db.loans[l].item in db.items {
      var item := db.loans[l].item;
      match FirstWaiting(db.holds, db.items[item].biblio)
      case None =>
      case Some(h) => NoMoreWait(db.holds, h, db.holds[h].(status := Fulfilled, item := Some(item)), p, b);
    }
  }

  lemma OthersDoNotAsk(s: State, c: int, d: int, p: int, b: int)
    requires IsRow(c, s.calls) && IsRow(d, s.calls) && c != d && InFlight(s, p, b) <= 1 && WillInsert(s.calls[c], p, b)
    ensures !WillInsert(s.calls[d], p, b)
  {
    SumAtLeast(s.calls, c, Asks(p, b));
  }

  // ---- Steps ----

  /** A step of call `c` that adds no hold and does not come to insert one. */
  lemma QuietStep(s: State, t: State, c: int, p: int, b: int)
    requires OneWaits(s, p, b) && IsRow(c, s.calls) && IsRow(c, t.calls) && t.calls == s.calls[c := t.calls[c]]
    requires WaitingHolds(t.db.holds, p, b) <= WaitingHolds(s.db.holds, p, b)
    requires WillInsert(t.calls[c], p, b) ==> WaitingHolds(t.db.holds, p, b) <= 0
    ensures OneWaits(t, p, b)
  {
    hide WaitingHolds, WillInsert;
  }

  lemma CommitStep(s: State, c: int, p: int, b: int, today: string)
    requires OneWaits(s, p, b) && IsRow(c, s.calls) && s.calls[c].HoldNumbered? && InFlight(s, p, b) <= 1
    ensures OneWaits(AdvanceHold(s, c, today), p, b)
  {
    hide WaitingHolds, InFlight, InsertHold;
    var k := s.calls[c];
    var t := AdvanceHold(s, c, today);
    OneMoreWaits(s.db, k.patron, k.biblio, k.pos, today, p, b);
    forall d | IsRow(d, t.calls) && WillInsert(t.calls[d], p, b) ensures WaitingHolds(t.db.holds, p, b) <= 0 {
      if WillInsert(k, p, b) { OthersDoNotAsk(s, c, d, p, b); }
    }
  }

  lemma HoldStep(s: State, c: int, p: int, b: int, today: string)
    requires OneWaits(s, p, b) && IsRow(c, s.calls) && Holding(s.calls[c]) && InFlight(s, p, b) <= 1
    ensures OneWaits(AdvanceHold(s, c, today), p, b)
  {
    hide OneWaits, WaitingHolds, InFlight, HasAvailable, AlreadyWaiting, NextPos, CommitHold;
    var k := s.calls[c];
    if k.HoldNumbered? {
      CommitStep(s, c, p, b, today);
    } else {
      var t := AdvanceHold(s, c, today);
      if k.HoldCopies? && !AlreadyWaiting(s.db, k.patron, k.biblio) { NoneWaits(s.db, k.patron, k.biblio); }
      if k.HoldReady? { StillWillInsert(s, c, p, b); }
      QuietStep(s, t, c, p, b);
    }
  }

  lemma StillWillInsert(s: State, c: int, p: int, b: int)
    requires OneWaits(s, p, b) && IsRow(c, s.calls)
    ensures WillInsert(s.calls[c], p, b) ==> WaitingHolds(s.db.holds, p, b) <= 0
  {
    hide WaitingHolds, WillInsert;
  }

  /** The other calls do not touch holds, except that a return may wake one. */
  lemma OtherStep(s: State, c: int, p: int, b: int, today: string)
    requires OneWaits(s, p, b) && IsRow(c, s.calls) && !Holding(s.calls[c])
    ensures OneWaits(Advance(s, c, today), p, b)
  {
    hide OneWaits, WaitingHolds, AdvanceHold;
    if s.calls[c].ReturnStart? {
      ReturnStep(s, c, s.calls[c].loan, today, p, b);
    } else {
      var t := Advance(s, c, today);
      SameHolds(s, c, today);
      QuietStep(s, t, c, p, b);
    }
  }

  lemma ReturnStep(s: State, c: int, l: int, today: string, p: int, b: int)
    requires OneWaits(s, p, b) && IsRow(c, s.calls)
    ensures OneWaits(CommitReturn(s, c, l, today), p, b)
  {
    hide OneWaits, WaitingHolds, ReturnTx, Close;
    ReturnWakes(s.db, l, today, p, b);
    ReturnFails(s.db, l, today);
    QuietStep(s, CommitReturn(s, c, l, today), c, p, b);
  }

  lemma SameHolds(s: State, c: int, today: string)
    requires IsRow(c, s.calls) && !Holding(s.calls[c]) && !s.calls[c].ReturnStart?
    ensures var t := Advance(s, c, today);
            && t.db.holds == s.db.holds && IsRow(c, t.calls) && t.calls == s.calls[c := t.calls[c]]
            && !Holding(t.calls[c])
  {
    hide AdvanceHold, CommitReturn;
    var k := s.calls[c];
    if Borrowing(k) {
      BorrowSameHolds(s, c, today);
    } else if Renewing(k) {
      RenewSameHolds(s, c, today);
    } else if Deleting(k) {
      DeleteSameHolds(s, c);
    }
    hide AdvanceBorrow, AdvanceRenew, AdvanceDelete;
  }

  lemma BorrowSameHolds(s: State, c: int, today: string)
    requires IsRow(c, s.calls) && Borrowing(s.calls[c])
    ensures var t := AdvanceBorrow(s, c, today);
            && t.db.holds == s.db.holds && IsRow(c, t.calls) && t.calls == s.calls[c := t.calls[c]]
            && !Holding(t.calls[c])
  {
    hide AddDays, ActiveLoans, LimitFor;
  }

  lemma RenewSameHolds(s: State, c: int, today: string)
    requires IsRow(c, s.calls) && Renewing(s.calls[c])
    ensures var t := AdvanceRenew(s, c, today);
            && t.db.holds == s.db.holds && IsRow(c, t.calls) && t.calls == s.calls[c := t.calls[c]]
            && !Holding(t.calls[c])
  {
    hide AddDays, Less, FirstWaiting, Close;
  }

  lemma DeleteSameHolds(s: State, c: int)
    requires IsRow(c, s.calls) && Deleting(s.calls[c])
    ensures var t := AdvanceDelete(s, c);
            && t.db.holds == s.db.holds && IsRow(c, t.calls) && t.calls == s.calls[c := t.calls[c]]
            && !Holding(t.calls[c])
  {
    hide ActiveOn;
  }

  lemma ActionKeepsOne(s: State, a: Action, p: int, b: int)
    requires OneWaits(s, p, b) && InFlight(s, p, b) <= 1
    ensures OneWaits(Apply(s, a), p, b)
  {
    hide WaitingHolds, InFlight, Advance, AdvanceHold;
    match a
    case Begin(r) =>
    case Step(c, today) =>
      if IsRow(c, s.calls) {
        if Holding(s.calls[c]) {
          HoldStep(s, c, p, b, today);
          AdvanceIsHold(s, c, today);
        } else {
          OtherStep(s, c, p, b, today);
        }
      }
    case Cancel(q, h) =>
      if CancelHold(s.db, q, h).0.Ok? { NoMoreWait(s.db.holds, h, s.db.holds[h].(status := Cancelled), p, b); }
    case _ =>
  }

  lemma AdvanceIsHold(s: State, c: int, today: string)
    requires IsRow(c, s.calls) && Holding(s.calls[c])
    ensures Advance(s, c, today) == AdvanceHold(s, c, today)
  {
    hide AdvanceHold;
  }

  /**
   In every run in which no two calls of a patron for a book overlap, the patron has at most one
   hold waiting for it, whatever everybody else does.
   */
  lemma {:induction false} AtMostOneWaits(s: State, actions: seq<Action>, p: int, b: int)
    requires s.calls == [] && WaitingHolds(s.db.holds, p, b) <= 1 && OneAtATime(s, actions, p, b)
    ensures OneWaits(Run(s, actions), p, b) && WaitingHolds(Run(s, actions).db.holds, p, b) <= 1
  {
    hide Apply, WaitingHolds, InFlight;
    if actions != [] {
      var n := |actions| - 1;
      AtMostOneWaits(s, actions[..n], p, b);
      OneNow(s, actions[..n], p, b);
      ActionKeepsOne(Run(s, actions[..n]), actions[n], p, b);
    }
  }

  lemma OneNow(s: State, actions: seq<Action>, p: int, b: int)
    requires OneAtATime(s, actions, p, b)
    ensures InFlight(Run(s, actions), p, b) <= 1
  {
    hide Run, InFlight;
  }

  // ---- Two calls that overlap ----

  const HOLD_DATE := "2024-01-01"

  /** One patron, and one book without copies. */
  function OneBook(): Tables { Tables(map[1 := Patron(false, false)], {5}, map[], 0, [], [], []) }

  function OneBookState(): State { State(OneBook(), map[], [], FreshHistory(OneBook())) }

  function Twice(): seq<Action> { [Begin(PlaceHold(1, 5)), Begin(PlaceHold(1, 5))] }

  /** Both calls read the next position before either inserts. */
  function Overlapping(): seq<Action> {
    Twice() + Steps(0, 5, HOLD_DATE) + Steps(1, 5, HOLD_DATE) + Steps(0, 1, HOLD_DATE) + Steps(1, 1, HOLD_DATE)
  }

  function Both(a: Call, b: Call): State { OneBookState().(calls := [a, b]) }

  lemma NothingToFind(s: State)
    requires s.db == OneBook()
    ensures !HasAvailable(s.db, 5) && !AlreadyWaiting(s.db, 1, 5) && NextPos(s.db.holds, 5) == 1
  {
  }

  /** One step of a hold's call. */
  lemma OneStep(s: State, c: int, t: State, n: nat)
    requires IsRow(c, s.calls) && Holding(s.calls[c]) && t == AdvanceHold(s, c, HOLD_DATE)
    ensures Alone(s, c, n + 1, HOLD_DATE) == Alone(t, c, n, HOLD_DATE)
  {
    hide Apply, AdvanceHold;
    StepIs(s, c, HOLD_DATE);
  }

  lemma FromBook(s: State, c: int)
    requires s.db == OneBook() && IsRow(c, s.calls) && s.calls[c] == HoldBook(1, 5, 0)
    ensures Alone(s, c, 3, HOLD_DATE) == At(s, c, HoldNumbered(1, 5, 1, 0))
  {
    hide Apply, HasAvailable, AlreadyWaiting, NextPos, OneBook, Alone;
    NothingToFind(s);
    var s1, s2, s3 := At(s, c, HoldCopies(1, 5, 0)), At(s, c, HoldReady(1, 5, 0)), At(s, c, HoldNumbered(1, 5, 1, 0));
    OneStep(s, c, s1, 2);
    OneStep(s1, c, s2, 1);
    OneStep(s2, c, s3, 0);
    NoSteps(s3, c);
  }

  lemma NoSteps(s: State, c: int)
    ensures Alone(s, c, 0, HOLD_DATE) == s
  {
  }

  lemma FiveSteps(s: State, c: int)
    requires s.db == OneBook() && IsRow(c, s.calls) && s.calls[c] == HoldStart(1, 5, 0)
    ensures Alone(s, c, 5, HOLD_DATE) == At(s, c, HoldNumbered(1, 5, 1, 0))
  {
    hide Apply, HasAvailable, AlreadyWaiting, NextPos, Alone;
    var s1, s2 := At(s, c, HoldPatron(1, 5, 0)), At(s, c, HoldBook(1, 5, 0));
    OneStep(s, c, s1, 4);
    OneStep(s1, c, s2, 3);
    FromBook(s2, c);
  }

  lemma LastStep(s: State, c: int)
    requires IsRow(c, s.calls) && s.calls[c] == HoldNumbered(1, 5, 1, 0)
    ensures Alone(s, c, 1, HOLD_DATE) == CommitHold(s, c, 1, 5, 1, 0, HOLD_DATE)
  {
    hide Apply, CommitHold;
    StepIs(s, c, HOLD_DATE);
    assert Alone(s, c, 1, HOLD_DATE) == Alone(Apply(s, Step(c, HOLD_DATE)), c, 0, HOLD_DATE);
  }

  lemma BothBegin()
    ensures Run(OneBookState(), Twice()) == Both(HoldStart(1, 5, 0), HoldStart(1, 5, 0))
  {
    hide Apply;
    var s := OneBookState();
    var a := Begin(PlaceHold(1, 5));
    BeginIs(s, PlaceHold(1, 5));
    BeginIs(Apply(s, a), PlaceHold(1, 5));
    assert [a][..0] == [] && Twice()[..1] == [a];
    assert Run(s, [a]) == Apply(Run(s, []), a);
  }

  /** Two overlapping calls of one patron for one book both succeed, at the same position. */
  lemma OverlappingCallsBothWait()
    ensures var t := Run(OneBookState(), Overlapping());
            && Start(OneBookState()) && !OneAtATime(OneBookState(), Twice(), 1, 5)
            && t.db.holds == [Hold(5, 1, None, 1, Waiting, HOLD_DATE), Hold(5, 1, None, 1, Waiting, HOLD_DATE)]
            && WaitingHolds(t.db.holds, 1, 5) == 2
  {
    hide Run, Alone, Start, Steps;
    FreshLibraryStarts(OneBook());
    BothBegin();
    TwoInFlight();
    var s := OneBookState();
    RunConcat(s, Twice(), Steps(0, 5, HOLD_DATE));
    RunConcat(s, Twice() + Steps(0, 5, HOLD_DATE), Steps(1, 5, HOLD_DATE));
    RunConcat(s, Twice() + Steps(0, 5, HOLD_DATE) + Steps(1, 5, HOLD_DATE), Steps(0, 1, HOLD_DATE));
    RunConcat(s, Twice() + Steps(0, 5, HOLD_DATE) + Steps(1, 5, HOLD_DATE) + Steps(0, 1, HOLD_DATE),
      Steps(1, 1, HOLD_DATE));
    BothSteps();
    TwoWait(Hold(5, 1, None, 1, Waiting, HOLD_DATE));
  }

  lemma BothSteps()
    ensures var s1 := Run(Both(HoldStart(1, 5, 0), HoldStart(1, 5, 0)), Steps(0, 5, HOLD_DATE));
            var s2 := Run(s1, Steps(1, 5, HOLD_DATE));
            var s3 := Run(s2, Steps(0, 1, HOLD_DATE));
            Run(s3, Steps(1, 1, HOLD_DATE)).db.holds
              == [Hold(5, 1, None, 1, Waiting, HOLD_DATE), Hold(5, 1, None, 1, Waiting, HOLD_DATE)]
  {
    hide Run, Alone, Steps, FreshHistory;
    var s0 := Both(HoldStart(1, 5, 0), HoldStart(1, 5, 0));
    AloneIsRun(s0, 0, 5, HOLD_DATE);
    FiveSteps(s0, 0);
    var s1 := At(s0, 0, HoldNumbered(1, 5, 1, 0));
    AloneIsRun(s1, 1, 5, HOLD_DATE);
    FiveSteps(s1, 1);
    var s2 := At(s1, 1, HoldNumbered(1, 5, 1, 0));
    AloneIsRun(s2, 0, 1, HOLD_DATE);
    LastStep(s2, 0);
    var s3 := CommitHold(s2, 0, 1, 5, 1, 0, HOLD_DATE);
    AloneIsRun(s3, 1, 1, HOLD_DATE);
    LastStep(s3, 1);
  }

  lemma TwoInFlight()
    ensures !OneAtATime(OneBookState(), Twice(), 1, 5)
  {
    hide Run;
    BothBegin();
    var k := HoldStart(1, 5, 0);
    SumAppend([], k, Asks(1, 5));
    SumAppend([k], k, Asks(1, 5));
    assert [] + [k] == [k] && [k] + [k] == [k, k];
  }

  lemma TwoWait(h: Hold)
    requires h.status == Waiting
    ensures WaitingHolds([h, h], h.patron, h.biblio) == 2
  {
    var f := IsWaiting(h.patron, h.biblio);
    SumAppend([], h, f);
    SumAppend([h], h, f);
    assert [] + [h] == [h] && [h] + [h] == [h, h];
  }
}
