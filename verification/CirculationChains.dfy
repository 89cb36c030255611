/** Renewal chains: linear, at most two renewals, tiling time. */
module CirculationChains {
  import opened Calendar
  import opened Dates
  import opened Sums
  import opened Library
  import opened Circulation
  import opened CirculationInvariant
  import opened CirculationSafety
  import opened Wrappers

  // ---- Chains ----

  /** The first loan of the chain that loan `j` continues. */
  function Root(h: History, j: int): int
    decreases if j < 0 then 0 else j
  {
    if IsRow(j, h.origin) && h.origin[j].parent.Some? && 0 <= h.origin[j].parent.value < j
    then Root(h, h.origin[j].parent.value) else j
  }

  /** How many renewals lead from the chain's first loan to `j`. */
  function Depth(h: History, j: int): nat
    decreases if j < 0 then 0 else j
  {
    if IsRow(j, h.origin) && h.origin[j].parent.Some? && 0 <= h.origin[j].parent.value < j
    then Depth(h, h.origin[j].parent.value) + 1 else 0
  }

  function Period(db: Tables, h: History, j: int): int
    requires IsRow(j, db.loans) && db.loans[j].item in h.days
  {
    LoanDays(h.days[db.loans[j].item])
  }

  lemma ParentRow(db: Tables, h: History, j: int)
    requires LoansInv(db, h) && IsRow(j, db.loans)
    ensures |h.origin| == |db.loans| && db.loans[j].item in h.days && 0 <= db.loans[j].renewals <= MAX_RENEWALS
    ensures match h.origin[j].parent
            case None => db.loans[j].renewals == 0 && db.loans[j].due == AddDays(db.loans[j].checkout, Period(db, h, j))
            case Some(i) =>
              && 0 <= i < j && h.origin[i].how == ByRenewal
              && Follows(db.loans[i], db.loans[j], Period(db, h, j))
  {
    hide Follows, AddDays;
    assert LoanInv(db, h, j);
  }

  /** A chain has one copy, one patron, one loan period, and as many renewals as links; never more than two. */
  lemma {:induction false} ChainTerms(db: Tables, h: History, j: int)
    requires LoansInv(db, h) && IsRow(j, db.loans)
    ensures 0 <= Root(h, j) <= j && |h.origin| == |db.loans| && h.origin[Root(h, j)].parent.None?
    ensures var root, row := db.loans[Root(h, j)], db.loans[j];
            row.item == root.item && row.patron == root.patron && row.renewals == Depth(h, j) <= 2
    decreases j
  {
    hide LoansInv, AddDays;
    ParentRow(db, h, j);
    match h.origin[j].parent
    case None =>
    case Some(i) => ChainTerms(db, h, i);
  }

  lemma SameParentSameLoan(db: Tables, h: History, j: int, k: int)
    requires LoansInv(db, h) && IsRow(j, db.loans) && IsRow(k, db.loans) && |h.origin| == |db.loans|
    requires h.origin[j].parent.Some? && h.origin[j].parent == h.origin[k].parent
    ensures j == k
  {
    hide LoanInv;
    assert SameParent(h, j, k);
  }

  /** Chains do not branch: the first loan and the number of renewals identify a loan. */
  lemma {:induction false} ChainsAreLinear(db: Tables, h: History, j: int, k: int)
    requires LoansInv(db, h) && IsRow(j, db.loans) && IsRow(k, db.loans)
    requires Root(h, j) == Root(h, k) && Depth(h, j) == Depth(h, k)
    ensures j == k
    decreases j
  {
    hide LoansInv, Follows, AddDays;
    ParentRow(db, h, j);
    ParentRow(db, h, k);
    match h.origin[j].parent
    case None =>
    case Some(i) =>
      ChainsAreLinear(db, h, i, h.origin[k].parent.value);
      SameParentSameLoan(db, h, j, k);
  }

  /** The loan of `j`'s chain after `m` renewals. */
  function Ancestor(h: History, j: int, m: nat): int
    decreases if j < 0 then 0 else j
  {
    if Depth(h, j) > m && IsRow(j, h.origin) && h.origin[j].parent.Some? && 0 <= h.origin[j].parent.value < j
    then Ancestor(h, h.origin[j].parent.value, m) else j
  }

  lemma {:induction false} AncestorIsRenewed(db: Tables, h: History, j: int, m: nat)
    requires LoansInv(db, h) && IsRow(j, db.loans) && m < Depth(h, j)
    ensures var a := Ancestor(h, j, m);
            IsRow(a, db.loans) && IsRow(a, h.origin) && Root(h, a) == Root(h, j)
              && Depth(h, a) == m && h.origin[a].how == ByRenewal
    decreases j
  {
    hide LoansInv, Follows, AddDays;
    ParentRow(db, h, j);
    var i := h.origin[j].parent.value;
    if m < Depth(h, i) { AncestorIsRenewed(db, h, i, m); }
  }

  /** Only the last loan of a chain can have been closed by a return. */
  lemma ReturnEndsChain(db: Tables, h: History, j: int, k: int)
    requires LoansInv(db, h) && IsRow(j, db.loans) && IsRow(k, db.loans) && |h.origin| == |db.loans|
    requires Root(h, j) == Root(h, k) && h.origin[j].how == ByReturn
    ensures Depth(h, k) <= Depth(h, j)
  {
    hide LoansInv;
    if Depth(h, j) < Depth(h, k) {
      AncestorIsRenewed(db, h, k, Depth(h, j));
      ChainsAreLinear(db, h, j, Ancestor(h, k, Depth(h, j)));
    }
  }

  // ---- Due dates along a chain ----

  lemma LoanDaysPositive(d: int)
    ensures LoanDays(d) >= 1
  {
  }

  /** `due` is the date `m` periods after `first`, for some `m` with `1 <= m <= k`, that left the four-digit years. */
  ghost predicate Stuck(first: int, days: int, k: int, due: string) {
    exists m :: 1 <= m <= k && StuckAt(first, days, m, due)
  }

  predicate StuckAt(first: int, days: int, m: int, due: string) {
    !InRange(first + m * days) && due == FormatDay(first + m * days)
  }

  lemma Times(k: int, days: int)
    ensures (k + 1) * days == k * days + days
  {
  }

  /** One link of the due-date induction: from the due date after `k` periods to the next. */
  lemma NextDue(date: string, days: int, k: nat, due: string)
    requires IsDate(date) && days >= 1 && InRange(DayOf(date) + k * days) && due == AddDays(date, k * days)
    ensures AddDays(due, days) == AddDays(date, (k + 1) * days)
  {
    hide AddDays, IsDate, DayOf, InRange;
    Times(k, days);
    AddDaysComposes(date, k * days, days);
  }

  lemma OutOfRangeIsStuck(date: string, days: int, k: nat, due: string)
    requires IsDate(date) && k >= 1 && !InRange(DayOf(date) + k * days) && due == AddDays(date, k * days)
    ensures StuckAt(DayOf(date), days, k, due)
  {
    hide InRange, FormatDay, IsDate, DayOf, AddDays;
    AddDaysFrom(date, k * days);
  }

  lemma StuckStays(first: int, days: int, k: nat, due: string)
    requires Stuck(first, days, k, due)
    ensures AddDays(due, days) == due && Stuck(first, days, k + 1, due)
  {
    hide InRange, FormatDay, AddDays, IsDate;
    var m :| 1 <= m <= k && StuckAt(first, days, m, due);
    AddDaysToDay(first + m * days, days);
    assert StuckAt(first, days, m, due);
  }

  lemma RangeShrinks(first: int, days: int, k: nat)
    requires 0 <= first && days >= 1 && InRange(first + (k + 1) * days)
    ensures InRange(first + k * days)
  {
    hide DaysBeforeYear;
    Times(k, days);
    assert k * days >= 0;
  }

  /** What the due date of a loan is after `k` renewals. */
  ghost predicate DueAfter(first: string, days: int, k: nat, due: string)
    requires IsDate(first)
  {
    && (InRange(DayOf(first) + k * days) ==> due == AddDays(first, (k + 1) * days))
    && (!InRange(DayOf(first) + k * days) ==> Stuck(DayOf(first), days, k, due))
  }

  lemma DueStep(first: string, days: int, k: nat, due: string)
    requires IsDate(first) && days >= 1 && k >= 1 && DueAfter(first, days, k - 1, due)
    ensures DueAfter(first, days, k, AddDays(due, days))
  {
    hide AddDays, InRange, IsDate, DayOf, StuckAt, Stuck;
    var d := DayOf(first);
    DayNotNegative(first);
    if InRange(d + k * days) {
      RangeShrinks(d, days, k - 1);
      NextDue(first, days, k, due);
    } else if InRange(d + (k - 1) * days) {
      OutOfRangeIsStuck(first, days, k, due);
      StuckHere(d, days, k, k, due);
      AddDaysOfStuck(d, days, k, due);
    } else {
      StuckStays(d, days, k - 1, due);
    }
  }

  lemma DueFirst(first: string, days: int)
    requires IsDate(first)
    ensures DueAfter(first, days, 0, AddDays(first, days))
  {
    hide AddDays, IsDate, DayOf, StuckAt, Stuck;
    TextRoundTrip(first);
    assert (0 + 1) * days == days && 0 * days == 0;
  }

  /**
   The due date of a loan renewed `k` times: `k + 1` periods after the first checkout
   while the dates stay within four-digit years, and otherwise frozen where they left.
   */
  lemma {:induction false} DueAlongChain(db: Tables, h: History, j: int, first: string, days: int)
    requires LoansInv(db, h) && IsRow(j, db.loans) && db.loans[j].item in h.days
    requires IsRow(Root(h, j), db.loans) && first == db.loans[Root(h, j)].checkout && IsDate(first)
    requires days == Period(db, h, j)
    ensures DueAfter(first, days, Depth(h, j), db.loans[j].due)
    decreases j
  {
    hide LoansInv, AddDays, IsDate, DueAfter;
    ParentRow(db, h, j);
    LoanDaysPositive(h.days[db.loans[j].item]);
    match h.origin[j].parent
    case None => DueFirst(first, days);
    case Some(i) =>
      ParentRow(db, h, i);
      DueAlongChain(db, h, i, first, days);
      DueStep(first, days, Depth(h, j), db.loans[i].due);
  }

  lemma StuckHere(first: int, days: int, m: int, k: int, due: string)
    requires 1 <= m <= k && StuckAt(first, days, m, due)
    ensures Stuck(first, days, k, due)
  {
  }

  lemma AddDaysOfStuck(first: int, days: int, m: int, due: string)
    requires StuckAt(first, days, m, due)
    ensures AddDays(due, days) == due
  {
    hide InRange, FormatDay, AddDays;
    AddDaysToDay(first + m * days, days);
  }

  lemma DayNotNegative(date: string)
    requires IsDate(date)
    ensures DayOf(date) >= 0
  {
    hide DaysBeforeYear, DayOf, IsDate;
    TextRoundTrip(date);
  }

  lemma StuckIsNotLater(first: int, days: int, k: nat, due: string, n: int)
    requires Stuck(first, days, k, due) && days >= 1 && n > k
    ensures due != FormatDay(first + n * days)
  {
    hide InRange, FormatDay;
    var m :| 1 <= m <= k && StuckAt(first, days, m, due);
    SameFormattedDay(first + m * days, first + n * days);
    assert m * days < n * days;
  }

  lemma DueIff(first: string, days: int, k: nat, due: string)
    requires IsDate(first) && days >= 1 && DueAfter(first, days, k, due)
    ensures due == AddDays(first, (k + 1) * days) <==> InRange(DayOf(first) + k * days)
  {
    hide AddDays, IsDate, DayOf, InRange, Stuck, FormatDay;
    if !InRange(DayOf(first) + k * days) {
      StuckIsNotLater(DayOf(first), days, k, due, k + 1);
      AddDaysFrom(first, (k + 1) * days);
    }
  }

  lemma LoanIsDue(db: Tables, h: History, j: int)
    requires LoansInv(db, h) && IsRow(j, db.loans)
    ensures IsRow(Root(h, j), db.loans) && db.loans[j].item in h.days && 0 <= db.loans[j].renewals == Depth(h, j)
    ensures var first, k, days := db.loans[Root(h, j)].checkout, db.loans[j].renewals, Period(db, h, j);
            IsDate(first) ==> (db.loans[j].due == AddDays(first, (k + 1) * days) <==> InRange(DayOf(first) + k * days))
  {
    hide LoansInv, AddDays, IsDate, DayOf, InRange, DueAfter;
    ChainTerms(db, h, j);
    ParentRow(db, h, j);
    var first := db.loans[Root(h, j)].checkout;
    if IsDate(first) {
      LoanDaysPositive(h.days[db.loans[j].item]);
      DueAlongChain(db, h, j, first, Period(db, h, j));
      DueIff(first, Period(db, h, j), Depth(h, j), db.loans[j].due);
    }
  }

  /**
   Renewals tile time, in every state of every run: a loan renewed `k` times is due
   exactly `k + 1` periods after the chain's first checkout, if and only if the date it
   was itself checked out on is within years 0000 to 9999.
   */
  lemma RenewalsTileTime(s: State, actions: seq<Action>, j: int)
    requires Inv(s) && IsRow(j, Run(s, actions).db.loans)
    ensures var db, h := Run(s, actions).db, Run(s, actions).hist;
            && IsRow(Root(h, j), db.loans) && db.loans[j].item in h.days
            && var first, k, days := db.loans[Root(h, j)].checkout, db.loans[j].renewals, Period(db, h, j);
               IsDate(first) ==>
                 (db.loans[j].due == AddDays(first, (k + 1) * days) <==> InRange(DayOf(first) + k * days))
  {
    hide Run, LoansInv, ItemsInv, DaysInv, FinesInv, HoldsInv, LimitInv, CallsInv, LocksInv, WinnersInv, AddDays;
    hide IsDate, DayOf, InRange, LoanDays;
    RunKeepsInvariant(s, actions);
    LoanIsDue(Run(s, actions).db, Run(s, actions).hist, j);
  }

  /**
   Renewal chains are linear, in every state of every run: a renewed loan has one successor,
   of the same copy and patron, which starts on the day the old loan was due and was closed;
   and no loan is renewed more than twice.
   */
  lemma ChainsOverRuns(s: State, actions: seq<Action>, j: int, k: int)
    requires Inv(s) && IsRow(j, Run(s, actions).db.loans) && IsRow(k, Run(s, actions).db.loans)
    ensures var db, h := Run(s, actions).db, Run(s, actions).hist;
            && |h.origin| == |db.loans| && db.loans[j].renewals == Depth(h, j) <= 2
            && (h.origin[j].parent.Some? && h.origin[j].parent == h.origin[k].parent ==> j == k)
            && (h.origin[j].parent.Some? ==>
                 var i := h.origin[j].parent.value;
                 && 0 <= i < j && !db.loans[i].active
                 && db.loans[j].item == db.loans[i].item && db.loans[j].patron == db.loans[i].patron
                 && db.loans[j].checkout == db.loans[i].due && db.loans[i].checkin == Some(db.loans[i].due))
  {
    hide Run, LoansInv, ItemsInv, DaysInv, FinesInv, HoldsInv, LimitInv, CallsInv, LocksInv, WinnersInv, AddDays, Depth;
    RunKeepsInvariant(s, actions);
    var db, h := Run(s, actions).db, Run(s, actions).hist;
    ChainTerms(db, h, j);
    ParentRow(db, h, j);
    if h.origin[j].parent.Some? {
      ActiveIffOpen(db, h, h.origin[j].parent.value);
      if h.origin[j].parent == h.origin[k].parent { SameParentSameLoan(db, h, j, k); }
    }
  }

  lemma ActiveIffOpen(db: Tables, h: History, l: int)
    requires LoansInv(db, h) && IsRow(l, db.loans)
    ensures IsRow(l, h.origin) && (db.loans[l].active <==> h.origin[l].how == Open)
  {
    hide Follows, AddDays;
    assert LoanInv(db, h, l);
  }
}
