/** The seat desk under interleaving, and over runs of whole calls as days pass. */
module SeatMachine {
  import opened Dates
  import opened Seats

  // ---- Interleaved calls: one database statement per step ----

  datatype Call =
    | ReserveStart(patron: int, seat: int, date: string, slot: string)
    | ReserveReady(patron: int, seat: int, date: string, slot: string)
    | CancelStart(patron: int, id: int)
    | CancelReady(id: int)
    | CheckinStart(patron: int, id: int)
    | CheckinReady(id: int, seat: int)
    | CheckinMarked(id: int, seat: int)
    | ExpireStart
    | Expiring(ids: seq<int>, seats: seq<int>)
    | Done

  datatype State = State(rs: seq<Reservation>, seats: map<int, bool>, calls: seq<Call>)

  datatype Action = Begin(first: Call) | Step(call: int, today: string, now: string)

  predicate Starting(k: Call) { k.ReserveStart? || k.CancelStart? || k.CheckinStart? || k.ExpireStart? }

  function Advance(s: State, k: Call, today: string, now: string): (State, Call) {
    match k
    case ReserveStart(p, seat, date, slot) =>
      if (date == today && SlotEnded(slot, now)) || !ValidSlot(slot)
        || Less(date, today) || seat !in s.seats then (s, Done)
      else (s, ReserveReady(p, seat, date, slot))
    case ReserveReady(p, seat, date, slot) => (s.(rs := Inserted(s.rs, p, seat, date, slot)), Done)
    case CancelStart(p, id) => (s, if CancelAllowed(s.rs, p, id) then CancelReady(id) else Done)
    case CancelReady(id) => (s.(rs := Swapped(s.rs, id, Active, Cancelled)), Done)
    case CheckinStart(p, id) =>
      (s, if CheckinAllowed(s.rs, p, id, today, now) then CheckinReady(id, s.rs[id].seat) else Done)
    case CheckinReady(id, seat) =>
      (s.(rs := Swapped(s.rs, id, Active, CheckedIn)), if SwapHits(s.rs, id, Active) then CheckinMarked(id, seat)
        else Done)
    case CheckinMarked(id, seat) => (s.(seats := Occupied(s.seats, seat)), Done)
    case ExpireStart => (s, Expiring(StaleIds(s.rs, today), StaleSeats(s.rs, today)))
    case Expiring(ids, seats) =>
      if ids != [] then (s.(rs := Swapped(s.rs, ids[0], Active, Expired)), Expiring(ids[1..], seats))
      else if seats != [] then
        (s.(seats := if seats[0] in s.seats then s.seats[seats[0] := false] else s.seats), Expiring(ids, seats[1..]))
      else (s, Done)
    case Done => (s, Done)
  }

  function Apply(s: State, a: Action): State {
    match a
    case Begin(k) => if Starting(k) then s.(calls := s.calls + [k]) else s
    case Step(c, today, now) =>
      if 0 <= c < |s.calls| then
        var (t, k) := Advance(s, s.calls[c], today, now);
        t.(calls := s.calls[c := k])
      else s
  }

  function Run(s: State, actions: seq<Action>): State {
    if actions == [] then s
    else Apply(Run(s, actions[..|actions| - 1]), actions[|actions| - 1])
  }

  lemma LaterSame(rs: seq<Reservation>)
    ensures Later(rs, rs)
  {
  }

  lemma LaterTransitive(a: seq<Reservation>, b: seq<Reservation>, c: seq<Reservation>)
    requires Later(a, b) && Later(b, c)
    ensures Later(a, c)
  {
    forall i | 0 <= i < |a| ensures c[i] == a[i].(status := c[i].status) {
      assert b[i] == a[i].(status := b[i].status);
    }
  }

  lemma StepKeepsExclusive(s: State, a: Action)
    requires Exclusive(s.rs)
    ensures Exclusive(Apply(s, a).rs) && Later(s.rs, Apply(s, a).rs)
  {
    hide Exclusive, Later, Inserted, Swapped, SlotEnded, ValidSlot, Less, StaleIds, StaleSeats, CancelAllowed;
    hide CheckinAllowed;
    LaterSame(s.rs);
    if a.Step? && 0 <= a.call < |s.calls| {
      match s.calls[a.call]
      case ReserveReady(p, seat, date, slot) => InsertKeepsExclusive(s.rs, p, seat, date, slot);
      case CancelReady(id) => SwapKeepsExclusive(s.rs, id, Cancelled);
      case CheckinReady(id, _) => SwapKeepsExclusive(s.rs, id, CheckedIn);
      case Expiring(ids, _) => if ids != [] { SwapKeepsExclusive(s.rs, ids[0], Expired); }
      case _ =>
    }
  }

  /**
   Under every interleaving of reserving, cancelling, checking in and expiring: at most one live
   reservation per seat, date and slot and one per patron and date; rows keep their terms, and a
   reservation that has left Active never changes again.
   */
  lemma {:induction false} SeatsStayExclusive(s: State, actions: seq<Action>)
    requires Exclusive(s.rs)
    ensures Exclusive(Run(s, actions).rs) && Later(s.rs, Run(s, actions).rs)
  {
    hide Exclusive, Later, Apply;
    if actions == [] {
      LaterSame(s.rs);
    } else {
      var n := |actions| - 1;
      SeatsStayExclusive(s, actions[..n]);
      StepKeepsExclusive(Run(s, actions[..n]), actions[n]);
      LaterTransitive(s.rs, Run(s, actions[..n]).rs, Run(s, actions).rs);
    }
  }

  // ---- Whole calls as steps, with a date that never goes back ----

  /** `expiry` is the date of the last expiry, before which nothing is known. */
  datatype Desk = Desk(rs: seq<Reservation>, seats: map<int, bool>, today: string, expiry: string)

  datatype Visit =
    | Reserve(patron: int, seat: int, date: string, slot: string, now: string)
    | Cancel(patron: int, id: int)
    | Checkin(patron: int, id: int, now: string)
    | Expire
    | NewDate(date: string)

  function Serve(d: Desk, v: Visit): Desk {
    match v
    case Reserve(p, seat, date, slot, now) => d.(rs := ReserveCall(d.rs, d.seats, p, seat, date, slot, d.today, now).1)
    case Cancel(p, id) => if CancelAllowed(d.rs, p, id) then d.(rs := Swapped(d.rs, id, Active, Cancelled)) else d
    case Checkin(p, id, now) =>
      if CheckinAllowed(d.rs, p, id, d.today, now)
      then d.(rs := Swapped(d.rs, id, Active, CheckedIn), seats := Occupied(d.seats, d.rs[id].seat)) else d
    case Expire => d.(rs := ExpiredRows(d.rs, d.today),
      seats := ReleasedSeats(d.rs, d.seats, d.today), expiry := d.today)
    case NewDate(date) => if Less(date, d.today) then d else d.(today := date)
  }

  function Days(d: Desk, visits: seq<Visit>): Desk {
    if visits == [] then d
    else Serve(Days(d, visits[..|visits| - 1]), visits[|visits| - 1])
  }

  lemma AtMostBoth(a: string, b: string)
    requires AtMost(a, b) && AtMost(b, a)
    ensures a == b
  {
    hide Less;
    LessTotal(a, b);
  }

  predicate OccupiedBy(r: Reservation, seat: int, since: string) {
    r.status == CheckedIn && r.seat == seat && AtMost(since, r.date)
  }

  /** Check-ins are not in the future, and an occupied seat has one no older than the last expiry. */
  ghost predicate DeskInv(d: Desk) {
    && AtMost(d.expiry, d.today)
    && (forall i :: 0 <= i < |d.rs| && d.rs[i].status == CheckedIn ==> AtMost(d.rs[i].date, d.today))
    && (forall s :: s in d.seats && d.seats[s] ==> exists i :: 0 <= i < |d.rs| && OccupiedBy(d.rs[i], s, d.expiry))
  }

  /** A desk without check-ins and without occupied seats is a place to start from. */
  lemma FreshDeskStarts(rs: seq<Reservation>, seats: map<int, bool>, today: string)
    requires forall i :: 0 <= i < |rs| ==> rs[i].status != CheckedIn
    requires forall s :: s in seats ==> !seats[s]
    ensures DeskInv(Desk(rs, seats, today, "")) && SittersKeepSeats(Desk(rs, seats, today, ""))
  {
  }

  lemma ServeExpire(d: Desk)
    requires DeskInv(d)
    ensures DeskInv(Serve(d, Expire))
  {
    hide Less;
    var t := Serve(d, Expire);
    LessTotal(d.today, d.today);
    forall s | s in t.seats && t.seats[s] ensures exists i :: 0 <= i < |t.rs| && OccupiedBy(t.rs[i], s, t.expiry) {
      var i :| 0 <= i < |d.rs| && OccupiedBy(d.rs[i], s, d.expiry);
      assert !PastCheckin(d.rs[i], d.today);
      assert OccupiedBy(t.rs[i], s, t.expiry);
    }
  }

  lemma ServeCheckin(d: Desk, p: int, id: int, now: string)
    requires DeskInv(d)
    ensures DeskInv(Serve(d, Checkin(p, id, now)))
  {
    hide Less, SlotNow;
    LessTotal(d.today, d.today);
    if CheckinAllowed(d.rs, p, id, d.today, now) {
      var t := Serve(d, Checkin(p, id, now));
      forall s | s in t.seats && t.seats[s] ensures exists i :: 0 <= i < |t.rs| && OccupiedBy(t.rs[i], s, t.expiry) {
        if s == d.rs[id].seat {
          assert OccupiedBy(t.rs[id], s, t.expiry);
        } else {
          var i :| 0 <= i < |d.rs| && OccupiedBy(d.rs[i], s, d.expiry);
          assert OccupiedBy(t.rs[i], s, t.expiry);
        }
      }
    }
  }

  /** Calls that change neither seats nor dates nor any check-in. */
  lemma ServeRows(d: Desk, t: Desk)
    requires DeskInv(d) && t.seats == d.seats && t.today == d.today && t.expiry == d.expiry && |d.rs| <= |t.rs|
    requires forall i :: 0 <= i < |d.rs| && d.rs[i].status == CheckedIn ==> t.rs[i] == d.rs[i]
    requires forall i :: 0 <= i < |t.rs| && t.rs[i].status == CheckedIn ==> i < |d.rs| && t.rs[i] == d.rs[i]
    ensures DeskInv(t)
  {
    hide Less;
    forall s | s in t.seats && t.seats[s] ensures exists i :: 0 <= i < |t.rs| && OccupiedBy(t.rs[i], s, t.expiry) {
      var i :| 0 <= i < |d.rs| && OccupiedBy(d.rs[i], s, d.expiry);
      assert OccupiedBy(t.rs[i], s, t.expiry);
    }
  }

  lemma ServeNewDate(d: Desk, date: string)
    requires DeskInv(d)
    ensures DeskInv(Serve(d, NewDate(date)))
  {
    hide Less;
    AtMostTransitive(d.expiry, d.today, date);
    if AtMost(d.today, date) {
      var t := d.(today := date);
      forall i | 0 <= i < |d.rs| && d.rs[i].status == CheckedIn ensures AtMost(d.rs[i].date, date) {
        AtMostTransitive(d.rs[i].date, d.today, date);
      }
      forall s | s in t.seats && t.seats[s] ensures exists i :: 0 <= i < |t.rs| && OccupiedBy(t.rs[i], s, t.expiry) {
        var i :| 0 <= i < |d.rs| && OccupiedBy(d.rs[i], s, d.expiry);
      }
    }
  }

  lemma ServeKeeps(d: Desk, v: Visit)
    requires DeskInv(d)
    ensures DeskInv(Serve(d, v))
  {
    hide DeskInv, Less, SlotNow, SlotEnded, ValidSlot, SeatTaken, DayTaken;
    match v
    case Reserve(_, _, _, _, _) => ServeRows(d, Serve(d, v));
    case Cancel(p, id) => ServeRows(d, Serve(d, v));
    case Checkin(p, id, now) => ServeCheckin(d, p, id, now);
    case Expire => ServeExpire(d);
    case NewDate(date) => ServeNewDate(d, date);
  }

  lemma {:induction false} DaysKeep(d: Desk, visits: seq<Visit>)
    requires DeskInv(d)
    ensures DeskInv(Days(d, visits))
  {
    hide DeskInv, Serve;
    if visits != [] {
      DaysKeep(d, visits[..|visits| - 1]);
      ServeKeeps(Days(d, visits[..|visits| - 1]), visits[|visits| - 1]);
    }
  }

  /**
   In every reachable state an occupied seat has a check-in dated between the last expiry and
   today; so right after an expiry, which every seat query starts with, each seat still occupied
   has a reservation checked in for today.
   */
  lemma OccupiedSeatsAreCheckedInToday(d: Desk, visits: seq<Visit>, seat: int)
    requires DeskInv(d)
    requires var t := Days(d, visits); seat in t.seats && t.seats[seat]
    ensures var t := Days(d, visits);
            exists i :: 0 <= i < |t.rs| && OccupiedBy(t.rs[i], seat, t.expiry) && AtMost(t.rs[i].date, t.today)
                        && (t.expiry == t.today ==> t.rs[i].date == t.today)
  {
    hide Days, Less;
    DaysKeep(d, visits);
    var t := Days(d, visits);
    var i :| 0 <= i < |t.rs| && OccupiedBy(t.rs[i], seat, t.expiry);
    if t.expiry == t.today { AtMostBoth(t.rs[i].date, t.today); }
  }

  // ---- Who is sitting today ----

  predicate VisitToday(rs: seq<Reservation>, seat: int, today: string) {
    exists i :: 0 <= i < |rs| && rs[i].seat == seat && rs[i].status == CheckedIn && rs[i].date == today
  }

  /** A seat with a check-in dated today and none before is occupied. */
  ghost predicate SittersKeepSeats(d: Desk) {
    forall s :: s in d.seats && VisitToday(d.rs, s, d.today) && !Releases(d.rs, s, d.today) ==> d.seats[s]
  }

  /** Calls that change no check-in keep what the visits say. */
  lemma SameVisits(d: Desk, t: Desk)
    requires t.today == d.today && t.seats == d.seats && SittersKeepSeats(d) && |d.rs| <= |t.rs|
    requires forall i :: 0 <= i < |d.rs| && d.rs[i].status == CheckedIn ==> t.rs[i] == d.rs[i]
    requires forall i :: 0 <= i < |t.rs| && t.rs[i].status == CheckedIn ==> i < |d.rs| && t.rs[i] == d.rs[i]
    ensures SittersKeepSeats(t)
  {
    hide Less;
    forall s | s in t.seats && VisitToday(t.rs, s, t.today) && !Releases(t.rs, s, t.today) ensures t.seats[s] {
      var i :| 0 <= i < |t.rs| && t.rs[i].seat == s && t.rs[i].status == CheckedIn && t.rs[i].date == t.today;
      assert VisitToday(d.rs, s, d.today) by { assert d.rs[i] == t.rs[i]; }
      assert !Releases(d.rs, s, d.today) by {
        forall k | 0 <= k < |d.rs| && d.rs[k].seat == s ensures !PastCheckin(d.rs[k], d.today) {
          assert d.rs[k].status == CheckedIn ==> t.rs[k] == d.rs[k];
        }
      }
    }
  }

  lemma CheckinSits(d: Desk, p: int, id: int, now: string)
    requires SittersKeepSeats(d)
    ensures SittersKeepSeats(Serve(d, Checkin(p, id, now)))
  {
    hide Less, SlotNow;
    if CheckinAllowed(d.rs, p, id, d.today, now) {
      var t := Serve(d, Checkin(p, id, now));
      forall s | s in t.seats && VisitToday(t.rs, s, t.today) && !Releases(t.rs, s, t.today) ensures t.seats[s] {
        if s != d.rs[id].seat {
          var i :| 0 <= i < |t.rs| && t.rs[i].seat == s && t.rs[i].status == CheckedIn && t.rs[i].date == t.today;
          assert VisitToday(d.rs, s, d.today) by { assert d.rs[i] == t.rs[i]; }
          assert !Releases(d.rs, s, d.today) by {
            forall k | 0 <= k < |d.rs| && d.rs[k].seat == s ensures !PastCheckin(d.rs[k], d.today) {
              assert t.rs[k] == d.rs[k];
            }
          }
        }
      }
    }
  }

  lemma ExpireSits(d: Desk)
    requires SittersKeepSeats(d)
    ensures SittersKeepSeats(Serve(d, Expire))
  {
    hide Less;
    var t := Serve(d, Expire);
    forall s | s in t.seats && VisitToday(t.rs, s, t.today) && !Releases(t.rs, s, t.today) ensures t.seats[s] {
      var i :| 0 <= i < |t.rs| && t.rs[i].seat == s && t.rs[i].status == CheckedIn && t.rs[i].date == t.today;
      assert VisitToday(d.rs, s, d.today) by { assert d.rs[i] == t.rs[i]; }
      assert !Releases(d.rs, s, d.today) by {
        forall k | 0 <= k < |d.rs| && d.rs[k].seat == s ensures !PastCheckin(d.rs[k], d.today) {
          if d.rs[k].status == CheckedIn { assert t.rs[k] == d.rs[k]; }
        }
      }
      assert !Releases(d.rs, s, d.today);
    }
  }

  /** On a new date nobody is checked in for it yet. */
  lemma NewDateSits(d: Desk, date: string)
    requires DeskInv(d) && SittersKeepSeats(d)
    ensures SittersKeepSeats(Serve(d, NewDate(date)))
  {
    hide Less;
    if AtMost(d.today, date) {
      var t := d.(today := date);
      forall s | s in t.seats && VisitToday(t.rs, s, date) && !Releases(t.rs, s, date) ensures t.seats[s] {
        var i :| 0 <= i < |d.rs| && d.rs[i].seat == s && d.rs[i].status == CheckedIn && d.rs[i].date == date;
        AtMostBoth(date, d.today);
      }
    }
  }

  lemma ServeSits(d: Desk, v: Visit)
    requires DeskInv(d) && SittersKeepSeats(d)
    ensures SittersKeepSeats(Serve(d, v))
  {
    hide DeskInv, SittersKeepSeats, Less, SlotNow, SlotEnded, ValidSlot, SeatTaken, DayTaken;
    match v
    case Reserve(_, _, _, _, _) => SameVisits(d, Serve(d, v));
    case Cancel(_, _) => SameVisits(d, Serve(d, v));
    case Checkin(p, id, now) => CheckinSits(d, p, id, now);
    case Expire => ExpireSits(d);
    case NewDate(date) => NewDateSits(d, date);
  }

  lemma {:induction false} DaysSit(d: Desk, visits: seq<Visit>)
    requires DeskInv(d) && SittersKeepSeats(d)
    ensures SittersKeepSeats(Days(d, visits))
  {
    hide DeskInv, SittersKeepSeats, Serve;
    if visits != [] {
      var n := |visits| - 1;
      DaysSit(d, visits[..n]);
      DaysKeep(d, visits[..n]);
      ServeSits(Days(d, visits[..n]), visits[n]);
    }
  }

  lemma OccupiedHasVisit(d: Desk, seat: int)
    requires DeskInv(d) && seat in d.seats && d.seats[seat] && !Releases(d.rs, seat, d.today)
    ensures VisitToday(d.rs, seat, d.today)
  {
    hide Less;
    var i :| 0 <= i < |d.rs| && OccupiedBy(d.rs[i], seat, d.expiry);
    assert !PastCheckin(d.rs[i], d.today);
    AtMostBoth(d.rs[i].date, d.today);
  }

  /** In every run a seat without earlier check-ins is occupied exactly when somebody is checked in there today. */
  lemma OccupiedIffCheckedInToday(d: Desk, visits: seq<Visit>, seat: int)
    requires DeskInv(d) && SittersKeepSeats(d)
    requires var t := Days(d, visits); seat in t.seats && !Releases(t.rs, seat, t.today)
    ensures var t := Days(d, visits); t.seats[seat] <==> VisitToday(t.rs, seat, t.today)
  {
    hide DeskInv, Days, Releases, VisitToday;
    DaysKeep(d, visits);
    DaysSit(d, visits);
    if Days(d, visits).seats[seat] { OccupiedHasVisit(Days(d, visits), seat); }
  }

  // ---- Two runs ----

  lemma Two(d: Desk, a: Visit, b: Visit)
    ensures Days(d, [a, b]) == Serve(Serve(d, a), b)
  {
    hide Serve;
    assert [a, b][..1] == [a] && [a][..0] == [];
    assert Days(d, [a]) == Serve(Days(d, []), a) == Serve(d, a);
  }

  lemma {:induction false} DaysConcat(d: Desk, a: seq<Visit>, b: seq<Visit>)
    ensures Days(d, a + b) == Days(Days(d, a), b)
  {
    hide Serve;
    if b == [] {
      assert a + b == a;
    } else {
      var n := |b| - 1;
      assert (a + b)[..|a + b| - 1] == a + b[..n];
      DaysConcat(d, a, b[..n]);
    }
  }

  const FIRST_DAY := "2024-01-01"
  const SECOND_DAY := "2024-01-02"

  lemma DaysOrder()
    ensures Less(FIRST_DAY, SECOND_DAY) && !Less(FIRST_DAY, FIRST_DAY) && !Less(SECOND_DAY, SECOND_DAY)
    ensures !Less(SECOND_DAY, FIRST_DAY)
  {
    LessConcat("2024-01-0", "2024-01-0", "1", "2");
    LessConcat("2024-01-0", "2024-01-0", "2", "1");
    assert "2024-01-0" + "1" == FIRST_DAY && "2024-01-0" + "2" == SECOND_DAY;
    LessIrreflexive(FIRST_DAY);
    LessIrreflexive(SECOND_DAY);
    LessIrreflexive("2024-01-0");
  }

  lemma MorningTimes()
    ensures ValidSlot("morning") && SlotNow("morning", "09:00") && !SlotEnded("morning", "09:00")
    ensures SlotEnded("morning", "12:00")
  {
    assert Less("9:00", "8:00") == false;
    LessConcat("0", "0", "9:00", "8:00");
    assert "0" + "9:00" == "09:00" && "0" + "8:00" == "08:00";
    LessConcat("0", "1", "9:00", "2:00");
    assert "1" + "2:00" == "12:00";
    LessIrreflexive("12:00");
    LessIrreflexive("0");
  }

  /** Seat 1, free, on the first day. */
  function Opening(): Desk { Desk([], map[1 := false], FIRST_DAY, "") }

  function Sit(date: string): seq<Visit> {
    [Reserve(7, 1, date, "morning", "09:00"), Checkin(7, if date == FIRST_DAY then 0 else 1, "09:00")]
  }

  function Seated(date: string): Reservation { Reservation(1, 7, date, "morning", CheckedIn) }

  lemma FirstMorning()
    ensures Days(Opening(), Sit(FIRST_DAY)) == Desk([Seated(FIRST_DAY)], map[1 := true], FIRST_DAY, "")
  {
    hide Less, SlotNow, SlotEnded, ValidSlot;
    DaysOrder();
    MorningTimes();
    var a, b := Sit(FIRST_DAY)[0], Sit(FIRST_DAY)[1];
    Two(Opening(), a, b);
    assert Serve(Opening(), a).rs == [Reservation(1, 7, FIRST_DAY, "morning", Active)];
  }

  lemma SecondMorning(d: Desk)
    requires d == Desk([Seated(FIRST_DAY)], map[1 := true], SECOND_DAY, "")
    ensures Days(d, Sit(SECOND_DAY)) == Desk([Seated(FIRST_DAY), Seated(SECOND_DAY)], map[1 := true], SECOND_DAY, "")
  {
    hide Less, SlotNow, SlotEnded, ValidSlot;
    DaysOrder();
    MorningTimes();
    var a, b := Sit(SECOND_DAY)[0], Sit(SECOND_DAY)[1];
    Two(d, a, b);
    assert Serve(d, a).rs == [Seated(FIRST_DAY), Reservation(1, 7, SECOND_DAY, "morning", Active)];
  }

  /** A reader sits down on one morning and again on the next; an expiry during the second visit frees the seat. */
  lemma ReleasedUnderTheReader()
    ensures var d := Days(Opening(), Sit(FIRST_DAY) + [NewDate(SECOND_DAY)] + Sit(SECOND_DAY) + [Expire]);
            && DeskInv(Opening()) && d.today == SECOND_DAY
            && d.rs == [Seated(FIRST_DAY), Seated(SECOND_DAY)] && d.seats == map[1 := false]
  {
    hide Less, SlotNow, SlotEnded, ValidSlot, Days, DeskInv;
    FreshDeskStarts([], map[1 := false], FIRST_DAY);
    DaysOrder();
    FirstMorning();
    var d1 := Desk([Seated(FIRST_DAY)], map[1 := true], FIRST_DAY, "");
    DaysConcat(Opening(), Sit(FIRST_DAY), [NewDate(SECOND_DAY)]);
    DaysConcat(Opening(), Sit(FIRST_DAY) + [NewDate(SECOND_DAY)], Sit(SECOND_DAY));
    DaysConcat(Opening(), Sit(FIRST_DAY) + [NewDate(SECOND_DAY)] + Sit(SECOND_DAY), [Expire]);
    One(d1, NewDate(SECOND_DAY));
    SecondMorning(d1.(today := SECOND_DAY));
    var d3 := Desk([Seated(FIRST_DAY), Seated(SECOND_DAY)], map[1 := true], SECOND_DAY, "");
    One(d3, Expire);
    assert PastCheckin(d3.rs[0], SECOND_DAY);
  }

  lemma One(d: Desk, v: Visit)
    ensures Days(d, [v]) == Serve(d, v)
  {
    hide Serve;
    assert [v][..0] == [];
  }

  /**
   At noon the morning slot has ended, so nobody may reserve it; the seat stays occupied through an
   expiry that day.
   */
  lemma KeptAfterTheSlot()
    ensures var d := Days(Opening(), Sit(FIRST_DAY) + [Reserve(8, 1, FIRST_DAY, "morning", "12:00"), Expire]);
            && ReserveCall([Seated(FIRST_DAY)], map[1 := true], 8, 1, FIRST_DAY, "morning", FIRST_DAY, "12:00").0
                 == Err(SlotInvalid)
            && d.seats == map[1 := true] && d.rs == [Seated(FIRST_DAY)]
  {
    hide Less, SlotNow, SlotEnded, ValidSlot, Days;
    DaysOrder();
    MorningTimes();
    FirstMorning();
    var d1 := Desk([Seated(FIRST_DAY)], map[1 := true], FIRST_DAY, "");
    var late := Reserve(8, 1, FIRST_DAY, "morning", "12:00");
    DaysConcat(Opening(), Sit(FIRST_DAY), [late, Expire]);
    Two(d1, late, Expire);
    assert Serve(d1, late) == d1;
    assert !PastCheckin(Seated(FIRST_DAY), FIRST_DAY) && !PastActive(Seated(FIRST_DAY), FIRST_DAY);
  }
}
