/**
 The seat desk's rules in hours and rows: when a slot is open, what a reservation needs, and
 what every reservation, check-in and cancellation has seen, under any interleaving.
 */
module SeatChecks {
  import opened Dates
  import opened SeatMachine
  import opened Seats
  import opened Sums

  // ---- Hours ----

  /** A time of day as the desk's clock writes it. */
  function ClockText(h: int, m: int): string
    requires 0 <= h < 24 && 0 <= m < 60
  {
    [Digit(h / 10), Digit(h % 10), ':', Digit(m / 10), Digit(m % 10)]
  }

  lemma TwoDigits(a: int, b: int, c: int, d: int)
    requires 0 <= a < 10 && 0 <= b < 10 && 0 <= c < 10 && 0 <= d < 10
    ensures Less([Digit(a), Digit(b)], [Digit(c), Digit(d)]) <==> 10 * a + b < 10 * c + d
    ensures [Digit(a), Digit(b)] == [Digit(c), Digit(d)] <==> 10 * a + b == 10 * c + d
  {
    LessLastDigit([], [], a, c);
    LessLastDigit([Digit(a)], [Digit(c)], b, d);
    assert [] + [Digit(a)] == [Digit(a)] && [] + [Digit(c)] == [Digit(c)];
    assert [Digit(a)] + [Digit(b)] == [Digit(a), Digit(b)] && [Digit(c)] + [Digit(d)] == [Digit(c), Digit(d)];
  }

  lemma ClockOrder(h: int, m: int, i: int, n: int)
    requires 0 <= h < 24 && 0 <= m < 60 && 0 <= i < 24 && 0 <= n < 60
    ensures Less(ClockText(h, m), ClockText(i, n)) <==> 60 * h + m < 60 * i + n
  {
    var a, b := [Digit(h / 10), Digit(h % 10)], [Digit(m / 10), Digit(m % 10)];
    var c, d := [Digit(i / 10), Digit(i % 10)], [Digit(n / 10), Digit(n % 10)];
    hide Digit, Less;
    TwoDigits(h / 10, h % 10, i / 10, i % 10);
    TwoDigits(m / 10, m % 10, n / 10, n % 10);
    LessConcat(a + ":", c + ":", b, d);
    LessConcat(a, c, ":", ":");
    LessIrreflexive(":");
    assert a + ":" + b == ClockText(h, m) && c + ":" + d == ClockText(i, n);
    assert a == c ==> a + ":" == c + ":";
    assert a + ":" == c + ":" ==> a == c by { assert (a + ":")[..2] == a && (c + ":")[..2] == c; }
  }

  /** Minutes of the day from which, and before which, a slot is open. */
  predicate OpenAt(slot: string, minutes: int) {
    || (slot == "morning" && 8 * 60 <= minutes < 12 * 60)
    || (slot == "afternoon" && 13 * 60 <= minutes < 17 * 60)
    || (slot == "evening" && 18 * 60 <= minutes < 22 * 60)
  }

  predicate EndedAt(slot: string, minutes: int) {
    || (slot == "morning" && minutes >= 12 * 60)
    || (slot == "afternoon" && minutes >= 17 * 60)
    || (slot == "evening" && minutes >= 22 * 60)
  }

  predicate IsSlot(slot: string) { slot == "morning" || slot == "afternoon" || slot == "evening" }

  lemma SlotTexts()
    ensures ClockText(8, 0) == "08:00" && ClockText(12, 0) == "12:00" && ClockText(13, 0) == "13:00"
    ensures ClockText(17, 0) == "17:00" && ClockText(18, 0) == "18:00" && ClockText(22, 0) == "22:00"
  {
  }

  /** The morning slot is open from 8 to 12, the afternoon slot from 13 to 17, the evening slot from 18 to 22. */
  lemma SlotHours(slot: string, h: int, m: int)
    requires 0 <= h < 24 && 0 <= m < 60
    ensures ValidSlot(slot) <==> IsSlot(slot)
    ensures SlotNow(slot, ClockText(h, m)) <==> OpenAt(slot, 60 * h + m)
    ensures SlotEnded(slot, ClockText(h, m)) <==> EndedAt(slot, 60 * h + m)
  {
    hide ClockText, Less;
    SlotTexts();
    if slot == "morning" {
      ClockOrder(h, m, 8, 0);
      ClockOrder(h, m, 12, 0);
    } else if slot == "afternoon" {
      ClockOrder(h, m, 13, 0);
      ClockOrder(h, m, 17, 0);
    } else if slot == "evening" {
      ClockOrder(h, m, 18, 0);
      ClockOrder(h, m, 22, 0);
    }
  }

  // ---- Reserving and checking in, as whole calls ----

  /** Nobody holds the seat for the slot. */
  predicate SeatFree(rs: seq<Reservation>, seat: int, date: string, slot: string) {
    forall i ::
      0 <= i < |rs| && rs[i].seat == seat && rs[i].date == date && rs[i].slot == slot ==>
        rs[i].status != Active && rs[i].status != CheckedIn
  }

  /** The patron holds no seat that day. */
  predicate DayFree(rs: seq<Reservation>, patron: int, date: string) {
    forall i ::
      0 <= i < |rs| && rs[i].patron == patron && rs[i].date == date ==>
        rs[i].status != Active && rs[i].status != CheckedIn
  }

  lemma FreeIffNotTaken(rs: seq<Reservation>, patron: int, seat: int, date: string, slot: string)
    ensures SeatFree(rs, seat, date, slot) <==> !SeatTaken(rs, seat, date, slot)
    ensures DayFree(rs, patron, date) <==> !DayTaken(rs, patron, date)
  {
  }

  /** What is asked of a request before the insert, at a time of day. */
  predicate MayAsk(seats: map<int, bool>, seat: int, date: string, slot: string, today: string, minutes: int) {
    IsSlot(slot) && !(date == today && EndedAt(slot, minutes)) && !Less(date, today) && seat in seats
  }

  /**
   A reservation is made exactly for a slot of the day that has not ended, today or later, on a seat
   that exists, when nobody holds the seat for that slot and the patron holds none that day. It
   adds one active row; otherwise nothing changes, and the error names the first condition that
   fails.
   */
  lemma ReserveSucceedsIff(rs: seq<Reservation>, seats: map<int, bool>, patron: int, seat: int, date: string,
      slot: string, today: string, h: int, m: int)
    requires 0 <= h < 24 && 0 <= m < 60
    ensures var (r, after) := ReserveCall(rs, seats, patron, seat, date, slot, today, ClockText(h, m));
            var may := MayAsk(seats, seat, date, slot, today, 60 * h + m);
            var open := IsSlot(slot) && !(date == today && EndedAt(slot, 60 * h + m));
            && (r.Ok? <==> may && SeatFree(rs, seat, date, slot) && DayFree(rs, patron, date))
            && (r.Ok? ==> r.value == |rs| && after == rs + [Reservation(seat, patron, date, slot, Active)])
            && (r.Err? ==> after == rs)
            && (r == Err(SlotInvalid) <==> !open)
            && (r == Err(DatePast) <==> open && Less(date, today))
            && (r == Err(SeatNotFound) <==> open && !Less(date, today) && seat !in seats)
            && (r == Err(AlreadyReserved) <==> may && !SeatFree(rs, seat, date, slot))
            && (r == Err(QuotaReached) <==> may && SeatFree(rs, seat, date, slot) && !DayFree(rs, patron, date))
  {
    hide SlotEnded, ValidSlot, ClockText, Less, SeatTaken, DayTaken, SeatFree, DayFree, EndedAt, IsSlot;
    SlotHours(slot, h, m);
    FreeIffNotTaken(rs, patron, seat, date, slot);
  }

  /**
   A check-in succeeds exactly on the patron's own active reservation for today, while its slot is
   open; otherwise the error names the first condition that fails.
   */
  lemma CheckinSucceedsIff(rs: seq<Reservation>, patron: int, id: int, today: string, h: int, m: int)
    requires 0 <= h < 24 && 0 <= m < 60
    ensures var r := CheckinAnswer(rs, patron, id, today, ClockText(h, m));
            if !IsRow(id, rs) then r == Err(ReservationNotFound)
            else
              var row := rs[id];
              var open := OpenAt(row.slot, 60 * h + m);
              && (r == Ok(id) <==> row.patron == patron && row.status == Active && row.date == today && open)
              && (r == Err(NotMine) <==> row.patron != patron)
              && (r == Err(Closed) <==> row.patron == patron && row.status != Active)
              && (r == Err(CheckinDate) <==> row.patron == patron && row.status == Active && row.date != today)
              && (r == Err(CheckinTime) <==>
                    row.patron == patron && row.status == Active && row.date == today && !open)
  {
    hide ClockText, SlotNow, OpenAt;
    if IsRow(id, rs) { SlotHours(rs[id].slot, h, m); }
  }

  // ---- Where a call was before ----

  predicate IsStep(a: Action, c: int) { a.Step? && a.call == c }

  /** The own active reservation of a patron. */
  predicate OwnActive(rs: seq<Reservation>, patron: int, id: int) {
    IsRow(id, rs) && rs[id].patron == patron && rs[id].status == Active
  }

  /** The step to `next` was made at `k` and saw what it had to see. */
  predicate Moved(s: State, k: Call, next: Call, today: string, now: string) {
    match next
    case ReserveReady(p, seat, date, slot) =>
      && k == ReserveStart(p, seat, date, slot) && ValidSlot(slot) && !(date == today && SlotEnded(slot, now))
      && !Less(date, today) && seat in s.seats
    case CancelReady(id) => k.CancelStart? && k.id == id && OwnActive(s.rs, k.patron, id)
    case CheckinReady(id, seat) =>
      && k.CheckinStart? && k.id == id && OwnActive(s.rs, k.patron, id) && seat == s.rs[id].seat
      && s.rs[id].date == today && SlotNow(s.rs[id].slot, now)
    case _ => true
  }

  lemma StepMoves(s: State, a: Action, c: int)
    requires IsRow(c, Apply(s, a).calls)
    ensures !IsRow(c, s.calls) ==> Starting(Apply(s, a).calls[c])
    ensures IsRow(c, s.calls) && !IsStep(a, c) ==> Apply(s, a).calls[c] == s.calls[c]
    ensures IsRow(c, s.calls) && IsStep(a, c) && Apply(s, a).calls[c] != s.calls[c] ==>
              Moved(s, s.calls[c], Apply(s, a).calls[c], a.today, a.now)
  {
    hide SlotEnded, ValidSlot, SlotNow, Less, StaleIds, StaleSeats, Inserted, Swapped, Occupied;
  }

  /** At action `n` call `c` came to where it is before action `m`. */
  predicate CameAt(s: State, actions: seq<Action>, c: int, n: nat, m: nat) {
    && n < m <= |actions| && IsStep(actions[n], c)
    && IsRow(c, Run(s, actions[..n]).calls) && IsRow(c, Run(s, actions[..m]).calls)
    && Moved(Run(s, actions[..n]), Run(s, actions[..n]).calls[c], Run(s, actions[..m]).calls[c],
             actions[n].today, actions[n].now)
  }

  lemma {:induction false} Back(s: State, actions: seq<Action>, c: int, m: nat) returns (n: nat)
    requires m <= |actions| && |s.calls| <= c && IsRow(c, Run(s, actions[..m]).calls)
    requires !Starting(Run(s, actions[..m]).calls[c])
    ensures CameAt(s, actions, c, n, m)
    decreases m
  {
    hide Apply, Moved, Starting;
    assert m > 0 ==> actions[..m][..m - 1] == actions[..m - 1];
    StepMoves(Run(s, actions[..m - 1]), actions[m - 1], c);
    if IsStep(actions[m - 1], c) && Run(s, actions[..m - 1]).calls[c] != Run(s, actions[..m]).calls[c] {
      n := m - 1;
    } else {
      n := Back(s, actions, c, m - 1);
    }
  }

  // ---- Where a row was before ----

  lemma RowMoves(s: State, a: Action, i: int)
    requires IsRow(i, Apply(s, a).rs)
    ensures !IsRow(i, s.rs) ==>
              && a.Step? && IsRow(a.call, s.calls) && s.calls[a.call].ReserveReady?
              && var k := s.calls[a.call];
                 && SeatFree(s.rs, k.seat, k.date, k.slot) && DayFree(s.rs, k.patron, k.date)
                 && i == |s.rs| && Apply(s, a).rs == s.rs + [Reservation(k.seat, k.patron, k.date, k.slot, Active)]
    ensures IsRow(i, s.rs) && Apply(s, a).rs[i] != s.rs[i] ==>
              && a.Step? && IsRow(a.call, s.calls) && s.rs[i].status == Active
              && Apply(s, a).rs[i] == s.rs[i].(status := Apply(s, a).rs[i].status)
              && (Apply(s, a).rs[i].status == CheckedIn ==>
                    s.calls[a.call].CheckinReady? && s.calls[a.call].id == i)
              && (Apply(s, a).rs[i].status == Cancelled ==> s.calls[a.call].CancelReady? && s.calls[a.call].id == i)
  {
    hide SlotEnded, ValidSlot, SlotNow, Less, StaleIds, StaleSeats, SeatTaken, DayTaken, SeatFree, DayFree, Occupied;
    hide CancelAllowed, CheckinAllowed;
    if a.Step? && IsRow(a.call, s.calls) && s.calls[a.call].ReserveReady? {
      var k := s.calls[a.call];
      FreeIffNotTaken(s.rs, k.patron, k.seat, k.date, k.slot);
    }
  }

  /** The action that added row `i`, or gave it its present status. */
  predicate RowCameAt(s: State, actions: seq<Action>, i: int, n: nat) {
    && n < |actions| && IsRow(i, Run(s, actions[..n + 1]).rs) && IsRow(i, Run(s, actions).rs)
    && Run(s, actions[..n + 1]) == Apply(Run(s, actions[..n]), actions[n])
    && Run(s, actions[..n + 1]).rs[i] == Run(s, actions).rs[i]
    && (IsRow(i, Run(s, actions[..n]).rs) ==> Run(s, actions[..n]).rs[i] != Run(s, actions).rs[i])
  }

  lemma {:induction false} RowBack(s: State, actions: seq<Action>, i: int) returns (n: nat)
    requires IsRow(i, Run(s, actions).rs) && (IsRow(i, s.rs) ==> s.rs[i] != Run(s, actions).rs[i])
    ensures RowCameAt(s, actions, i, n)
  {
    hide Apply;
    var m := |actions| - 1;
    assert actions[..m + 1] == actions;
    var before := Run(s, actions[..m]);
    if IsRow(i, before.rs) && before.rs[i] == Run(s, actions).rs[i] {
      n := RowBack(s, actions[..m], i);
      assert actions[..m][..n] == actions[..n] && actions[..m][..n + 1] == actions[..n + 1];
    } else {
      n := m;
    }
  }

  // ---- What rows have seen ----

  /**
   Under every interleaving, a row that is checked in was so from the start, or: a call of its
   patron saw it active, dated today, with its slot open, and the step that checked it in found it
   still active.
   */
  lemma CheckinsWereAllowed(s: State, actions: seq<Action>, i: int) returns (c: int, look: nat, commit: nat)
    requires s.calls == [] && IsRow(i, Run(s, actions).rs) && Run(s, actions).rs[i].status == CheckedIn
    requires IsRow(i, s.rs) ==> s.rs[i].status != CheckedIn
    ensures look < commit < |actions| && IsStep(actions[look], c) && IsStep(actions[commit], c)
    ensures var rs := Run(s, actions[..look]).rs;
            && IsRow(i, rs) && rs[i].status == Active && rs[i].date == actions[look].today
            && SlotNow(rs[i].slot, actions[look].now)
            && IsRow(c, Run(s, actions[..look]).calls)
            && Run(s, actions[..look]).calls[c] == CheckinStart(rs[i].patron, i)
    ensures var before, after := Run(s, actions[..commit]).rs, Run(s, actions[..commit + 1]).rs;
            IsRow(i, before) && before[i].status == Active && IsRow(i, after) && after[i] == Run(s, actions).rs[i]
  {
    hide Run, Apply, SlotNow, SeatFree, DayFree;
    commit := RowBack(s, actions, i);
    RowMoves(Run(s, actions[..commit]), actions[commit], i);
    c := actions[commit].call;
    look := Back(s, actions, c, commit);
  }

  /** Under every interleaving, a row that was cancelled on the way was cancelled by a call of its own patron. */
  lemma CancelsWereOwn(s: State, actions: seq<Action>, i: int) returns (c: int, look: nat, commit: nat)
    requires s.calls == [] && IsRow(i, Run(s, actions).rs) && Run(s, actions).rs[i].status == Cancelled
    requires IsRow(i, s.rs) ==> s.rs[i].status != Cancelled
    ensures look < commit < |actions| && IsStep(actions[look], c) && IsStep(actions[commit], c)
    ensures var rs := Run(s, actions[..look]).rs;
            && IsRow(i, rs) && rs[i].status == Active && IsRow(c, Run(s, actions[..look]).calls)
            && Run(s, actions[..look]).calls[c] == CancelStart(rs[i].patron, i)
    ensures var before, after := Run(s, actions[..commit]).rs, Run(s, actions[..commit + 1]).rs;
            IsRow(i, before) && before[i].status == Active && IsRow(i, after) && after[i] == Run(s, actions).rs[i]
  {
    hide Run, Apply, SlotNow, SeatFree, DayFree;
    commit := RowBack(s, actions, i);
    RowMoves(Run(s, actions[..commit]), actions[commit], i);
    c := actions[commit].call;
    look := Back(s, actions, c, commit);
  }

  lemma {:induction false} RowAdded(s: State, actions: seq<Action>, i: int) returns (n: nat)
    requires IsRow(i, Run(s, actions).rs) && !IsRow(i, s.rs)
    ensures n < |actions| && !IsRow(i, Run(s, actions[..n]).rs) && IsRow(i, Run(s, actions[..n + 1]).rs)
    ensures Run(s, actions[..n + 1]) == Apply(Run(s, actions[..n]), actions[n])
  {
    hide Apply;
    var m := |actions| - 1;
    assert actions[..m + 1] == actions;
    if IsRow(i, Run(s, actions[..m]).rs) {
      n := RowAdded(s, actions[..m], i);
      assert actions[..m][..n] == actions[..n] && actions[..m][..n + 1] == actions[..n + 1];
    } else {
      n := m;
    }
  }

  /**
   Under every interleaving, every new row was added by a call that saw a slot of the day not ended,
   a date not past and an existing seat, in a step that found the seat free for the slot and the
   patron free that day.
   */
  lemma ReservationsWereAllowed(s: State, actions: seq<Action>, i: int)
    returns (row: Reservation, c: int, look: nat, commit: nat)
    requires s.calls == [] && IsRow(i, Run(s, actions).rs) && !IsRow(i, s.rs)
    ensures look < commit < |actions| && IsStep(actions[look], c) && IsStep(actions[commit], c)
    ensures IsRow(c, Run(s, actions[..look]).calls)
    ensures var db, today, now := Run(s, actions[..look]), actions[look].today, actions[look].now;
            && db.calls[c] == ReserveStart(row.patron, row.seat, row.date, row.slot)
            && ValidSlot(row.slot) && !(row.date == today && SlotEnded(row.slot, now))
            && !Less(row.date, today) && row.seat in db.seats
    ensures var before, after := Run(s, actions[..commit]).rs, Run(s, actions[..commit + 1]).rs;
            && SeatFree(before, row.seat, row.date, row.slot) && DayFree(before, row.patron, row.date)
            && row.status == Active && i == |before| && after == before + [row]
  {
    hide Run, Apply, SlotEnded, ValidSlot, Less, SeatFree, DayFree;
    commit := RowAdded(s, actions, i);
    RowMoves(Run(s, actions[..commit]), actions[commit], i);
    c := actions[commit].call;
    look := Back(s, actions, c, commit);
    row := Run(s, actions[..commit + 1]).rs[i];
  }
}
