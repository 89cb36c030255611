/**
 Seat reservations: the tables, the atomic statements on them, and the desk's
 calls as programs.
 */
module Seats {
  import opened Dates
  import opened Sums
  import opened Wrappers

  datatype Status = Active | Cancelled | CheckedIn | Expired
  datatype Reservation = Reservation(seat: int, patron: int, date: string, slot: string, status: Status)

  datatype Error = SlotInvalid | DatePast | SeatNotFound | AlreadyReserved | QuotaReached
                 | ReservationNotFound | NotMine | Closed | CheckinDate | CheckinTime
  datatype Result<+T> = Ok(value: T) | Err(error: Error)

  predicate Live(r: Reservation) { r.status == Active || r.status == CheckedIn }

  // ---- Slots ----

  function SlotStart(slot: string): Option<string> {
    if slot == "morning" then Some("08:00") else if slot == "afternoon" then Some("13:00")
    else if slot == "evening" then Some("18:00") else None
  }

  function SlotEnd(slot: string): Option<string> {
    if slot == "morning" then Some("12:00") else if slot == "afternoon" then Some("17:00")
    else if slot == "evening" then Some("22:00") else None
  }

  predicate ValidSlot(slot: string) { SlotStart(slot).Some? }

  predicate SlotEnded(slot: string, now: string) { SlotEnd(slot).Some? && !Less(now, SlotEnd(slot).value) }

  predicate SlotNow(slot: string, now: string) {
    SlotStart(slot).Some? && !Less(now, SlotStart(slot).value) && Less(now, SlotEnd(slot).value)
  }

  // ---- Statements ----

  predicate TakesSeat(r: Reservation, seat: int, date: string, slot: string) {
    Live(r) && r.seat == seat && r.date == date && r.slot == slot
  }

  predicate TakesDay(r: Reservation, patron: int, date: string) {
    Live(r) && r.patron == patron && r.date == date
  }

  predicate SeatTaken(rs: seq<Reservation>, seat: int, date: string, slot: string) {
    exists i :: 0 <= i < |rs| && TakesSeat(rs[i], seat, date, slot)
  }

  predicate DayTaken(rs: seq<Reservation>, patron: int, date: string) {
    exists i :: 0 <= i < |rs| && TakesDay(rs[i], patron, date)
  }

  /** The conditional insert: one statement, so one atomic step. */
  function Inserted(rs: seq<Reservation>, patron: int, seat: int, date: string, slot: string): seq<Reservation> {
    if SeatTaken(rs, seat, date, slot) || DayTaken(rs, patron, date) then rs
    else rs + [Reservation(seat, patron, date, slot, Active)]
  }

  /** `UPDATE .. SET status=to WHERE id=? AND status=from`. */
  function Swapped(rs: seq<Reservation>, id: int, from: Status, to: Status): seq<Reservation> {
    if IsRow(id, rs) && rs[id].status == from then rs[id := rs[id].(status := to)] else rs
  }

  predicate SwapHits(rs: seq<Reservation>, id: int, from: Status) { IsRow(id, rs) && rs[id].status == from }

  // ---- Exclusivity ----

  /** At most one live reservation per seat, date and slot, and one per patron and date. */
  ghost predicate Exclusive(rs: seq<Reservation>) {
    forall i, j :: 0 <= i < j < |rs| && Live(rs[i]) && Live(rs[j]) && rs[i].date == rs[j].date ==>
      rs[i].patron != rs[j].patron && !(rs[i].seat == rs[j].seat && rs[i].slot == rs[j].slot)
  }

  /** Rows are only added; a row keeps its terms, and once it has left Active it never changes. */
  ghost predicate Later(a: seq<Reservation>, b: seq<Reservation>) {
    && |a| <= |b|
    && (forall i :: 0 <= i < |a| ==> b[i] == a[i].(status := b[i].status))
    && (forall i :: 0 <= i < |a| && a[i].status != Active ==> b[i] == a[i])
  }

  lemma InsertKeepsExclusive(rs: seq<Reservation>, patron: int, seat: int, date: string, slot: string)
    requires Exclusive(rs)
    ensures Exclusive(Inserted(rs, patron, seat, date, slot)) && Later(rs, Inserted(rs, patron, seat, date, slot))
  {
    var n := |rs|;
    var after := Inserted(rs, patron, seat, date, slot);
    forall i, j | 0 <= i < j < |after| && Live(after[i]) && Live(after[j]) && after[i].date == after[j].date
      ensures after[i].patron != after[j].patron && !(after[i].seat == after[j].seat && after[i].slot == after[j].slot)
    {
      if j == n {
        assert !TakesSeat(rs[i], seat, date, slot);
        assert !TakesDay(rs[i], patron, date);
      }
    }
  }

  lemma SwapKeepsExclusive(rs: seq<Reservation>, id: int, to: Status)
    requires Exclusive(rs)
    ensures Exclusive(Swapped(rs, id, Active, to)) && Later(rs, Swapped(rs, id, Active, to))
  {
  }

  // ---- Reserving, as one call ----

  function ReserveCall(rs: seq<Reservation>, seats: map<int, bool>, patron: int, seat: int, date: string, slot: string,
                       today: string, now: string): (Result<int>, seq<Reservation>)
  {
    if date == today && SlotEnded(slot, now) then (Err(SlotInvalid), rs)
    else if !ValidSlot(slot) then (Err(SlotInvalid), rs)
    else if Less(date, today) then (Err(DatePast), rs)
    else if seat !in seats then (Err(SeatNotFound), rs)
    else if SeatTaken(rs, seat, date, slot) then (Err(AlreadyReserved), rs)
    else if DayTaken(rs, patron, date) then (Err(QuotaReached), rs)
    else (Ok(|rs|), Inserted(rs, patron, seat, date, slot))
  }

  function AvailableSeats(rs: seq<Reservation>, seats: map<int, bool>, date: string, slot: string): set<int> {
    set s | s in seats && !SeatTaken(rs, s, date, slot)
  }

  /** For a patron with nothing that day, a seat is listed as available exactly when the insert takes it. */
  lemma AvailableIffReservable(rs: seq<Reservation>, seats: map<int, bool>, patron: int, seat: int, date: string,
      slot: string)
    requires seat in seats && !DayTaken(rs, patron, date)
    ensures seat in AvailableSeats(rs, seats, date, slot) <==> |Inserted(rs, patron, seat, date, slot)| == |rs| + 1
  {
  }

  /** The reported error names the clause that failed, the seat clause first. */
  lemma ErrorNamesClause(rs: seq<Reservation>, seats: map<int, bool>, patron: int, seat: int, date: string,
      slot: string, today: string, now: string)
    requires ValidSlot(slot) && !Less(date, today) && !(date == today && SlotEnded(slot, now)) && seat in seats
    ensures var r := ReserveCall(rs, seats, patron, seat, date, slot, today, now).0;
            && (r.Ok? <==> |Inserted(rs, patron, seat, date, slot)| == |rs| + 1)
            && (r == Err(AlreadyReserved) <==> exists i :: 0 <= i < |rs| && TakesSeat(rs[i], seat, date, slot))
            && (r == Err(QuotaReached) <==> !SeatTaken(rs, seat, date, slot) && DayTaken(rs, patron, date))
  {
  }

  predicate CancelAllowed(rs: seq<Reservation>, patron: int, id: int) {
    IsRow(id, rs) && rs[id].patron == patron && rs[id].status == Active
  }

  predicate CheckinAllowed(rs: seq<Reservation>, patron: int, id: int, today: string, now: string) {
    CancelAllowed(rs, patron, id) && rs[id].date == today && SlotNow(rs[id].slot, now)
  }

  /** The answer to a cancellation: the first check that fails, in order. */
  function CancelAnswer(rs: seq<Reservation>, patron: int, id: int): (r: Result<int>)
    ensures r.Ok? <==> CancelAllowed(rs, patron, id)
  {
    if !IsRow(id, rs) then Err(ReservationNotFound)
    else if rs[id].patron != patron then Err(NotMine)
    else if rs[id].status != Active then Err(Closed)
    else Ok(id)
  }

  /** The answer to a check-in: the first check that fails, in order. */
  function CheckinAnswer(rs: seq<Reservation>, patron: int, id: int, today: string, now: string): (r: Result<int>)
    ensures r.Ok? <==> CheckinAllowed(rs, patron, id, today, now)
  {
    if CancelAnswer(rs, patron, id).Err? then CancelAnswer(rs, patron, id)
    else if rs[id].date != today then Err(CheckinDate)
    else if !SlotNow(rs[id].slot, now) then Err(CheckinTime)
    else Ok(id)
  }

  function Occupied(seats: map<int, bool>, seat: int): map<int, bool> {
    if seat in seats then seats[seat := true] else seats
  }

  // ---- Lazy expiry, as one call ----

  predicate PastActive(r: Reservation, today: string) { r.status == Active && Less(r.date, today) }

  predicate PastCheckin(r: Reservation, today: string) { r.status == CheckedIn && Less(r.date, today) }

  /** Every past active reservation expired. */
  function ExpiredRows(rs: seq<Reservation>, today: string): (after: seq<Reservation>)
    ensures |after| == |rs|
    ensures forall i ::
        0 <= i < |rs| ==> after[i] == if PastActive(rs[i], today) then rs[i].(status := Expired) else rs[i]
  {
    seq(|rs|, i requires 0 <= i < |rs| => if PastActive(rs[i], today) then rs[i].(status := Expired) else rs[i])
  }

  /** Ids the expiry scan collects. */
  function StaleIds(rs: seq<Reservation>, today: string): seq<int> {
    if rs == [] then []
    else
      var n := |rs| - 1;
      StaleIds(rs[..n], today) + (if PastActive(rs[n], today) then [n] else [])
  }

  /** Seats the expiry scan collects. */
  function StaleSeats(rs: seq<Reservation>, today: string): seq<int> {
    if rs == [] then []
    else
      var n := |rs| - 1;
      StaleSeats(rs[..n], today) + (if PastCheckin(rs[n], today) then [rs[n].seat] else [])
  }

  predicate Releases(rs: seq<Reservation>, seat: int, today: string) {
    exists i :: 0 <= i < |rs| && PastCheckin(rs[i], today) && rs[i].seat == seat
  }

  /** Seats (occupied or not) after releasing those with a past check-in. */
  function ReleasedSeats(rs: seq<Reservation>, seats: map<int, bool>, today: string): map<int, bool> {
    map s | s in seats :: seats[s] && !Releases(rs, s, today)
  }

  function CountIf(today: string): Reservation -> int {
    (r: Reservation) => if PastActive(r, today) then 1 else 0
  }

  /** What expiry reports: reservations expired plus seats released. */
  function ExpiryCount(rs: seq<Reservation>, seats: map<int, bool>, today: string): int {
    Sum(rs, CountIf(today)) + |set s | s in seats && seats[s] && Releases(rs, s, today)|
  }

  /** After expiry no active reservation is in the past, and every other row is as before. */
  lemma ExpiryClearsThePast(rs: seq<Reservation>, today: string)
    ensures forall i ::
        0 <= i < |rs| && Less(rs[i].date, today)
        ==> ExpiredRows(rs, today)[i] == if rs[i].status == Active then rs[i].(status := Expired) else rs[i]
    ensures forall i :: 0 <= i < |rs| && !Less(rs[i].date, today) ==> ExpiredRows(rs, today)[i] == rs[i]
    ensures Later(rs, ExpiredRows(rs, today))
    ensures Exclusive(rs) ==> Exclusive(ExpiredRows(rs, today))
  {
  }

  /** A second expiry on the same day changes nothing and reports 0. */
  lemma ExpiryIsIdempotent(rs: seq<Reservation>, seats: map<int, bool>, today: string)
    ensures var rs1, seats1 := ExpiredRows(rs, today), ReleasedSeats(rs, seats, today);
            && ExpiredRows(rs1, today) == rs1 && ReleasedSeats(rs1, seats1, today) == seats1
            && ExpiryCount(rs1, seats1, today) == 0
  {
    hide Less;
    var rs1, seats1 := ExpiredRows(rs, today), ReleasedSeats(rs, seats, today);
    SumZero(rs1, CountIf(today));
    forall s ensures Releases(rs1, s, today) <==> Releases(rs, s, today) {
      if Releases(rs, s, today) {
        var i :| 0 <= i < |rs| && PastCheckin(rs[i], today) && rs[i].seat == s;
        assert PastCheckin(rs1[i], today);
      }
    }
    assert (set s | s in seats1 && seats1[s] && Releases(rs1, s, today)) == {};
  }

  /**
   An occupied seat stays occupied through an expiry exactly when none of its check-ins is in
   the past, whatever was checked in today: past rows keep the status CheckedIn and keep
   releasing the seat.
   */
  lemma SeatKeptIffNoPastCheckin(rs: seq<Reservation>, seats: map<int, bool>, seat: int, today: string)
    requires seat in seats && seats[seat]
    ensures ReleasedSeats(rs, seats, today)[seat]
        <==> forall i ::
          0 <= i < |rs| && rs[i].seat == seat && rs[i].status == CheckedIn ==> !Less(rs[i].date, today)
  {
  }

  // ---- The desk as a program ----

  class SeatDesk {
    var rs: seq<Reservation>
    var seats: map<int, bool>

    constructor (rs0: seq<Reservation>, seats0: map<int, bool>)
      ensures rs == rs0 && seats == seats0
    {
      rs, seats := rs0, seats0;
    }

    method CreateReservation(patron: int, seat: int, date: string, slot: string) returns (r: Result<int>)
      modifies this`rs
      ensures rs == Inserted(old(rs), patron, seat, date, slot)
      ensures r == if SeatTaken(old(rs), seat, date, slot) then Err(AlreadyReserved)
                   else if DayTaken(old(rs), patron, date) then Err(QuotaReached) else Ok(|old(rs)|)
    {
      if !SeatTaken(rs, seat, date, slot) && !DayTaken(rs, patron, date) {
        rs := rs + [Reservation(seat, patron, date, slot, Active)];
        return Ok(|rs| - 1);
      }
      var conflict := SeatTaken(rs, seat, date, slot);
      if conflict { return Err(AlreadyReserved); }
      return Err(QuotaReached);
    }

    method Swap(id: int, from: Status, to: Status) returns (ok: bool)
      modifies this`rs
      ensures ok == SwapHits(old(rs), id, from) && rs == Swapped(old(rs), id, from, to)
    {
      ok := false;
      if IsRow(id, rs) && rs[id].status == from {
        rs := rs[id := rs[id].(status := to)];
        ok := true;
      }
    }

    method ReserveSeat(patron: int, seat: int, date: string, slot: string, today: string, now: string)
      returns (r: Result<int>)
      modifies this`rs
      ensures (r, rs) == ReserveCall(old(rs), seats, patron, seat, date, slot, today, now)
    {
      if date == today && SlotEnded(slot, now) { return Err(SlotInvalid); }
      if !ValidSlot(slot) { return Err(SlotInvalid); }
      if Less(date, today) { return Err(DatePast); }
      if seat !in seats { return Err(SeatNotFound); }
      r := CreateReservation(patron, seat, date, slot);
    }

    method Cancel(patron: int, id: int) returns (r: Result<int>)
      modifies this`rs
      ensures r == CancelAnswer(old(rs), patron, id)
      ensures rs == if r.Ok? then Swapped(old(rs), id, Active, Cancelled) else old(rs)
    {
      if !IsRow(id, rs) { return Err(ReservationNotFound); }
      if rs[id].patron != patron { return Err(NotMine); }
      if rs[id].status != Active { return Err(Closed); }
      var ok := Swap(id, Active, Cancelled);
      r := if ok then Ok(id) else Err(Closed);
    }

    method Checkin(patron: int, id: int, today: string, now: string) returns (r: Result<int>)
      modifies this
      ensures r == CheckinAnswer(old(rs), patron, id, today, now)
      ensures rs == if r.Ok? then Swapped(old(rs), id, Active, CheckedIn) else old(rs)
      ensures seats == if r.Ok? then Occupied(old(seats), old(rs)[id].seat) else old(seats)
    {
      if !IsRow(id, rs) { return Err(ReservationNotFound); }
      var row := rs[id];
      if row.patron != patron { return Err(NotMine); }
      if row.status != Active { return Err(Closed); }
      if row.date != today { return Err(CheckinDate); }
      if !SlotNow(row.slot, now) { return Err(CheckinTime); }
      var ok := Swap(id, Active, CheckedIn);
      if !ok { return Err(Closed); }
      if row.seat in seats { seats := seats[row.seat := true]; }
      return Ok(id);
    }

    /** The scan of `ExpireStaleSeatReservations`: ids to expire and seats to release. */
    method CollectStale(today: string) returns (expireIds: seq<int>, releaseSeats: seq<int>)
      ensures expireIds == StaleIds(rs, today) && releaseSeats == StaleSeats(rs, today)
    {
      hide Less;
      expireIds, releaseSeats := [], [];
      for i := 0 to |rs|
        invariant expireIds == StaleIds(rs[..i], today) && releaseSeats == StaleSeats(rs[..i], today)
      {
        assert rs[..i + 1][..i] == rs[..i];
        if rs[i].status == Active && Less(rs[i].date, today) {
          expireIds := expireIds + [i];
        } else if rs[i].status == CheckedIn && Less(rs[i].date, today) {
          releaseSeats := releaseSeats + [rs[i].seat];
        }
      }
      assert rs[..|rs|] == rs;
    }

    /** `ExpireStaleSeatReservations`: collect, then update row by row and seat by seat. */
    method ExpireStale(today: string) returns (n: int)
      modifies this
      ensures rs == ExpiredRows(old(rs), today)
      ensures seats == ReleasedSeats(old(rs), old(seats), today)
      ensures n == ExpiryCount(old(rs), old(seats), today)
    {
      hide Less, PastActive, Releases;
      var rows, before := rs, seats;
      var expireIds, releaseSeats := CollectStale(today);
      StaleIdsAreStale(rs, today);
      StaleSeatsAreReleased(rs, today);
      n := ExpireRows(expireIds, today);
      var m := ReleaseSeats(releaseSeats);
      assert (set s | s in before && before[s] && s in releaseSeats)
        == (set s | s in before && before[s] && Releases(rows, s, today));
      n := n + m;
    }

    method ExpireRows(ids: seq<int>, today: string) returns (n: int)
      requires forall k :: 0 <= k < |ids| ==> IsRow(ids[k], rs) && PastActive(rs[ids[k]], today)
      requires forall k, m :: 0 <= k < m < |ids| ==> ids[k] < ids[m]
      requires forall j :: IsRow(j, rs) && PastActive(rs[j], today) ==> j in ids
      modifies this`rs
      ensures rs == ExpiredRows(old(rs), today) && n == |ids|
    {
      n := 0;
      var before := rs;
      for k := 0 to |ids|
        invariant |rs| == |before| && n == k
        invariant forall j ::
            0 <= j < |rs| ==> rs[j] == if j in ids[..k] then before[j].(status := Expired) else before[j]
      {
        assert ids[k] !in ids[..k];
        assert ids[..k + 1] == ids[..k] + [ids[k]];
        var ok := Swap(ids[k], Active, Expired);
        if ok { n := n + 1; }
      }
      assert ids[..|ids|] == ids;
    }

    method ReleaseSeats(ids: seq<int>) returns (n: int)
      modifies this`seats
      ensures seats == Freed(old(seats), ids) && n == |Freeing(old(seats), ids)|
    {
      hide Freed, Freeing;
      n := 0;
      var before := seats;
      NothingFreed(before);
      for k := 0 to |ids|
        invariant seats == Freed(before, ids[..k]) && n == |Freeing(before, ids[..k])|
      {
        assert ids[..k + 1] == ids[..k] + [ids[k]];
        OneMoreSeat(before, ids[..k], ids[k]);
        if ids[k] in seats && seats[ids[k]] {
          seats := seats[ids[k] := false];
          n := n + 1;
        }
      }
      assert ids[..|ids|] == ids;
    }
  }

  /** The seats after freeing those listed. */
  function Freed(seats: map<int, bool>, ids: seq<int>): map<int, bool> { map s | s in seats :: seats[s] && s !in ids }

  /** The occupied seats among those listed. */
  function Freeing(seats: map<int, bool>, ids: seq<int>): set<int> { set s | s in seats && seats[s] && s in ids }

  lemma NothingFreed(seats: map<int, bool>)
    ensures Freed(seats, []) == seats && Freeing(seats, []) == {}
  {
  }

  lemma OneMoreSeat(seats: map<int, bool>, ids: seq<int>, id: int)
    ensures id in Freed(seats, ids) && Freed(seats, ids)[id] ==>
              Freed(seats, ids + [id]) == Freed(seats, ids)[id := false]
                && |Freeing(seats, ids + [id])| == |Freeing(seats, ids)| + 1
    ensures !(id in Freed(seats, ids) && Freed(seats, ids)[id]) ==>
              Freed(seats, ids + [id]) == Freed(seats, ids) && Freeing(seats, ids + [id]) == Freeing(seats, ids)
  {
    if id in seats && seats[id] && id !in ids {
      assert Freeing(seats, ids + [id]) == Freeing(seats, ids) + {id};
    }
  }

  /** The ids are the past active rows, each once, in order. */
  lemma {:induction false} StaleIdsAreStale(rs: seq<Reservation>, today: string)
    ensures forall k ::
        0 <= k < |StaleIds(rs, today)|
        ==> IsRow(StaleIds(rs, today)[k], rs) && PastActive(rs[StaleIds(rs, today)[k]], today)
    ensures forall k, m :: 0 <= k < m < |StaleIds(rs, today)| ==> StaleIds(rs, today)[k] < StaleIds(rs, today)[m]
    ensures forall j :: IsRow(j, rs) && PastActive(rs[j], today) ==> j in StaleIds(rs, today)
    ensures |StaleIds(rs, today)| == Sum(rs, CountIf(today))
  {
    hide PastActive;
    if rs != [] { StaleIdsAreStale(rs[..|rs| - 1], today); }
  }

  lemma {:induction false} StaleSeatsAreReleased(rs: seq<Reservation>, today: string)
    ensures forall s :: s in StaleSeats(rs, today) <==> Releases(rs, s, today)
  {
    hide PastCheckin, Releases;
    if rs == [] {
      NothingReleases(today);
    } else {
      var n := |rs| - 1;
      assert rs == rs[..n] + [rs[n]];
      StaleSeatsAreReleased(rs[..n], today);
      ReleasesAppend(rs[..n], rs[n], today);
    }
  }

  lemma NothingReleases(today: string)
    ensures forall s :: !Releases([], s, today)
  {
  }

  lemma ReleasesAppend(rs: seq<Reservation>, r: Reservation, today: string)
    ensures forall s ::
        Releases(rs + [r], s, today) <==> Releases(rs, s, today) || (PastCheckin(r, today) && r.seat == s)
  {
    hide Less;
    forall s
      ensures Releases(rs + [r], s, today) <==> Releases(rs, s, today) || (PastCheckin(r, today) && r.seat == s)
    {
      if Releases(rs, s, today) {
        var i :| 0 <= i < |rs| && PastCheckin(rs[i], today) && rs[i].seat == s;
        assert (rs + [r])[i] == rs[i];
      }
      assert (rs + [r])[|rs|] == r;
    }
  }
}
