/** The library gate: scans in and out, who is inside, and the day's statistics. */
module Gate {
  import opened Dates
  import opened GoMaps
  import opened Library
  import opened Sums

  datatype GateLog = GateLog(patron: int, direction: string, gate: string, created: string)
  datatype GateError = BadDirection | UnknownPatron | AlreadyIn | NotIn
  datatype ScanResult = Passed(id: int, gate: string, inLibrary: int) | Refused(error: GateError)
  datatype Warning = UnpaidFines | OverdueLoans
  datatype GateStats = GateStats(inToday: int, outToday: int, inLibrary: int)

  const EAST_GATE := "\U{4E1C}\U{95E8}"

  // ---- Queries ----

  /** Direction of the patron's newest row; empty if there is none. */
  function LastDirection(logs: seq<GateLog>, p: int): string {
    if logs == [] then ""
    else if logs[|logs| - 1].patron == p then logs[|logs| - 1].direction
    else LastDirection(logs[..|logs| - 1], p)
  }

  function Scanned(logs: seq<GateLog>): set<int> { set r | r in logs :: r.patron }

  /** The patrons inside: those whose newest row says `in`. */
  function Inside(logs: seq<GateLog>): set<int> { set p | p in Scanned(logs) && LastDirection(logs, p) == "in" }

  function Toward(direction: string): GateLog -> int { (r: GateLog) => if r.direction == direction then 1 else 0 }

  predicate OnDay(r: GateLog, day: string) { day <= r.created }

  function TowardOn(direction: string, day: string): GateLog -> int {
    (r: GateLog) => if r.direction == direction && OnDay(r, day) then 1 else 0
  }

  function Stats(logs: seq<GateLog>, day: string): GateStats {
    GateStats(Sum(logs, TowardOn("in", day)), Sum(logs, TowardOn("out", day)), |Inside(logs)|)
  }

  // ---- The scan ----

  function ScanCall(patrons: set<int>, logs: seq<GateLog>, p: int,
    direction: string, gate: string, now: string): (ScanResult, seq<GateLog>) {
    if direction != "in" && direction != "out" then (Refused(BadDirection), logs)
    else if p !in patrons then (Refused(UnknownPatron), logs)
    else if direction == "in" && LastDirection(logs, p) == "in" then (Refused(AlreadyIn), logs)
    else if direction == "out" && LastDirection(logs, p) != "in" then (Refused(NotIn), logs)
    else
      var at := if gate == "" then EAST_GATE else gate;
      var logs' := logs + [GateLog(p, direction, at, now)];
      (Passed(|logs|, at, |Inside(logs')|), logs')
  }

  predicate IsOverdue(l: Loan, p: int, today: string) { l.active && l.patron == p && Less(l.due, today) }

  predicate HasOverdue(loans: seq<Loan>, p: int, today: string) {
    exists i :: 0 <= i < |loans| && IsOverdue(loans[i], p, today)
  }

  lemma NoLoans(p: int, today: string)
    ensures !HasOverdue([], p, today)
  {
  }

  lemma OneMoreLoan(loans: seq<Loan>, l: Loan, p: int, today: string)
    ensures HasOverdue(loans + [l], p, today) <==> HasOverdue(loans, p, today) || IsOverdue(l, p, today)
  {
    hide IsOverdue;
    assert (loans + [l])[|loans|] == l;
    if HasOverdue(loans, p, today) {
      var i :| 0 <= i < |loans| && IsOverdue(loans[i], p, today);
      assert (loans + [l])[i] == loans[i];
    }
  }

  /** What a patron is told on entering: unpaid fines, then overdue loans. */
  function Warnings(fines: seq<Fine>, loans: seq<Loan>, p: int, today: string): seq<Warning> {
    (if SumUnpaidFines(fines, p) > 0 then [UnpaidFines] else [])
    + (if HasOverdue(loans, p, today) then [OverdueLoans] else [])
  }

  class GateDesk {
    var patrons: set<int>
    var logs: seq<GateLog>

    constructor (patrons: set<int>, logs: seq<GateLog>)
      ensures this.patrons == patrons && this.logs == logs
    {
      this.patrons, this.logs := patrons, logs;
    }

    /** `LastGateDirection`: `ORDER BY id DESC LIMIT 1`. */
    method LastGateDirection(p: int) returns (d: string)
      ensures d == LastDirection(logs, p)
    {
      var i := |logs|;
      assert logs[..|logs|] == logs;
      while i > 0
        invariant 0 <= i <= |logs|
        invariant LastDirection(logs, p) == LastDirection(logs[..i], p)
      {
        assert logs[..i][..i - 1] == logs[..i - 1];
        i := i - 1;
        if logs[i].patron == p { return logs[i].direction; }
      }
      return "";
    }

    /** `InLibraryCount`: the greatest id per patron, joined back to the rows, counting those that say `in`. */
    method InLibraryCount() returns (n: int)
      ensures n == |Inside(logs)|
    {
      hide *;
      var last := NewestRows(logs);
      n := 0;
      var todo, done: set<int> := last.Keys, {};
      NobodyAmong(logs);
      while todo != {}
        invariant done + todo == last.Keys && done !! todo
        invariant n == |InsideAmong(logs, done)|
        decreases todo
      {
        var p := Any(todo);
        OneMoreAmong(logs, done, p);
        if logs[last[p]].direction == "in" { n := n + 1; }
        todo, done := todo - {p}, done + {p};
      }
      assert done == Scanned(logs);
      EverybodyAmong(logs);
    }

    /** `InsertGateLog`. */
    method InsertGateLog(row: GateLog) returns (id: int)
      modifies this`logs
      ensures logs == old(logs) + [row] && id == |old(logs)|
    {
      id := |logs|;
      logs := logs + [row];
    }

    /** `gateWarnings`. */
    method GateWarnings(fines: seq<Fine>, loans: seq<Loan>, p: int, today: string) returns (warnings: seq<Warning>)
      ensures warnings == Warnings(fines, loans, p, today)
    {
      hide Less, SumUnpaidFines, HasOverdue;
      NoLoans(p, today);
      warnings := [];
      if SumUnpaidFines(fines, p) > 0 { warnings := warnings + [UnpaidFines]; }
      var overdue := 0;
      for i := 0 to |loans|
        invariant overdue >= 0 && (overdue > 0 <==> HasOverdue(loans[..i], p, today))
      {
        assert loans[..i + 1] == loans[..i] + [loans[i]];
        OneMoreLoan(loans[..i], loans[i], p, today);
        if loans[i].active && loans[i].patron == p && Less(loans[i].due, today) { overdue := overdue + 1; }
      }
      assert loans[..|loans|] == loans;
      if overdue > 0 { warnings := warnings + [OverdueLoans]; }
    }

    /** `GateScan`; the fines and loans are those of the library's tables. */
    method GateScan(p: int, direction: string, gate: string, now: string, fines: seq<Fine>, loans: seq<Loan>,
        today: string)
      returns (r: ScanResult, warnings: seq<Warning>)
      modifies this`logs
      ensures (r, logs) == ScanCall(patrons, old(logs), p, direction, gate, now)
      ensures warnings == if r.Passed? && direction == "in" then Warnings(fines, loans, p, today) else []
    {
      hide LastDirection, Inside, Warnings;
      warnings := [];
      if direction != "in" && direction != "out" { return Refused(BadDirection), []; }
      var at := gate;
      if at == "" { at := EAST_GATE; }
      if p !in patrons { return Refused(UnknownPatron), []; }
      var last := LastGateDirection(p);
      if direction == "in" && last == "in" { return Refused(AlreadyIn), []; }
      if direction == "out" && last != "in" { return Refused(NotIn), []; }
      var id := InsertGateLog(GateLog(p, direction, at, now));
      if direction == "in" { warnings := GateWarnings(fines, loans, p, today); }
      var n := InLibraryCount();
      r := Passed(id, at, n);
    }

    /** `GateStatsToday`. */
    method GateStatsToday(day: string) returns (s: GateStats)
      ensures s == Stats(logs, day)
    {
      var ins, outs := 0, 0;
      for i := 0 to |logs|
        invariant ins == Sum(logs[..i], TowardOn("in", day)) && outs == Sum(logs[..i], TowardOn("out", day))
      {
        assert logs[..i + 1][..i] == logs[..i];
        if logs[i].direction == "in" && OnDay(logs[i], day) { ins := ins + 1; }
        if logs[i].direction == "out" && OnDay(logs[i], day) { outs := outs + 1; }
      }
      assert logs[..|logs|] == logs;
      var n := InLibraryCount();
      s := GateStats(ins, outs, n);
    }
  }

  /** `MAX(id) GROUP BY patron_id`. */
  method NewestRows(logs: seq<GateLog>) returns (last: map<int, int>)
    ensures last.Keys == Scanned(logs)
    ensures forall p ::
        p in last
        ==> 0 <= last[p] < |logs| && logs[last[p]].patron == p && logs[last[p]].direction == LastDirection(logs, p)
  {
    last := map[];
    for i := 0 to |logs|
      invariant last.Keys == Scanned(logs[..i])
      invariant forall p ::
          p in last
          ==> 0 <= last[p] < i && logs[last[p]].patron == p && logs[last[p]].direction == LastDirection(logs[..i], p)
    {
      assert logs[..i + 1] == logs[..i] + [logs[i]];
      last := last[logs[i].patron := i];
    }
    assert logs[..|logs|] == logs;
  }

  function InsideAmong(logs: seq<GateLog>, ps: set<int>): set<int> { set p | p in ps && LastDirection(logs, p) == "in" }

  lemma NobodyAmong(logs: seq<GateLog>)
    ensures InsideAmong(logs, {}) == {}
  {
  }

  lemma OneMoreAmong(logs: seq<GateLog>, ps: set<int>, p: int)
    requires p !in ps
    ensures |InsideAmong(logs, ps + {p})| == |InsideAmong(logs, ps)| + (if LastDirection(logs, p) == "in" then 1 else 0)
  {
    hide LastDirection;
    if LastDirection(logs, p) == "in" {
      assert InsideAmong(logs, ps + {p}) == InsideAmong(logs, ps) + {p};
    } else {
      assert InsideAmong(logs, ps + {p}) == InsideAmong(logs, ps);
    }
  }

  lemma EverybodyAmong(logs: seq<GateLog>)
    ensures InsideAmong(logs, Scanned(logs)) == Inside(logs)
  {
    hide LastDirection;
  }

  // ---- Each patron alternates ----

  predicate Allowed(logs: seq<GateLog>, row: GateLog) {
    row.direction == (if LastDirection(logs, row.patron) == "in" then "out" else "in")
  }

  /** Every row was allowed when it was written. */
  predicate Legal(logs: seq<GateLog>) {
    logs == [] || (Legal(logs[..|logs| - 1]) && Allowed(logs[..|logs| - 1], logs[|logs| - 1]))
  }

  /** A patron's directions, in order. */
  function Trail(logs: seq<GateLog>, p: int): seq<string> {
    if logs == [] then []
    else
      var last := logs[|logs| - 1];
      Trail(logs[..|logs| - 1], p) + (if last.patron == p then [last.direction] else [])
  }

  predicate Alternates(trail: seq<string>) {
    forall k :: 0 <= k < |trail| ==> trail[k] == (if k % 2 == 0 then "in" else "out")
  }

  lemma {:induction false} TrailEnds(logs: seq<GateLog>, p: int)
    ensures LastDirection(logs, p) == if Trail(logs, p) == [] then "" else Trail(logs, p)[|Trail(logs, p)| - 1]
  {
    if logs != [] { TrailEnds(logs[..|logs| - 1], p); }
  }

  lemma AlternatesLast(trail: seq<string>, d: string)
    ensures Alternates(trail + [d])
        <==> Alternates(trail) && d == (if trail != [] && trail[|trail| - 1] == "in" then "out" else "in")
  {
    var longer := trail + [d];
    if Alternates(longer) {
      forall k | 0 <= k < |trail|
        ensures trail[k] == (if k % 2 == 0 then "in" else "out")
      {
        assert longer[k] == trail[k];
      }
    }
    if Alternates(trail) && trail != [] {
      assert trail[|trail| - 1] == (if (|trail| - 1) % 2 == 0 then "in" else "out");
    }
    assert longer[|trail|] == d;
  }

  lemma TrailGrows(front: seq<GateLog>, row: GateLog, p: int)
    ensures Trail(front + [row], p) == if row.patron == p then Trail(front, p) + [row.direction] else Trail(front, p)
  {
    assert (front + [row])[..|front|] == front;
  }

  lemma OneMoreAlternates(front: seq<GateLog>, row: GateLog, p: int)
    ensures Alternates(Trail(front + [row], p))
        <==> Alternates(Trail(front, p)) && (row.patron == p ==> Allowed(front, row))
  {
    hide Alternates, Trail, LastDirection;
    TrailGrows(front, row, p);
    if row.patron == p {
      TrailEnds(front, p);
      AlternatesLast(Trail(front, p), row.direction);
    }
  }

  ghost predicate AllAlternate(logs: seq<GateLog>) { forall p :: Alternates(Trail(logs, p)) }

  lemma AllAlternateLast(front: seq<GateLog>, row: GateLog)
    ensures AllAlternate(front + [row]) <==> AllAlternate(front) && Allowed(front, row)
  {
    hide Alternates, Trail, Allowed;
    forall p
      ensures Alternates(Trail(front + [row], p))
          <==> Alternates(Trail(front, p)) && (row.patron == p ==> Allowed(front, row))
    {
      OneMoreAlternates(front, row, p);
    }
    if AllAlternate(front + [row]) {
      assert Alternates(Trail(front + [row], row.patron));
      forall p ensures Alternates(Trail(front, p)) { assert Alternates(Trail(front + [row], p)); }
    } else {
      var p :| !Alternates(Trail(front + [row], p));
      assert !Alternates(Trail(front, p)) || (row.patron == p && !Allowed(front, row));
    }
  }

  /** Every row was allowed exactly when every patron goes in, out, in, out, starting with in. */
  lemma {:induction false} LegalIffAlternating(logs: seq<GateLog>)
    ensures Legal(logs) <==> AllAlternate(logs)
  {
    hide AllAlternate, Allowed;
    if logs == [] {
      assert AllAlternate(logs) by { NoTrails(); }
    } else {
      var front, row := logs[..|logs| - 1], logs[|logs| - 1];
      assert logs == front + [row];
      LegalIffAlternating(front);
      AllAlternateLast(front, row);
    }
  }

  lemma NoTrails()
    ensures AllAlternate([])
  {
    forall p ensures Alternates(Trail([], p)) { NoTrail(p); }
  }

  lemma NoTrail(p: int)
    ensures Alternates(Trail([], p))
  {
  }

  // ---- Whole runs ----

  datatype GateState = GateState(patrons: set<int>, logs: seq<GateLog>)
  datatype GateEvent =
    | Scan(patron: int, direction: string, gate: string, now: string)
    | Register(patron: int)
    | Remove(patron: int)

  function Handle(s: GateState, e: GateEvent): GateState {
    match e
    case Scan(p, direction, gate, now) => s.(logs := ScanCall(s.patrons, s.logs, p, direction, gate, now).1)
    case Register(p) => s.(patrons := s.patrons + {p})
    case Remove(p) => s.(patrons := s.patrons - {p})
  }

  function Run(s: GateState, events: seq<GateEvent>): GateState {
    if events == [] then s else Handle(Run(s, events[..|events| - 1]), events[|events| - 1])
  }

  lemma ScanKeepsLegal(patrons: set<int>, logs: seq<GateLog>, p: int, direction: string, gate: string, now: string)
    requires Legal(logs)
    ensures Legal(ScanCall(patrons, logs, p, direction, gate, now).1)
  {
    hide LastDirection, Inside;
    var at := if gate == "" then EAST_GATE else gate;
    assert (logs + [GateLog(p, direction, at, now)])[..|logs|] == logs;
  }

  lemma {:induction false} RunKeepsLegal(s: GateState, events: seq<GateEvent>)
    requires Legal(s.logs)
    ensures Legal(Run(s, events).logs)
  {
    hide ScanCall, Legal;
    if events != [] {
      var before := Run(s, events[..|events| - 1]);
      RunKeepsLegal(s, events[..|events| - 1]);
      match events[|events| - 1] {
        case Scan(p, direction, gate, now) => ScanKeepsLegal(before.patrons, before.logs, p, direction, gate, now);
        case _ =>
      }
    }
  }

  // ---- Conservation ----

  lemma {:induction false} LastIsScanned(logs: seq<GateLog>, p: int)
    requires LastDirection(logs, p) != ""
    ensures p in Scanned(logs)
  {
    if logs != [] {
      var n := |logs| - 1;
      assert logs == logs[..n] + [logs[n]];
      if logs[n].patron != p { LastIsScanned(logs[..n], p); }
    }
  }

  lemma InsideIff(logs: seq<GateLog>, p: int)
    ensures p in Inside(logs) <==> LastDirection(logs, p) == "in"
  {
    if LastDirection(logs, p) == "in" { LastIsScanned(logs, p); }
  }

  lemma InsideAfter(logs: seq<GateLog>, row: GateLog)
    requires Allowed(logs, row)
    ensures Inside(logs + [row])
        == if row.direction == "in" then Inside(logs) + {row.patron} else Inside(logs) - {row.patron}
    ensures |Inside(logs + [row])| == |Inside(logs)| + (if row.direction == "in" then 1 else -1)
  {
    var after := logs + [row];
    assert after[..|logs|] == logs;
    hide Inside;
    InsideIff(logs, row.patron);
    var expected := if row.direction == "in" then Inside(logs) + {row.patron} else Inside(logs) - {row.patron};
    forall p ensures p in Inside(after) <==> p in expected {
      InsideIff(after, p);
      InsideIff(logs, p);
    }
    assert Inside(after) == expected;
  }

  /** The number of patrons inside is all entries minus all exits. */
  lemma {:induction false} InsideIsInsMinusOuts(logs: seq<GateLog>)
    requires Legal(logs)
    ensures |Inside(logs)| == Sum(logs, Toward("in")) - Sum(logs, Toward("out"))
  {
    hide Inside, LastDirection;
    if logs == [] {
      NobodyInside();
    } else {
      var n := |logs| - 1;
      InsideIsInsMinusOuts(logs[..n]);
      InsideAfter(logs[..n], logs[n]);
      assert logs == logs[..n] + [logs[n]];
    }
  }

  lemma NobodyInside()
    ensures Inside([]) == {}
  {
  }

  lemma {:induction false} LegalPrefix(before: seq<GateLog>, after: seq<GateLog>)
    requires Legal(before + after)
    ensures Legal(before)
  {
    hide Allowed;
    if after == [] {
      assert before + after == before;
    } else {
      var n := |after| - 1;
      assert (before + after)[..|before + after| - 1] == before + after[..n];
      LegalPrefix(before, after[..n]);
    }
  }

  lemma DayCounts(before: seq<GateLog>, today: seq<GateLog>, day: string, d: string)
    requires forall r :: r in before ==> !OnDay(r, day)
    requires forall r :: r in today ==> OnDay(r, day)
    ensures Sum(before + today, TowardOn(d, day)) == Sum(before + today, Toward(d)) - Sum(before, Toward(d))
  {
    SumConcat(before, today, TowardOn(d, day));
    SumConcat(before, today, Toward(d));
    SumZero(before, TowardOn(d, day));
    SumSame(today, TowardOn(d, day), Toward(d));
  }

  lemma DayBalance(before: seq<GateLog>, today: seq<GateLog>, day: string)
    requires Legal(before + today)
    requires forall r :: r in before ==> !OnDay(r, day)
    requires forall r :: r in today ==> OnDay(r, day)
    ensures var stats := Stats(before + today, day);
            stats.inToday - stats.outToday == stats.inLibrary - |Inside(before)|
  {
    hide Legal, Inside, OnDay;
    LegalPrefix(before, today);
    InsideIsInsMinusOuts(before);
    InsideIsInsMinusOuts(before + today);
    DayCounts(before, today, day, "in");
    DayCounts(before, today, day, "out");
  }

  // ---- A clock that does not go back ----

  /** Time stamps as texts, in order and none later than `t`. */
  ghost predicate LogUpTo(logs: seq<GateLog>, t: string) {
    && (forall i, j :: 0 <= i < j < |logs| ==> AtMost(logs[i].created, logs[j].created))
    && (forall i :: 0 <= i < |logs| ==> AtMost(logs[i].created, t))
  }

  /** The time after a run that began at `t`: that of its last scan. */
  function Latest(t: string, events: seq<GateEvent>): string {
    if events == [] then t
    else
      var last := events[|events| - 1];
      if last.Scan? then last.now else Latest(t, events[..|events| - 1])
  }

  predicate ClockGoesOn(t: string, events: seq<GateEvent>) {
    events == [] ||
    (var n := |events| - 1;
     ClockGoesOn(t, events[..n]) && (events[n].Scan? ==> AtMost(Latest(t, events[..n]), events[n].now)))
  }

  lemma LogStaysUpTo(logs: seq<GateLog>, t: string, row: GateLog)
    requires LogUpTo(logs, t) && AtMost(t, row.created)
    ensures LogUpTo(logs, row.created) && LogUpTo(logs + [row], row.created)
  {
    hide AtMost;
    forall i | 0 <= i < |logs| ensures AtMost(logs[i].created, row.created) {
      AtMostTransitive(logs[i].created, t, row.created);
    }
    assert AtMost(row.created, row.created) by { AtMostItself(row.created); }
  }

  lemma AtMostItself(a: string)
    ensures AtMost(a, a)
  {
    LessIrreflexive(a);
  }

  lemma {:induction false} RunIsUpTo(s: GateState, t: string, events: seq<GateEvent>)
    requires LogUpTo(s.logs, t) && ClockGoesOn(t, events)
    ensures LogUpTo(Run(s, events).logs, Latest(t, events))
  {
    hide LogUpTo, AtMost, LastDirection, Inside;
    if events != [] {
      var n := |events| - 1;
      RunIsUpTo(s, t, events[..n]);
      var before, e := Run(s, events[..n]), events[n];
      if e.Scan? {
        LogStaysUpTo(before.logs, Latest(t, events[..n]),
          GateLog(e.patron, e.direction, if e.gate == "" then EAST_GATE else e.gate, e.now));
      }
    }
  }

  /** How many rows come before the first row of the day. */
  function BeforeDay(logs: seq<GateLog>, day: string): (k: nat)
    ensures k <= |logs| && (k < |logs| ==> OnDay(logs[k], day))
    ensures forall i :: 0 <= i < k ==> !OnDay(logs[i], day)
  {
    if logs == [] || OnDay(logs[0], day) then 0 else 1 + BeforeDay(logs[1..], day)
  }

  lemma {:induction false} UpToDay(day: string, now: string, stamp: string)
    requires day <= now && AtMost(stamp, now)
    ensures day <= stamp || Less(stamp, day)
  {
    if day != "" && stamp != "" && stamp[0] == day[0] {
      UpToDay(day[1..], now[1..], stamp[1..]);
      if day[1..] <= stamp[1..] { assert day == [day[0]] + day[1..] && stamp == [stamp[0]] + stamp[1..]; }
    }
  }

  lemma {:induction false} LessExtends(a: string, day: string, stamp: string)
    requires Less(a, day) && day <= stamp
    ensures Less(a, stamp)
  {
    if a != [] && a[0] == day[0] { LessExtends(a[1..], day[1..], stamp[1..]); }
  }

  lemma NotBeforeDay(day: string, a: string, b: string)
    requires day <= a && AtMost(a, b)
    ensures !Less(b, day)
  {
    hide Less;
    if Less(b, day) { LessExtends(b, day, a); }
  }

  /** Once a row of the day is written, all later rows up to now are of the day; those before it are of earlier days. */
  lemma SplitAtDay(logs: seq<GateLog>, now: string, day: string)
    requires LogUpTo(logs, now) && day <= now
    ensures forall i :: 0 <= i < BeforeDay(logs, day) ==> Less(logs[i].created, day)
    ensures forall i :: BeforeDay(logs, day) <= i < |logs| ==> OnDay(logs[i], day)
  {
    hide Less;
    var k := BeforeDay(logs, day);
    forall i | 0 <= i < |logs| ensures OnDay(logs[i], day) || Less(logs[i].created, day) {
      UpToDay(day, now, logs[i].created);
    }
    forall i | k < i < |logs| ensures OnDay(logs[i], day) {
      NotBeforeDay(day, logs[k].created, logs[i].created);
    }
  }

  /**
   In every run whose clock does not go back, read on `day`: the rows split into earlier days' rows
   and the day's rows, and the day's entries minus its exits are the change in occupancy since the
   earlier days.
   */
  lemma DayIsChangeInOccupancy(s: GateState, t: string, events: seq<GateEvent>, now: string, day: string)
    requires Legal(s.logs) && LogUpTo(s.logs, t) && ClockGoesOn(t, events) && AtMost(Latest(t, events), now)
    requires day <= now
    ensures var logs := Run(s, events).logs;
            var k, stats := BeforeDay(logs, day), Stats(logs, day);
            && (forall i :: 0 <= i < k ==> Less(logs[i].created, day))
            && (forall i :: k <= i < |logs| ==> OnDay(logs[i], day))
            && stats.inToday - stats.outToday == stats.inLibrary - |Inside(logs[..k])|
  {
    hide Legal, Inside, OnDay, Run, Less, AtMost, Stats, LogUpTo, Latest, ClockGoesOn;
    var logs := Run(s, events).logs;
    var k := BeforeDay(logs, day);
    RunKeepsLegal(s, events);
    RunIsUpTo(s, t, events);
    UpToLater(logs, Latest(t, events), now);
    SplitAtDay(logs, now, day);
    assert logs[..k] + logs[k..] == logs;
    DayBalance(logs[..k], logs[k..], day);
  }

  lemma UpToLater(logs: seq<GateLog>, t: string, now: string)
    requires LogUpTo(logs, t) && AtMost(t, now)
    ensures LogUpTo(logs, now)
  {
    hide AtMost;
    forall i | 0 <= i < |logs| ensures AtMost(logs[i].created, now) { AtMostTransitive(logs[i].created, t, now); }
  }

  /** From an empty log, every patron's rows go in, out, in, out in every run. */
  lemma PatronsAlternate(patrons: set<int>, events: seq<GateEvent>, p: int)
    ensures Alternates(Trail(Run(GateState(patrons, []), events).logs, p))
  {
    hide Alternates, Trail, Run;
    RunKeepsLegal(GateState(patrons, []), events);
    LegalIffAlternating(Run(GateState(patrons, []), events).logs);
    assert AllAlternate(Run(GateState(patrons, []), events).logs);
  }

  // ---- When a scan passes ----

  /**
   A scan passes exactly for a known patron who goes in from outside or out from inside. It adds one
   row, and the patron, and nobody else, changes sides. Otherwise nothing changes, and the error
   names the first condition that fails.
   */
  lemma ScanPassesIff(patrons: set<int>, logs: seq<GateLog>, p: int, direction: string, gate: string, now: string)
    ensures var (r, after) := ScanCall(patrons, logs, p, direction, gate, now);
            var inside := p in Inside(logs);
            && (r.Passed? <==>
                  p in patrons && ((direction == "in" && !inside) || (direction == "out" && inside)))
            && (r.Passed? ==>
                  && r.id == |logs| && after == logs + [GateLog(p, direction, r.gate, now)]
                  && r.gate == (if gate != "" then gate else EAST_GATE)
                  && Inside(after) == (if direction == "in" then Inside(logs) + {p} else Inside(logs) - {p})
                  && r.inLibrary == |Inside(logs)| + (if direction == "in" then 1 else -1))
            && (r.Refused? ==> after == logs)
            && (r == Refused(BadDirection) <==> direction != "in" && direction != "out")
            && (r == Refused(UnknownPatron) <==> (direction == "in" || direction == "out") && p !in patrons)
            && (r == Refused(AlreadyIn) <==> direction == "in" && p in patrons && inside)
            && (r == Refused(NotIn) <==> direction == "out" && p in patrons && !inside)
  {
    hide LastDirection, Inside;
    InsideIff(logs, p);
    var row := GateLog(p, direction, if gate == "" then EAST_GATE else gate, now);
    if ScanCall(patrons, logs, p, direction, gate, now).0.Passed? { InsideAfter(logs, row); }
  }

  lemma AlternatingEnd(trail: seq<string>)
    requires Alternates(trail)
    ensures trail != [] && trail[|trail| - 1] == "in" <==> |trail| % 2 == 1
  {
  }

  /**
   From an empty log, in every run, a known patron can go in exactly after an even number of passes,
   and out exactly after an odd one.
   */
  lemma WayIsOpenByTurns(patrons: set<int>, events: seq<GateEvent>, p: int, gate: string, now: string)
    requires p in Run(GateState(patrons, []), events).patrons
    ensures var s := Run(GateState(patrons, []), events);
            && (ScanCall(s.patrons, s.logs, p, "in", gate, now).0.Passed? <==> |Trail(s.logs, p)| % 2 == 0)
            && (ScanCall(s.patrons, s.logs, p, "out", gate, now).0.Passed? <==> |Trail(s.logs, p)| % 2 == 1)
  {
    hide Run, Inside, LastDirection, Trail, Alternates, ScanCall;
    var s := Run(GateState(patrons, []), events);
    PatronsAlternate(patrons, events, p);
    TrailEnds(s.logs, p);
    AlternatingEnd(Trail(s.logs, p));
    InsideIff(s.logs, p);
    ScanPassesIff(s.patrons, s.logs, p, "in", gate, now);
    ScanPassesIff(s.patrons, s.logs, p, "out", gate, now);
  }

  /**
   On entering, a patron is warned of fines exactly when the unpaid ones sum to more than nothing,
   and of overdue loans exactly when an active one was due before today; of fines first.
   */
  lemma WarnedIff(fines: seq<Fine>, loans: seq<Loan>, p: int, today: string)
    ensures var w, unpaid := Warnings(fines, loans, p, today), SumUnpaidFines(fines, p) > 0;
            var late := exists i ::
              IsRow(i, loans) && loans[i].active && loans[i].patron == p && Less(loans[i].due, today);
            && (UnpaidFines in w <==> unpaid) && (OverdueLoans in w <==> late)
            && |w| == (if unpaid then 1 else 0) + (if late then 1 else 0)
            && (unpaid ==> w[0] == UnpaidFines)
  {
    hide SumUnpaidFines, Less;
    assert HasOverdue(loans, p, today)
      <==> exists i :: IsRow(i, loans) && loans[i].active && loans[i].patron == p && Less(loans[i].due, today);
  }
}
