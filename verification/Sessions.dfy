/**
 The in-memory session store with lazy expiry, the rate limiter and the login
 lockout built on it. Time is an integer count of nanoseconds that never goes
 back; `after` means strictly later.
 */
module Sessions {
  import opened Wrappers

  const MAX_LOGIN_FAILS := 5
  const LOCK_DURATION := 15 * 60 * 1_000_000_000

  datatype Entry = Entry(value: int, expires: int)

  type Store = map<string, Entry>

  function Set(m: Store, key: string, value: int, ttl: int, now: int): Store {
    m[key := Entry(value, now + ttl)]
  }

  /** `Get`: an expired entry is deleted when it is looked up. */
  function Get(m: Store, key: string, now: int): (Option<int>, Store) {
    if key !in m then (None, m)
    else if now > m[key].expires then (None, m - {key})
    else (Some(m[key].value), m)
  }

  function Del(m: Store, key: string): Store { m - {key} }

  /** The count under a key, 0 when there is none: callers ignore the not-found error. */
  function CountAt(m: Store, key: string, now: int): int {
    match Get(m, key, now).0 case None => 0 case Some(n) => n
  }

  /** `CheckRate`: accepted while fewer than `max` are counted; each acceptance renews the expiry. */
  function CheckRate(m: Store, key: string, max: int, window: int, now: int): (bool, Store) {
    var n := CountAt(m, key, now);
    var m1 := Get(m, key, now).1;
    if n >= max then (false, m1) else (true, Set(m1, key, n + 1, window, now))
  }

  datatype LoginResult = Welcome | BadCredential | LockedOut

  function FailKey(user: string): string { "login_fail:" + user }

  /** `Login`, given whether the credentials are right and the token it would issue. */
  function Login(m: Store, user: string, valid: bool, token: string, id: int,
    ttl: int, now: int): (LoginResult, Store) {
    var key := FailKey(user);
    var n := CountAt(m, key, now);
    var m1 := Get(m, key, now).1;
    if n >= MAX_LOGIN_FAILS then (LockedOut, m1)
    else if !valid then (BadCredential, Set(Get(m1, key, now).1, key, CountAt(m1, key, now) + 1, LOCK_DURATION, now))
    else (Welcome, Set(Del(m1, key), token, id, ttl, now))
  }

  // ---- The program ----

  class SessionManager {
    var m: Store

    constructor ()
      ensures m == map[]
    {
      m := map[];
    }

    method SetEntry(key: string, value: int, ttl: int, now: int)
      modifies this
      ensures m == Set(old(m), key, value, ttl, now)
    {
      m := m[key := Entry(value, now + ttl)];
    }

    method GetEntry(key: string, now: int) returns (r: Option<int>)
      modifies this
      ensures (r, m) == Get(old(m), key, now)
    {
      if key !in m { return None; }
      var e := m[key];
      if now > e.expires {
        m := m - {key};
        return None;
      }
      return Some(e.value);
    }

    method DelEntry(key: string)
      modifies this
      ensures m == Del(old(m), key)
    {
      m := m - {key};
    }

    method Check(key: string, max: int, window: int, now: int) returns (accepted: bool)
      modifies this
      ensures (accepted, m) == CheckRate(old(m), key, max, window, now)
    {
      var r := GetEntry(key, now);
      var n := if r.Some? then r.value else 0;
      if n >= max { return false; }
      SetEntry(key, n + 1, window, now);
      return true;
    }

    method RecordFail(key: string, now: int)
      modifies this
      ensures m == Set(Get(old(m), key, now).1, key, CountAt(old(m), key, now) + 1, LOCK_DURATION, now)
    {
      var r := GetEntry(key, now);
      SetEntry(key, (if r.Some? then r.value else 0) + 1, LOCK_DURATION, now);
    }

    method LogIn(user: string, valid: bool, token: string, id: int, ttl: int, now: int) returns (r: LoginResult)
      modifies this
      ensures (r, m) == Login(old(m), user, valid, token, id, ttl, now)
    {
      var key := FailKey(user);
      var fails := GetEntry(key, now);
      if fails.Some? && fails.value >= MAX_LOGIN_FAILS { return LockedOut; }
      if !valid {
        RecordFail(key, now);
        return BadCredential;
      }
      DelEntry(key);
      SetEntry(token, id, ttl, now);
      return Welcome;
    }
  }

  // ---- Runs ----

  datatype Op =
    | Rate(key: string, max: int, window: int)
    | LoginTry(user: string, valid: bool, token: string, id: int, ttl: int)
    | Read(key: string)
    | Write(key: string, value: int, ttl: int)
    | Delete(key: string)

  datatype Event = Event(time: int, op: Op)

  datatype Answer = Accepted | Limited | LoggedIn(result: LoginResult) | Found(value: Option<int>) | NoAnswer

  function Perform(m: Store, e: Event): (Answer, Store) {
    match e.op
    case Rate(key, max, window) =>
      var (ok, m') := CheckRate(m, key, max, window, e.time);
      (if ok then Accepted else Limited, m')
    case LoginTry(user, valid, token, id, ttl) =>
      var (r, m') := Login(m, user, valid, token, id, ttl, e.time);
      (LoggedIn(r), m')
    case Read(key) =>
      var (r, m') := Get(m, key, e.time);
      (Found(r), m')
    case Write(key, value, ttl) => (NoAnswer, Set(m, key, value, ttl, e.time))
    case Delete(key) => (NoAnswer, Del(m, key))
  }

  function Run(m: Store, events: seq<Event>): Store {
    if events == [] then m
    else Perform(Run(m, events[..|events| - 1]), events[|events| - 1]).1
  }

  predicate InOrder(events: seq<Event>) {
    forall i, j :: 0 <= i <= j < |events| ==> events[i].time <= events[j].time
  }

  function LastTime(events: seq<Event>): int
    requires events != []
  {
    events[|events| - 1].time
  }

  // ---- The lazy store refines an eagerly expiring one ----

  /** The store with every entry that has expired by `now` removed. */
  function Purge(m: Store, now: int): Store {
    map k | k in m && now <= m[k].expires :: m[k]
  }

  /** A run on a store that removes expired entries before every operation. */
  function RunEager(m: Store, events: seq<Event>): Store {
    if events == [] then m
    else
      var e := events[|events| - 1];
      Perform(Purge(RunEager(m, events[..|events| - 1]), e.time), e).1
  }

  function Answers(m: Store, events: seq<Event>): seq<Answer> {
    if events == [] then []
    else
      var n := |events| - 1;
      Answers(m, events[..n]) + [Perform(Run(m, events[..n]), events[n]).0]
  }

  function EagerAnswers(m: Store, events: seq<Event>): seq<Answer> {
    if events == [] then []
    else
      var n := |events| - 1;
      EagerAnswers(m, events[..n]) + [Perform(Purge(RunEager(m, events[..n]), events[n].time), events[n]).0]
  }

  lemma GetPurged(m: Store, key: string, now: int)
    ensures Get(Purge(m, now), key, now).0 == Get(m, key, now).0
    ensures Purge(Get(Purge(m, now), key, now).1, now) == Purge(Get(m, key, now).1, now) == Purge(m, now)
  {
  }

  lemma SetPurged(m: Store, n: Store, key: string, value: int, ttl: int, now: int)
    requires Purge(m, now) == Purge(n, now)
    ensures Purge(Set(m, key, value, ttl, now), now) == Purge(Set(n, key, value, ttl, now), now)
  {
    var a, b := Purge(Set(m, key, value, ttl, now), now), Purge(Set(n, key, value, ttl, now), now);
    forall k ensures k in a <==> k in b
             ensures k in a && k in b ==> a[k] == b[k]
    {
      assert k in Purge(m, now) <==> k in Purge(n, now);
      assert k in Purge(m, now) ==> Purge(m, now)[k] == Purge(n, now)[k];
    }
  }

  lemma DelPurged(m: Store, n: Store, key: string, now: int)
    requires Purge(m, now) == Purge(n, now)
    ensures Purge(Del(m, key), now) == Purge(Del(n, key), now)
  {
    assert Purge(Del(m, key), now) == Purge(m, now) - {key};
    assert Purge(Del(n, key), now) == Purge(n, now) - {key};
  }

  lemma SamePurgeSameGet(m: Store, n: Store, key: string, now: int)
    requires Purge(m, now) == Purge(n, now)
    ensures Get(m, key, now).0 == Get(n, key, now).0 && CountAt(m, key, now) == CountAt(n, key, now)
    ensures Purge(Get(m, key, now).1, now) == Purge(Get(n, key, now).1, now) == Purge(m, now)
  {
    GetPurged(m, key, now);
    GetPurged(n, key, now);
  }

  lemma PurgePurge(m: Store, now: int)
    ensures Purge(Purge(m, now), now) == Purge(m, now)
  {
  }

  lemma PerformPurged(m: Store, e: Event)
    ensures Perform(Purge(m, e.time), e).0 == Perform(m, e).0
    ensures Purge(Perform(Purge(m, e.time), e).1, e.time) == Purge(Perform(m, e).1, e.time)
  {
    hide Purge, Set, Get, Del, CountAt;
    var p, now := Purge(m, e.time), e.time;
    PurgePurge(m, now);
    match e.op
    case Rate(key, max, window) =>
      SamePurgeSameGet(p, m, key, now);
      SetPurged(Get(p, key, now).1, Get(m, key, now).1, key, CountAt(m, key, now) + 1, window, now);
    case LoginTry(user, valid, token, id, ttl) =>
      var key := FailKey(user);
      SamePurgeSameGet(p, m, key, now);
      var p1, m1 := Get(p, key, now).1, Get(m, key, now).1;
      SamePurgeSameGet(p1, m1, key, now);
      SetPurged(Get(p1, key, now).1, Get(m1, key, now).1, key, CountAt(m1, key, now) + 1, LOCK_DURATION, now);
      DelPurged(p1, m1, key, now);
      SetPurged(Del(p1, key), Del(m1, key), token, id, ttl, now);
    case Read(key) => SamePurgeSameGet(p, m, key, now);
    case Write(key, value, ttl) => SetPurged(p, m, key, value, ttl, now);
    case Delete(key) => DelPurged(p, m, key, now);
  }

  lemma PurgeLater(m: Store, n: Store, t: int, now: int)
    requires Purge(m, t) == Purge(n, t) && t <= now
    ensures Purge(m, now) == Purge(n, now)
  {
    assert Purge(m, now) == Purge(Purge(m, t), now) && Purge(n, now) == Purge(Purge(n, t), now);
  }

  lemma PerformSamePurge(m: Store, n: Store, e: Event)
    requires Purge(m, e.time) == Purge(n, e.time)
    ensures Perform(m, e).0 == Perform(n, e).0 && Purge(Perform(m, e).1, e.time) == Purge(Perform(n, e).1, e.time)
  {
    hide Purge, Perform;
    PerformPurged(m, e);
    PerformPurged(n, e);
  }

  /** Over every run in time order, deleting lazily gives the answers of deleting eagerly. */
  lemma {:induction false} LazyRefinesEager(m: Store, events: seq<Event>)
    requires InOrder(events)
    ensures Answers(m, events) == EagerAnswers(m, events)
    ensures events != [] ==> Purge(Run(m, events), LastTime(events)) == Purge(RunEager(m, events), LastTime(events))
  {
    hide Purge, Perform;
    if events != [] {
      var n := |events| - 1;
      var front, e := events[..n], events[n];
      LazyRefinesEager(m, front);
      var a, b := Run(m, front), RunEager(m, front);
      if n > 0 { PurgeLater(a, b, LastTime(front), e.time); }
      PurgePurge(b, e.time);
      PerformSamePurge(a, Purge(b, e.time), e);
    }
  }

  // ---- The rate limit ----

  /** Every operation on `key` is this rate check. */
  predicate OnlyRated(e: Event, key: string, max: nat, window: int) {
    match e.op
    case Rate(k, mx, w) => k == key ==> mx == max && w == window
    case LoginTry(user, _, token, _, _) => FailKey(user) != key && token != key
    case Read(k) => true
    case Write(k, _, _) => k != key
    case Delete(k) => k != key
  }

  /** The times at which checks of `key` were accepted. */
  function AcceptTimes(m: Store, events: seq<Event>, key: string): seq<int> {
    if events == [] then []
    else
      var n := |events| - 1;
      var e := events[n];
      AcceptTimes(m, events[..n], key)
        + (if e.op.Rate? && e.op.key == key && Perform(Run(m, events[..n]), e).0 == Accepted then [e.time] else [])
  }

  /** The counter under `key` counts the last acceptances, back to the last gap longer than the window. */
  ghost predicate Counting(m: Store, key: string, max: nat, window: int, times: seq<int>, now: int) {
    && (forall i, j :: 0 <= i <= j < |times| ==> times[i] <= times[j] <= now)
    && (forall i :: 0 <= i && i + max < |times| ==> times[i + max] - times[i] > window)
    && (key in m ==> times != [] && CountsBack(m[key], max, window, times))
    && (key !in m && times != [] ==> now > times[|times| - 1] + window)
  }

  ghost predicate CountsBack(e: Entry, max: nat, window: int, times: seq<int>)
    requires times != []
  {
    && 1 <= e.value <= |times| && e.value <= max && e.expires == times[|times| - 1] + window
    && (e.value < |times| ==> times[|times| - e.value] - times[|times| - e.value - 1] > window)
    && GapsWithin(times, |times| - e.value, window)
  }

  /** From `lo` on, each time is at most the window after the one before. */
  predicate GapsWithin(times: seq<int>, lo: int, window: int) {
    forall i :: 0 <= lo < i < |times| ==> times[i] - times[i - 1] <= window
  }

  lemma CountingLater(m: Store, key: string, max: nat, window: int, times: seq<int>, t: int, now: int)
    requires Counting(m, key, max, window, times, t) && t <= now
    ensures Counting(m, key, max, window, times, now)
  {
  }

  lemma CountingAfterGet(m: Store, k: string, key: string, max: nat, window: int, times: seq<int>, now: int)
    requires Counting(m, key, max, window, times, now)
    ensures Counting(Get(m, k, now).1, key, max, window, times, now)
  {
  }

  lemma AcceptCountsBack(m: Store, key: string, max: nat, window: int, times: seq<int>, now: int)
    requires Counting(m, key, max, window, times, now) && window >= 0 && CountAt(m, key, now) < max
    ensures CountsBack(Entry(CountAt(m, key, now) + 1, now + window), max, window, times + [now])
  {
    var after, n := times + [now], CountAt(m, key, now);
    assert n < |times| ==> now - times[|times| - n - 1] > window by {
      if key in m && n >= 1 { assert times[|times| - n] <= now; }
    }
    forall i | 0 <= |after| - (n + 1) < i < |after| ensures after[i] - after[i - 1] <= window {
      if i < |times| { assert times[i] - times[i - 1] <= window; }
    }
  }

  lemma AcceptSpreads(m: Store, key: string, max: nat, window: int, times: seq<int>, now: int)
    requires Counting(m, key, max, window, times, now) && window >= 0 && CountAt(m, key, now) < max
    ensures forall i :: 0 <= i && i + max < |times + [now]| ==> (times + [now])[i + max] - (times + [now])[i] > window
  {
    hide GapsWithin;
    var after, n := times + [now], CountAt(m, key, now);
    assert n < |times| ==> now - times[|times| - n - 1] > window by {
      if key in m && n >= 1 { assert times[|times| - n] <= now; }
    }
    forall i | 0 <= i && i + max < |after| ensures after[i + max] - after[i] > window {
      if i + max == |times| { assert times[i] <= times[|times| - n - 1]; }
    }
  }

  lemma AcceptKeepsCounting(m: Store, key: string, max: nat, window: int, times: seq<int>, now: int)
    requires Counting(m, key, max, window, times, now) && window >= 0 && CheckRate(m, key, max, window, now).0
    ensures Counting(CheckRate(m, key, max, window, now).1, key, max, window, times + [now], now)
  {
    hide CountsBack;
    AcceptCountsBack(m, key, max, window, times, now);
    AcceptSpreads(m, key, max, window, times, now);
  }

  lemma OtherKeepsCounting(m: Store, e: Event, key: string, max: nat, window: int, times: seq<int>)
    requires Counting(m, key, max, window, times, e.time) && OnlyRated(e, key, max, window)
    requires !(e.op.Rate? && e.op.key == key)
    ensures Counting(Perform(m, e).1, key, max, window, times, e.time)
  {
    var now := e.time;
    match e.op
    case Rate(k, mx, w) => CountingAfterGet(m, k, key, max, window, times, now);
    case LoginTry(user, _, _, _, _) => CountingAfterGet(m, FailKey(user), key, max, window, times, now);
    case Read(k) => CountingAfterGet(m, k, key, max, window, times, now);
    case Write(_, _, _) =>
    case Delete(_) =>
  }

  lemma EventKeepsCounting(m: Store, e: Event, key: string, max: nat, window: int, times: seq<int>)
    requires Counting(m, key, max, window, times, e.time) && OnlyRated(e, key, max, window) && window >= 0
    ensures var accepted := e.op.Rate? && e.op.key == key && Perform(m, e).0 == Accepted;
            Counting(Perform(m, e).1, key, max, window, times + (if accepted then [e.time] else []), e.time)
  {
    hide Counting;
    assert times + [] == times;
    if e.op.Rate? && e.op.key == key {
      if CheckRate(m, key, max, window, e.time).0 {
        AcceptKeepsCounting(m, key, max, window, times, e.time);
      } else {
        CountingAfterGet(m, key, key, max, window, times, e.time);
      }
    } else {
      OtherKeepsCounting(m, e, key, max, window, times);
    }
  }

  lemma {:induction false} RunKeepsCounting(events: seq<Event>, key: string, max: nat, window: int)
    requires InOrder(events) && events != [] && window >= 0
    requires forall e :: e in events ==> OnlyRated(e, key, max, window)
    ensures Counting(Run(map[], events), key, max, window, AcceptTimes(map[], events, key), LastTime(events))
  {
    hide Perform, OnlyRated, Counting;
    var n := |events| - 1;
    var front, e := events[..n], events[n];
    assert e in events;
    if n == 0 {
      CountingAtStart(key, max, window, e.time);
      EventKeepsCounting(map[], e, key, max, window, []);
    } else {
      RunKeepsCounting(front, key, max, window);
      CountingLater(Run(map[], front), key, max, window, AcceptTimes(map[], front, key), LastTime(front), e.time);
      EventKeepsCounting(Run(map[], front), e, key, max, window, AcceptTimes(map[], front, key));
    }
  }

  lemma CountingAtStart(key: string, max: nat, window: int, now: int)
    ensures Counting(map[], key, max, window, [], now)
  {
  }

  function Between(times: seq<int>, from: int, to: int): set<int> {
    set i | 0 <= i < |times| && from <= times[i] <= to
  }

  lemma SmallRange(s: set<int>, lo: int, hi: int)
    requires lo <= hi && forall i :: i in s ==> lo <= i < hi
    ensures |s| <= hi - lo
    decreases hi - lo
  {
    if lo == hi {
      assert s == {};
    } else {
      SmallRange(s - {lo}, lo + 1, hi);
      if lo in s { assert |s| == |s - {lo}| + 1; } else { assert s - {lo} == s; }
    }
  }

  /**
   In every run from an empty store, with other keys doing anything, any time interval no longer
   than the window contains at most `max` accepted checks of a key.
   */
  lemma RateLimitHolds(events: seq<Event>, key: string, max: nat, window: nat, from: int, to: int)
    requires InOrder(events) && to - from <= window
    requires forall e :: e in events ==> OnlyRated(e, key, max, window)
    ensures |Between(AcceptTimes(map[], events, key), from, to)| <= max
  {
    hide OnlyRated, AcceptTimes, Run;
    var times := AcceptTimes(map[], events, key);
    if events == [] {
      NoAccepts(key);
      assert Between(times, from, to) == {};
    } else {
      RunKeepsCounting(events, key, max, window);
      AtMostMax(Run(map[], events), key, max, window, times, LastTime(events), from, to);
    }
  }

  lemma NoAccepts(key: string)
    ensures AcceptTimes(map[], [], key) == []
  {
  }

  lemma CloseTogether(m: Store, key: string, max: nat, window: nat, times: seq<int>, now: int, lo: int, i: int)
    requires Counting(m, key, max, window, times, now) && 0 <= lo <= i < |times| && times[i] - times[lo] <= window
    ensures i < lo + max
  {
    hide CountsBack;
    if lo + max < |times| { assert times[lo + max] - times[lo] > window; }
  }

  lemma AtMostMax(m: Store, key: string, max: nat, window: nat, times: seq<int>, now: int, from: int, to: int)
    requires Counting(m, key, max, window, times, now) && to - from <= window
    ensures |Between(times, from, to)| <= max
  {
    hide CountsBack;
    var s := Between(times, from, to);
    if s != {} {
      var lo := FirstBetween(times, from, to, 0);
      forall i | i in s ensures lo <= i < lo + max {
        CloseTogether(m, key, max, window, times, now, lo, i);
      }
      SmallRange(s, lo, lo + max);
    }
  }

  /** The least index of a time in the interval. */
  lemma FirstBetween(times: seq<int>, from: int, to: int, k: nat) returns (lo: int)
    requires Between(times, from, to) != {} && forall i :: i in Between(times, from, to) ==> i >= k
    requires k <= |times|
    ensures lo in Between(times, from, to) && forall i :: i in Between(times, from, to) ==> i >= lo
    decreases |times| - k
  {
    if k in Between(times, from, to) {
      lo := k;
    } else {
      var i :| i in Between(times, from, to);
      lo := FirstBetween(times, from, to, k + 1);
    }
  }

  // ---- When a check is refused ----

  /**
   The last `max` acceptances, no two neighbours further apart than the window, and none after them
   for longer than it.
   */
  predicate Blocked(times: seq<int>, max: nat, window: int, now: int) {
    max == 0 || (|times| >= max && now - times[|times| - 1] <= window && GapsWithin(times, |times| - max, window))
  }

  lemma CountingBlocks(m: Store, key: string, max: nat, window: nat, times: seq<int>, now: int)
    requires Counting(m, key, max, window, times, now)
    ensures CountAt(m, key, now) >= max <==> Blocked(times, max, window, now)
  {
    if 0 < max <= |times| && key in m && m[key].value < |times| && GapsWithin(times, |times| - max, window) {
      var i := |times| - m[key].value;
      assert times[i] - times[i - 1] > window;
    }
  }

  lemma {:induction false} CheckSeesCount(events: seq<Event>, key: string, max: nat, window: nat, now: int)
    requires InOrder(events) && (events != [] ==> LastTime(events) <= now)
    requires forall x :: x in events ==> OnlyRated(x, key, max, window)
    ensures Counting(Run(map[], events), key, max, window, AcceptTimes(map[], events, key), now)
  {
    hide OnlyRated, Counting, InOrder;
    if events == [] {
      CountingAtStart(key, max, window, now);
    } else {
      RunKeepsCounting(events, key, max, window);
      CountingLater(Run(map[], events), key, max, window, AcceptTimes(map[], events, key), LastTime(events), now);
    }
  }

  lemma RefusedByCount(m: Store, e: Event, max: nat)
    requires e.op.Rate? && e.op.max == max
    ensures Perform(m, e).0 == Limited <==> CountAt(m, e.op.key, e.time) >= max
  {
  }

  /**
   In every run from an empty store a check is refused exactly when `max` is 0, or the last `max`
   acceptances follow each other within the window and the last of them is within the window too.
   */
  lemma RateRefusedExactlyWhenBlocked(events: seq<Event>, key: string, max: nat, window: nat, now: int)
    requires InOrder(events + [Event(now, Rate(key, max, window))])
    requires forall x :: x in events ==> OnlyRated(x, key, max, window)
    ensures Perform(Run(map[], events), Event(now, Rate(key, max, window))).0 == Limited
        <==> Blocked(AcceptTimes(map[], events, key), max, window, now)
  {
    hide OnlyRated, Counting, Blocked, InOrder, Run, AcceptTimes, Perform, CountAt;
    var e := Event(now, Rate(key, max, window));
    StillInOrder(events, e);
    CheckSeesCount(events, key, max, window, now);
    CountingBlocks(Run(map[], events), key, max, window, AcceptTimes(map[], events, key), now);
    RefusedByCount(Run(map[], events), e, max);
  }

  /** What a sliding window would refuse: a check after `max` acceptances within the window before it. */
  predicate SlidingRefuses(times: seq<int>, max: nat, window: int, now: int) {
    |Between(times, now - window, now)| >= max
  }

  predicate Ascending(times: seq<int>, now: int) { forall i,
      j :: 0 <= i <= j < |times| ==> times[i] <= times[j] <= now }

  lemma {:induction false} FullRange(s: set<int>, lo: int, hi: int)
    requires lo <= hi && forall i :: lo <= i < hi ==> i in s
    ensures |s| >= hi - lo
    decreases hi - lo
  {
    if lo < hi {
      FullRange(s - {lo}, lo + 1, hi);
      assert |s| == |s - {lo}| + 1;
    }
  }

  /** The window holds `max` acceptances exactly when the last `max` of them lie in it. */
  lemma SlidingByIndex(times: seq<int>, max: nat, window: nat, now: int)
    requires Ascending(times, now)
    ensures SlidingRefuses(times, max, window, now)
        <==> max == 0 || (|times| >= max && times[|times| - max] >= now - window)
  {
    var s, n := Between(times, now - window, now), |times|;
    if 0 < max <= n && times[n - max] >= now - window {
      forall i | n - max <= i < n ensures i in s { assert times[n - max] <= times[i] <= now; }
      FullRange(s, n - max, n);
    } else if max > 0 {
      var lo := if n >= max then n - max + 1 else 0;
      forall i | 0 <= i < lo ensures i !in s { assert times[i] <= times[n - max]; }
      SmallRange(s, lo, n);
    }
  }

  lemma SlidingIsBlocked(times: seq<int>, max: nat, window: nat, now: int)
    requires Ascending(times, now) && SlidingRefuses(times, max, window, now)
    ensures Blocked(times, max, window, now)
  {
    hide SlidingRefuses;
    SlidingByIndex(times, max, window, now);
    if max > 0 {
      var lo := |times| - max;
      forall i | lo < i < |times| ensures times[i] - times[i - 1] <= window {
        assert times[lo] <= times[i - 1] && times[i] <= now;
      }
      assert times[lo] <= times[|times| - 1];
    }
  }

  lemma CountingAscends(m: Store, key: string, max: nat, window: nat, times: seq<int>, now: int)
    requires Counting(m, key, max, window, times, now)
    ensures Ascending(times, now)
  {
    hide CountsBack;
  }

  /**
   The limiter is not a sliding window: over every run the answers differ exactly when the check is
   blocked although the earliest of the last `max` acceptances is already out of the window.
   */
  lemma DiffersFromSlidingWindow(events: seq<Event>, key: string, max: nat, window: nat, now: int)
    requires InOrder(events + [Event(now, Rate(key, max, window))])
    requires forall x :: x in events ==> OnlyRated(x, key, max, window)
    ensures var times := AcceptTimes(map[], events, key);
            var refused := Perform(Run(map[], events), Event(now, Rate(key, max, window))).0 == Limited;
            && (SlidingRefuses(times, max, window, now) ==> refused)
            && (refused != SlidingRefuses(times, max, window, now)
                <==> 0 < max && Blocked(times, max, window, now) && times[|times| - max] < now - window)
  {
    hide OnlyRated, Counting, InOrder, Run, AcceptTimes, Perform, SlidingRefuses, GapsWithin, Ascending;
    var times := AcceptTimes(map[], events, key);
    RateRefusedExactlyWhenBlocked(events, key, max, window, now);
    StillInOrder(events, Event(now, Rate(key, max, window)));
    CheckSeesCount(events, key, max, window, now);
    CountingAscends(Run(map[], events), key, max, window, times, now);
    SlidingByIndex(times, max, window, now);
    if SlidingRefuses(times, max, window, now) { SlidingIsBlocked(times, max, window, now); }
  }

  /**
   Two checks allowed in ten: after acceptances at 0 and 8 the check at 12 is refused, with one
   acceptance since 2.
   */
  lemma SteadyCallerIsRefused()
    ensures var events := [Event(0, Rate("k", 2, 10)), Event(8, Rate("k", 2, 10))];
            var times := AcceptTimes(map[], events, "k");
            times == [0, 8] && Perform(Run(map[], events), Event(12, Rate("k", 2, 10))).0 == Limited
              && |Between(times, 2, 12)| == 1
  {
    var a, b := Event(0, Rate("k", 2, 10)), Event(8, Rate("k", 2, 10));
    var m1 := map["k" := Entry(1, 10)];
    assert [a][..0] == [] && [a, b][..1] == [a];
    assert Run(map[], [a]) == m1;
    assert AcceptTimes(map[], [a], "k") == [0];
    assert Run(map[], [a, b]) == map["k" := Entry(2, 18)];
    assert AcceptTimes(map[], [a, b], "k") == [0, 8];
    assert Between([0, 8], 2, 12) == {1};
  }

  // ---- The login lockout ----

  /** Times of the current streak of failed logins, by the plain rule. */
  function Streak(events: seq<Event>, user: string): seq<int> {
    if events == [] then []
    else
      var n := |events| - 1;
      NextStreak(Streak(events[..n], user), events[n], user)
  }

  /** The failures that still count at `now`: all of the streak, unless its last one is too old. */
  function Counting5(streak: seq<int>, now: int): seq<int> {
    if streak != [] && now - streak[|streak| - 1] <= LOCK_DURATION then streak else []
  }

  predicate Locked(streak: seq<int>, now: int) { |Counting5(streak, now)| >= MAX_LOGIN_FAILS }

  function NextStreak(streak: seq<int>, e: Event, user: string): seq<int> {
    match e.op
    case LoginTry(u, valid, _, _, _) =>
      if u != user || Locked(streak, e.time) then streak
      else if valid then []
      else Counting5(streak, e.time) + [e.time]
    case _ => streak
  }

  /** No operation but logins of `user` touches the user's failure counter. */
  predicate OnlyLogins(e: Event, user: string) {
    match e.op
    case Rate(k, _, _) => k != FailKey(user)
    case LoginTry(_, _, token, _, _) => token != FailKey(user)
    case Read(_) => true
    case Write(k, _, _) => k != FailKey(user)
    case Delete(k) => k != FailKey(user)
  }

  /** The store's failure counter is the plain streak. */
  ghost predicate Tracks(m: Store, user: string, streak: seq<int>, now: int) {
    && (forall i :: 0 <= i < |streak| ==> streak[i] <= now)
    && |streak| <= MAX_LOGIN_FAILS
    && (FailKey(user) in m ==> streak != [])
    && (FailKey(user) in m ==>
          m[FailKey(user)] == Entry(|streak|, streak[|streak| - 1] + LOCK_DURATION))
    && (FailKey(user) !in m ==> Counting5(streak, now) == [])
  }

  lemma FailKeysDiffer(u: string, v: string)
    requires u != v
    ensures FailKey(u) != FailKey(v)
  {
    assert FailKey(u)[11..] == u && FailKey(v)[11..] == v;
  }

  lemma TracksLater(m: Store, user: string, streak: seq<int>, t: int, now: int)
    requires Tracks(m, user, streak, t) && t <= now
    ensures Tracks(m, user, streak, now)
  {
  }

  lemma TracksCount(m: Store, user: string, streak: seq<int>, now: int)
    requires Tracks(m, user, streak, now)
    ensures CountAt(m, FailKey(user), now) == |Counting5(streak, now)|
  {
    hide FailKey;
  }

  lemma TracksAfterGet(m: Store, k: string, user: string, streak: seq<int>, now: int)
    requires Tracks(m, user, streak, now)
    ensures Tracks(Get(m, k, now).1, user, streak, now)
  {
    hide FailKey;
  }

  lemma LoginTracks(m: Store, user: string, valid: bool, token: string, id: int, ttl: int, now: int, streak: seq<int>)
    requires Tracks(m, user, streak, now) && token != FailKey(user)
    ensures Login(m, user, valid, token, id, ttl, now).0 == LockedOut <==> Locked(streak, now)
    ensures Tracks(Login(m, user, valid, token, id, ttl, now).1, user,
                   if Locked(streak, now) then streak else if valid then [] else Counting5(streak, now) + [now], now)
  {
    hide FailKey;
    TracksCount(m, user, streak, now);
    TracksAfterGet(m, FailKey(user), user, streak, now);
    TracksCount(Get(m, FailKey(user), now).1, user, streak, now);
  }

  lemma EventTracks(m: Store, e: Event, user: string, streak: seq<int>)
    requires Tracks(m, user, streak, e.time) && OnlyLogins(e, user)
    ensures Tracks(Perform(m, e).1, user, NextStreak(streak, e, user), e.time)
    ensures e.op.LoginTry? && e.op.user == user ==> (Perform(m, e).0 == LoggedIn(LockedOut) <==> Locked(streak, e.time))
  {
    hide FailKey, Locked, Counting5;
    var now := e.time;
    match e.op
    case Rate(k, mx, w) => TracksAfterGet(m, k, user, streak, now);
    case LoginTry(u, valid, token, id, ttl) =>
      if u == user {
        LoginTracks(m, user, valid, token, id, ttl, now, streak);
      } else {
        FailKeysDiffer(u, user);
        TracksAfterGet(m, FailKey(u), user, streak, now);
        TracksAfterGet(Get(m, FailKey(u), now).1, FailKey(u), user, streak, now);
      }
    case Read(k) => TracksAfterGet(m, k, user, streak, now);
    case Write(_, _, _) =>
    case Delete(_) =>
  }

  lemma {:induction false} RunTracks(events: seq<Event>, user: string, now: int)
    requires InOrder(events) && (forall e :: e in events ==> OnlyLogins(e, user))
    requires events != [] ==> LastTime(events) <= now
    ensures Tracks(Run(map[], events), user, Streak(events, user), now)
  {
    hide Perform, OnlyLogins, NextStreak;
    if events != [] {
      var n := |events| - 1;
      assert events[n] in events;
      RunTracks(events[..n], user, events[n].time);
      EventTracks(Run(map[], events[..n]), events[n], user, Streak(events[..n], user));
      TracksLater(Run(map[], events), user, Streak(events, user), events[n].time, now);
    }
  }

  /**
   In every run from an empty store a login is refused exactly when the user's streak has five
   failures and the fifth is at most 15 minutes old; the stored counter never exceeds five.
   */
  lemma LoginRefusedExactlyWhenLocked(events: seq<Event>, user: string, e: Event)
    requires InOrder(events + [e]) && (forall x :: x in events ==> OnlyLogins(x, user))
    requires e.op.LoginTry? && e.op.user == user && e.op.token != FailKey(user)
    ensures var m := Run(map[], events);
            && (Perform(m, e).0 == LoggedIn(LockedOut) <==> Locked(Streak(events, user), e.time))
            && CountAt(m, FailKey(user), e.time) <= MAX_LOGIN_FAILS
  {
    hide Run, Streak, OnlyLogins, Perform, Tracks, FailKey;
    StillInOrder(events, e);
    RunTracks(events, user, e.time);
    LastIsOnlyLogin(e, user);
    EventTracks(Run(map[], events), e, user, Streak(events, user));
    TracksCount(Run(map[], events), user, Streak(events, user), e.time);
    StreakIsShort(Run(map[], events), user, Streak(events, user), e.time);
  }

  lemma LastIsOnlyLogin(e: Event, user: string)
    requires e.op.LoginTry? && e.op.token != FailKey(user)
    ensures OnlyLogins(e, user)
  {
  }

  lemma StreakIsShort(m: Store, user: string, streak: seq<int>, now: int)
    requires Tracks(m, user, streak, now)
    ensures |Counting5(streak, now)| <= MAX_LOGIN_FAILS
  {
  }

  lemma StillInOrder(events: seq<Event>, e: Event)
    requires InOrder(events + [e])
    ensures InOrder(events) && (events != [] ==> LastTime(events) <= e.time)
  {
    var all := events + [e];
    assert forall i :: 0 <= i < |events| ==> all[i] == events[i];
    if events != [] { assert all[|events| - 1].time <= all[|events|].time; }
  }

  /** Until 15 minutes after the fifth failure nothing changes the streak: refusals do not extend the lock. */
  lemma {:induction false} LockHolds(before: seq<Event>, after: seq<Event>, user: string)
    requires |Streak(before, user)| == MAX_LOGIN_FAILS
    requires forall e :: e in after ==> Locked(Streak(before, user), e.time)
    ensures Streak(before + after, user) == Streak(before, user)
  {
    hide Locked;
    if after == [] {
      assert before + after == before;
    } else {
      var n := |after| - 1;
      assert (before + after)[..|before + after| - 1] == before + after[..n];
      assert after[n] in after;
      LockHolds(before, after[..n], user);
    }
  }

  predicate FailsBy(e: Event, user: string) { e.op.LoginTry? && e.op.user == user && !e.op.valid }

  predicate SucceedsBy(e: Event, user: string) { e.op.LoginTry? && e.op.user == user && e.op.valid }

  /** The times of the failed logins of `user`. */
  function FailTimes(events: seq<Event>, user: string): seq<int> {
    if events == [] then []
    else
      var n := |events| - 1;
      FailTimes(events[..n], user) + (if FailsBy(events[n], user) then [events[n].time] else [])
  }

  /** Each failure at most 15 minutes after the one before. */
  predicate InARow(times: seq<int>) {
    forall i :: 0 < i < |times| ==> times[i] - times[i - 1] <= LOCK_DURATION
  }

  lemma NextFail(streak: seq<int>, e: Event, user: string)
    requires FailsBy(e, user) && |streak| < MAX_LOGIN_FAILS
    requires streak != [] && e.time - streak[|streak| - 1] <= LOCK_DURATION
    ensures NextStreak(streak, e, user) == streak + [e.time]
  {
  }

  lemma FirstFail(streak: seq<int>, e: Event, user: string)
    requires FailsBy(e, user) && Counting5(streak, e.time) == []
    ensures NextStreak(streak, e, user) == [e.time]
  {
  }

  lemma OthersKeepStreak(streak: seq<int>, e: Event, user: string)
    requires !FailsBy(e, user) && !SucceedsBy(e, user)
    ensures NextStreak(streak, e, user) == streak
  {
  }

  /** The streak after failures `fails`, starting from `start`. */
  function StreakAfter(start: seq<int>, fails: seq<int>): seq<int> { if fails == [] then start else fails }

  ghost predicate FailsCount(start: seq<int>, fails: seq<int>) {
    |fails| <= MAX_LOGIN_FAILS && InARow(fails) && (fails != [] ==> Counting5(start, fails[0]) == [])
  }

  lemma StreakStep(start: seq<int>, fails: seq<int>, e: Event, user: string)
    requires !SucceedsBy(e, user) && FailsCount(start, fails + (if FailsBy(e, user) then [e.time] else []))
    ensures FailsCount(start, fails)
    ensures NextStreak(StreakAfter(start, fails), e, user)
        == StreakAfter(start, fails + (if FailsBy(e, user) then [e.time] else []))
  {
    hide NextStreak, Counting5, SucceedsBy, FailsBy, InARow;
    var more := if FailsBy(e, user) then [e.time] else [];
    ShorterInARow(fails, more);
    if !FailsBy(e, user) {
      assert fails + more == fails;
      OthersKeepStreak(StreakAfter(start, fails), e, user);
    } else if fails == [] {
      assert fails + more == more;
      FirstFail(start, e, user);
    } else {
      assert (fails + more)[0] == fails[0];
      NextFail(fails, e, user);
    }
  }

  /** Up to five failures in a row, from no counted failures and among anything else, are the streak. */
  lemma {:induction false} FailuresBuildTheStreak(before: seq<Event>, events: seq<Event>, user: string)
    requires forall e :: e in events ==> !SucceedsBy(e, user)
    requires FailsCount(Streak(before, user), FailTimes(events, user))
    ensures Streak(before + events, user) == StreakAfter(Streak(before, user), FailTimes(events, user))
  {
    hide NextStreak, FailsBy, SucceedsBy, FailsCount, StreakAfter;
    if events == [] {
      assert before + events == before;
      NoFailsYet(Streak(before, user));
    } else {
      var n := |events| - 1;
      var all := before + events;
      assert all[..|all| - 1] == before + events[..n] && all[|all| - 1] == events[n];
      StreakStep(Streak(before, user), FailTimes(events[..n], user), events[n], user);
      FailuresBuildTheStreak(before, events[..n], user);
    }
  }

  lemma NoFailsYet(start: seq<int>)
    ensures StreakAfter(start, []) == start
  {
  }

  lemma ShorterInARow(fails: seq<int>, more: seq<int>)
    requires InARow(fails + more)
    ensures InARow(fails)
    ensures fails != [] && more != [] ==> more[0] - fails[|fails| - 1] <= LOCK_DURATION
  {
    var all := fails + more;
    forall i | 0 < i < |fails|
      ensures fails[i] - fails[i - 1] <= LOCK_DURATION
    {
      assert all[i] - all[i - 1] <= LOCK_DURATION;
    }
    if fails != [] && more != [] { assert all[|fails|] - all[|fails| - 1] <= LOCK_DURATION; }
  }

  /**
   Five failures in a row, with no success between, lock the user out: whatever others do
   meanwhile, and however often the user tries again, a login is refused exactly until 15
   minutes after the fifth failure.
   */
  lemma FiveFailuresLockOut(before: seq<Event>, events: seq<Event>, after: seq<Event>, user: string, e: Event)
    requires InOrder(before + events + after + [e])
    requires forall x :: x in before + events + after ==> OnlyLogins(x, user)
    requires forall x :: x in events ==> !SucceedsBy(x, user)
    requires var fails := FailTimes(events, user);
             && |fails| == 5 && FailsCount(Streak(before, user), fails)
             && forall x :: x in after ==> x.time <= fails[4] + 15 * 60 * 1_000_000_000
    requires e.op.LoginTry? && e.op.user == user && e.op.token != FailKey(user)
    ensures Perform(Run(map[], before + events + after), e).0 == LoggedIn(LockedOut)
        <==> e.time <= FailTimes(events, user)[4] + 15 * 60 * 1_000_000_000
  {
    hide Run, Streak, OnlyLogins, Perform, FailKey, InOrder, NextStreak, InARow, FailTimes, SucceedsBy;
    FailuresBuildTheStreak(before, events, user);
    FiveAreLocked(Streak(before + events, user), FailTimes(events, user)[4]);
    LockHolds(before + events, after, user);
    LoginRefusedExactlyWhenLocked(before + events + after, user, e);
  }

  lemma FiveAreLocked(streak: seq<int>, last: int)
    requires |streak| == MAX_LOGIN_FAILS && streak[4] == last
    ensures forall now :: Locked(streak, now) <==> now <= last + LOCK_DURATION
  {
  }
}
