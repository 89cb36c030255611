/** What a login answers, and how long the session lives that it opens. */
module LoginSessions {
  import opened Sessions
  import opened Wrappers

  /** What a reader of `key` finds at `now`. */
  function Seen(m: Store, key: string, now: int): Option<int> { Get(m, key, now).0 }

  lemma AnswerIs(m: Store, e: Event)
    requires e.op.LoginTry?
    ensures var fails := CountAt(m, FailKey(e.op.user), e.time);
            && (Perform(m, e).0 == LoggedIn(Welcome) <==> e.op.valid && fails < 5)
            && (Perform(m, e).0 == LoggedIn(BadCredential) <==> !e.op.valid && fails < 5)
            && (Perform(m, e).0 == LoggedIn(LockedOut) <==> fails >= 5)
  {
    hide FailKey;
  }

  lemma LockedIffFive(events: seq<Event>, user: string, e: Event)
    requires InOrder(events + [e]) && (forall x :: x in events ==> OnlyLogins(x, user))
    ensures CountAt(Run(map[], events), FailKey(user), e.time) >= 5 <==> Locked(Streak(events, user), e.time)
  {
    hide Run, Streak, OnlyLogins, Tracks, FailKey, Counting5;
    StillInOrder(events, e);
    RunTracks(events, user, e.time);
    TracksCount(Run(map[], events), user, Streak(events, user), e.time);
  }

  /**
   In every run a login is welcomed exactly when the credentials are right and the user is not
   locked out, told of bad credentials exactly when they are wrong and the user is not locked
   out, and refused otherwise.
   */
  lemma LoginAnswers(events: seq<Event>, e: Event)
    requires e.op.LoginTry? && InOrder(events + [e]) && forall x :: x in events ==> OnlyLogins(x, e.op.user)
    ensures var answer, locked := Perform(Run(map[], events), e).0, Locked(Streak(events, e.op.user), e.time);
            && (answer == LoggedIn(Welcome) <==> e.op.valid && !locked)
            && (answer == LoggedIn(BadCredential) <==> !e.op.valid && !locked)
            && (answer == LoggedIn(LockedOut) <==> locked)
  {
    hide *;
    AnswerIs(Run(map[], events), e);
    LockedIffFive(events, e.op.user, e);
  }

  // ---- What a login leaves in the store ----

  /**
   Unless a login is welcomed, readers find under every key but the failure counter what they found
   before; after bad credentials the counter is one higher. A welcome opens the session under the
   token and clears the counter.
   */
  lemma LoginChanges(m: Store, e: Event, key: string, later: int)
    requires e.op.LoginTry? && e.time <= later
    ensures var (answer, after) := Perform(m, e);
            var fails := FailKey(e.op.user);
            && (answer == LoggedIn(LockedOut) ==> Seen(after, key, later) == Seen(m, key, later))
            && (answer == LoggedIn(BadCredential) ==>
                  && (key != fails ==> Seen(after, key, later) == Seen(m, key, later))
                  && CountAt(after, fails, e.time) == CountAt(m, fails, e.time) + 1)
            && (answer == LoggedIn(Welcome) ==>
                  && (key != fails && key != e.op.token ==> Seen(after, key, later) == Seen(m, key, later))
                  && (e.op.token != fails ==> Seen(after, fails, later) == None))
  {
    hide FailKey;
  }

  /** Nothing but reading is done to the key. */
  predicate Leaves(e: Event, key: string) {
    match e.op
    case Rate(k, _, _) => k != key
    case LoginTry(user, _, token, _, _) => FailKey(user) != key && token != key
    case Read(_) => true
    case Write(k, _, _) => k != key
    case Delete(k) => k != key
  }

  /** The entry is there as written, or it has expired and is gone. */
  predicate Holds(m: Store, key: string, e: Entry, now: int) { if key in m then m[key] == e else now > e.expires }

  lemma EventLeaves(m: Store, x: Event, key: string, e: Entry, before: int)
    requires Holds(m, key, e, before) && before <= x.time && Leaves(x, key)
    ensures Holds(Perform(m, x).1, key, e, x.time)
  {
    hide FailKey;
  }

  lemma {:induction false} RunLeaves(m: Store, events: seq<Event>, key: string, e: Entry, start: int)
    requires Holds(m, key, e, start) && InOrder(events) && (events != [] ==> start <= events[0].time)
    requires forall x :: x in events ==> Leaves(x, key)
    ensures Holds(Run(m, events), key, e, if events == [] then start else LastTime(events))
  {
    hide Perform, Leaves, Holds;
    if events != [] {
      var n := |events| - 1;
      RunLeaves(m, events[..n], key, e, start);
      assert events[n] in events;
      EventLeaves(Run(m, events[..n]), events[n], key, e, if n == 0 then start else LastTime(events[..n]));
    }
  }

  /**
   A login that is welcomed, in any store, opens a session: while nothing else is done with the
   token than reading it, the token stands for the user exactly until its time to live is over.
   */
  lemma WelcomeOpensSession(m: Store, e: Event, events: seq<Event>, later: int)
    requires e.op.LoginTry? && Perform(m, e).0 == LoggedIn(Welcome)
    requires InOrder([e] + events + [Event(later, Read(e.op.token))])
    requires forall x :: x in events ==> Leaves(x, e.op.token)
    ensures Seen(Run(Perform(m, e).1, events), e.op.token, later)
         == if later <= e.time + e.op.ttl then Some(e.op.id) else None
  {
    hide Run, Leaves, FailKey;
    var all := [e] + events + [Event(later, Read(e.op.token))];
    assert all[0] == e && all[|events| + 1].time == later;
    forall i, j | 0 <= i <= j < |events| ensures events[i].time <= events[j].time {
      assert all[i + 1] == events[i] && all[j + 1] == events[j];
    }
    if events != [] {
      assert all[1] == events[0] && all[|events|] == events[|events| - 1];
      assert all[0].time <= all[1].time && all[|events|].time <= all[|events| + 1].time;
    }
    RunLeaves(Perform(m, e).1, events, e.op.token, Entry(e.op.id, e.time + e.op.ttl), e.time);
  }

  /** In every run, right credentials of a user who is not locked out open such a session. */
  lemma SessionLivesUntil(before: seq<Event>, e: Event, after: seq<Event>, later: int)
    requires e.op.LoginTry? && e.op.valid && !Locked(Streak(before, e.op.user), e.time)
    requires InOrder(before + [e]) && InOrder([e] + after + [Event(later, Read(e.op.token))])
    requires forall x :: x in before ==> OnlyLogins(x, e.op.user)
    requires forall x :: x in after ==> Leaves(x, e.op.token)
    ensures Seen(Run(map[], before + [e] + after), e.op.token, later)
         == if later <= e.time + e.op.ttl then Some(e.op.id) else None
  {
    hide *;
    LoginAnswers(before, e);
    RunOne(before, e);
    RunConcat(before + [e], after);
    WelcomeOpensSession(Run(map[], before), e, after, later);
  }

  lemma RunOne(events: seq<Event>, e: Event)
    ensures Run(map[], events + [e]) == Perform(Run(map[], events), e).1
  {
    hide Perform;
    assert (events + [e])[..|events|] == events;
  }

  lemma {:induction false} RunConcat(a: seq<Event>, b: seq<Event>)
    ensures Run(map[], a + b) == Run(Run(map[], a), b)
  {
    hide Perform;
    if b == [] {
      assert a + b == a;
    } else {
      var n := |b| - 1;
      assert (a + b)[..|a + b| - 1] == a + b[..n];
      RunConcat(a, b[..n]);
    }
  }
}
