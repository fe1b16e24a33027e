/** Whether attempts that come after a lock was set can set it anew, and so extend it. */
module LockLength {
  import opened Basics
  import opened Redis
  import opened RateLimit
  import opened Lockout
  import opened LoginRace

  /** The event makes a lock that has not expired end later. */
  predicate Extends(s: Account, e: Event, f: Config) {
    var before, after := s.keys.lock, Next(s, e, f).keys.lock;
    && IsLive(before, e.at) && before.expiry.Some?
    && after.Held? && (after.expiry.Some? ==> after.expiry.value > before.expiry.value)
  }

  predicate NeverExtends(s: Account, events: seq<Event>, f: Config)
    decreases |events|
  {
    events == [] || (!Extends(s, events[0], f) && NeverExtends(Next(s, events[0], f), events[1..], f))
  }

  /** No run from empty keys with at most `n` attempts in flight extends a lock. */
  ghost predicate LocksKeepTheirEnd(f: Config, n: nat) {
    forall events: seq<Event> :: InOrder(events) && AtMostFlying(NOBODY, events, f, n) ==> NeverExtends(NOBODY, events, f)
  }

  /** How many attempts may be in flight: as many as the threshold, or two where one failure locks for just as long as it counts. */
  function Limit(f: Config): int { if f.threshold == 1 && f.lockTTL == f.window then 2 else f.threshold }

  // ---- Few attempts ----

  /** While a lock lasts, those still in flight are too few to reach the threshold again. */
  ghost predicate TooFew(s: Account, now: Time, f: Config, n: nat) {
    && Left(s, now, f, n)
    && (IsLive(s.keys.lock, now) ==>
          || (IsLive(s.keys.count, now) && s.keys.count.value >= f.threshold
              && (f.threshold == 1 && f.lockTTL == f.window ==> s.keys.count.expiry == s.keys.lock.expiry))
          || Live(s.keys, now) + s.flying < f.threshold)
  }

  lemma StepKeepsTooFew(s: Account, now: Time, e: Event, f: Config, n: nat)
    requires ValidConfig(f) && f.window <= f.lockTTL && 1 <= n <= Limit(f)
    requires TooFew(s, now, f, n) && now <= e.at && Next(s, e, f).flying <= n
    ensures TooFew(Next(s, e, f), e.at, f, n) && !Extends(s, e, f)
  {
    NextKeepsLeft(s, now, e, f, n);
  }

  lemma {:induction false} FewNeverExtend(s: Account, now: Time, events: seq<Event>, f: Config, n: nat)
    requires ValidConfig(f) && f.window <= f.lockTTL && 1 <= n <= Limit(f)
    requires TooFew(s, now, f, n) && InOrder(events) && AtMostFlying(s, events, f, n) && (events != [] ==> now <= events[0].at)
    ensures NeverExtends(s, events, f)
    decreases |events|
  {
    if events != [] {
      StepKeepsTooFew(s, now, events[0], f, n);
      FewNeverExtend(Next(s, events[0], f), events[0].at, events[1..], f, n);
    }
  }

  // ---- Too many attempts ----

  lemma {:induction false} ExtendsLater(s: Account, a: seq<Event>, e: Event, f: Config)
    requires Extends(After(s, a, f), e, f)
    ensures !NeverExtends(s, a + [e], f)
    decreases |a|
  {
    if a == [] {
      assert a + [e] == [e];
    } else {
      assert (a + [e])[1..] == a[1..] + [e];
      ExtendsLater(Next(s, a[0], f), a[1..], e, f);
    }
  }

  /** Attempts in flight count up like any others. */
  lemma {:induction false} FlyingRecords(k: Keys, p: nat, t: Time, m: nat, f: Config, start: Time, n: nat)
    requires ValidConfig(f) && Tidy(k) && Live(k, t) + m < f.threshold && m <= p <= n
    ensures Does(Account(k, p), Records(t, m), f, start, n, Account(Counted(k, t, m, f), p - m), If(t, start, f, m), 0)
    decreases m
  {
    if m > 0 {
      var k' := Counted(k, t, 1, f);
      assert Records(t, m)[1..] == Records(t, m - 1);
      assert Next(Account(k, p), Fail(t), f) == Account(k', p - 1);
      FlyingRecords(k', p - 1, t, m - 1, f, start, n);
    }
  }

  /** The lock is set at 1 while as many as the threshold are still in flight, and they are recorded when the count has expired. */
  function Latecomers(f: Config): seq<Event>
    requires f.threshold >= 2
  {
    var th, w := f.threshold, f.window;
    ((Turns(0, 1) + Turns(1, th - 2)) + Checks(1, th + 1)) + ([Fail(1)] + Records(w, th - 1))
  }

  /** When they have come, one attempt is still in flight, and a failure short of the threshold is counted. */
  function AfterLatecomers(f: Config): Account
    requires ValidConfig(f) && f.threshold >= 2
  {
    Account(Counted(Keys(Held(f.threshold, Some(f.window)), Held(1, Some(1 + f.lockTTL))), f.window, f.threshold - 1, f), 1)
  }

  lemma LatecomersRun(f: Config)
    requires ValidConfig(f) && f.window <= f.lockTTL && f.window >= 2 && f.threshold >= 2
    ensures Does(NOBODY, Latecomers(f), f, 0, f.threshold + 1, AfterLatecomers(f), f.threshold, 0)
  {
    var th, w, n := f.threshold, f.window, f.threshold + 1;
    var k1 := Counted(NOBODY.keys, 0, 1, f);
    var k2 := Counted(k1, 1, th - 2, f);
    var k3 := Keys(Held(th, Some(w)), Held(1, Some(1 + f.lockTTL)));
    var k4 := Counted(k3, w, th - 1, f);
    TurnsTaken(NOBODY.keys, 0, 1, f, 0, n);
    TurnsTaken(k1, 1, th - 2, f, 0, n);
    Then(NOBODY, Turns(0, 1), Account(k1, 0), Turns(1, th - 2), Account(k2, 0), f, 0, n, 1, 0, th - 2, 0);
    ChecksPass(k2, 0, 1, th + 1, f, 0, n);
    Then(NOBODY, Turns(0, 1) + Turns(1, th - 2), Account(k2, 0), Checks(1, th + 1), Account(k2, th + 1), f, 0, n, th - 1, 0, 0, 0);
    LockAtOne(k2, f, n);
    FlyingRecords(k3, th, w, th - 1, f, 0, n);
    Then(Account(k2, th + 1), [Fail(1)], Account(k3, th), Records(w, th - 1), Account(k4, 1), f, 0, n, 1, 0, 0, 0);
    Then(NOBODY, (Turns(0, 1) + Turns(1, th - 2)) + Checks(1, th + 1), Account(k2, th + 1), [Fail(1)] + Records(w, th - 1), Account(k4, 1), f, 0, n,
      th - 1, 0, 1, 0);
  }

  lemma LatecomersExtend(f: Config)
    requires ValidConfig(f) && f.window <= f.lockTTL && f.window >= 2 && f.threshold >= 2
    ensures AtMostFlying(NOBODY, Latecomers(f) + [Fail(f.window)], f, f.threshold + 1)
    ensures !NeverExtends(NOBODY, Latecomers(f) + [Fail(f.window)], f)
  {
    LatecomersRun(f);
    ExtendsLater(NOBODY, Latecomers(f), Fail(f.window), f);
    OneMoreFlies(NOBODY, Latecomers(f), AfterLatecomers(f), Fail(f.window), f, f.threshold + 1);
  }

  lemma OneMoreFlies(a: Account, events: seq<Event>, b: Account, e: Event, f: Config, n: nat)
    requires After(a, events, f) == b && AtMostFlying(a, events, f, n) && b.flying <= n && Next(b, e, f).flying <= n
    ensures AtMostFlying(a, events + [e], f, n)
  {
    Split(a, events, [e], f, 0, n);
    assert AtMostFlying(Next(b, e, f), [e][1..], f, n);
  }

  lemma LockAtOne(k: Keys, f: Config, n: nat)
    requires ValidConfig(f) && f.window >= 2 && f.threshold >= 2 && n == f.threshold + 1
    requires k == Counted(Counted(NOBODY.keys, 0, 1, f), 1, f.threshold - 2, f)
    ensures Does(Account(k, n), [Fail(1)], f, 0, n,
                 Account(Keys(Held(f.threshold, Some(f.window)), Held(1, Some(1 + f.lockTTL))), f.threshold), 1, 0)
  {
    assert [Fail(1)][1..] == [];
  }

  lemma LatecomersInOrder(f: Config)
    requires f.window >= 2 && f.threshold >= 2
    ensures InOrder(Latecomers(f) + [Fail(f.window)])
  {
    var th, w := f.threshold, f.window;
    AllAt(0, 1);
    AllAt(1, th - 2);
    AllAt(1, th + 1);
    AllAt(w, th - 1);
    Appended(Turns(0, 1), Turns(1, th - 2), 0, 0, 1, 1);
    Appended(Turns(0, 1) + Turns(1, th - 2), Checks(1, th + 1), 0, 1, 1, 1);
    Appended([Fail(1)], Records(w, th - 1), 1, 1, w, w);
    Appended((Turns(0, 1) + Turns(1, th - 2)) + Checks(1, th + 1), [Fail(1)] + Records(w, th - 1), 0, 1, 1, w);
    Appended(Latecomers(f), [Fail(w)], 0, w, w, w);
  }

  /** A threshold of one: a second failure when the count has expired, or after a login has deleted it. */
  function SecondLock(f: Config): (seq<Event>, Event) {
    if f.lockTTL > f.window then ([Begin(0), Begin(0), Fail(0)], Fail(f.window))
    else ([Begin(0), Begin(0), Begin(0), Fail(0), Succeed(1)], Fail(1))
  }

  lemma SecondLockAfterExpiry(f: Config)
    requires ValidConfig(f) && f.window < f.lockTTL && f.threshold == 1
    ensures var (first, last) := SecondLock(f);
            AtMostFlying(NOBODY, first + [last], f, 2) && !NeverExtends(NOBODY, first + [last], f)
  {
    var (first, last) := SecondLock(f);
    var none, locked := NOBODY.keys, Keys(Held(1, Some(f.window)), Held(1, Some(f.lockTTL)));
    TwoEvents(NOBODY, Begin(0), Begin(0), f, 0, 2);
    TwoEvents(Account(none, 2), Fail(0), last, f, 0, 2);
    Split(NOBODY, [Begin(0), Begin(0)], [Fail(0), last], f, 0, 2);
    Split(NOBODY, [Begin(0), Begin(0)], [Fail(0)], f, 0, 2);
    assert [Begin(0), Begin(0)] + [Fail(0), last] == first + [last] && [Begin(0), Begin(0)] + [Fail(0)] == first;
    assert After(NOBODY, first, f) == Account(locked, 1) by { assert [Fail(0)][1..] == []; }
    ExtendsLater(NOBODY, first, last, f);
  }

  lemma SecondLockAfterLogin(f: Config)
    requires ValidConfig(f) && f.window == f.lockTTL && f.window >= 2 && f.threshold == 1
    ensures var (first, last) := SecondLock(f);
            AtMostFlying(NOBODY, first + [last], f, 3) && !NeverExtends(NOBODY, first + [last], f)
  {
    var (first, last) := SecondLock(f);
    var none, locked := NOBODY.keys, Keys(Held(1, Some(f.window)), Held(1, Some(f.lockTTL)));
    var a, b, c := [Begin(0), Begin(0)], [Begin(0), Fail(0)], [Succeed(1), last];
    TwoEvents(NOBODY, Begin(0), Begin(0), f, 0, 3);
    TwoEvents(Account(none, 2), Begin(0), Fail(0), f, 0, 3);
    TwoEvents(Account(locked, 2), Succeed(1), last, f, 0, 3);
    Then(NOBODY, a, Account(none, 2), b, Account(locked, 2), f, 0, 3, 0, 0, 1, 0);
    Split(NOBODY, a + b, c, f, 0, 3);
    Split(NOBODY, a + b, [Succeed(1)], f, 0, 3);
    assert (a + b) + c == first + [last] && (a + b) + [Succeed(1)] == first;
    assert After(Account(locked, 2), [Succeed(1)], f) == Account(locked.(count := Absent), 1) by { assert [Succeed(1)][1..] == []; }
    ExtendsLater(NOBODY, first, last, f);
  }

  lemma SecondLockExtends(f: Config)
    requires ValidConfig(f) && f.window <= f.lockTTL && f.window >= 2 && f.threshold == 1
    ensures var (first, last) := SecondLock(f);
            InOrder(first + [last]) && AtMostFlying(NOBODY, first + [last], f, Limit(f) + 1) && !NeverExtends(NOBODY, first + [last], f)
  {
    if f.lockTTL > f.window {
      SecondLockAfterExpiry(f);
    } else {
      SecondLockAfterLogin(f);
    }
  }

  /** Locks end when they were set to end, exactly while no more attempts than the limit are in flight. */
  lemma LocksKeepTheirEndIff(f: Config, n: nat)
    requires ValidConfig(f) && f.window <= f.lockTTL && f.window >= 2 && n >= 1
    ensures LocksKeepTheirEnd(f, n) <==> n <= Limit(f)
  {
    if n <= Limit(f) {
      forall events: seq<Event> | InOrder(events) && AtMostFlying(NOBODY, events, f, n) ensures NeverExtends(NOBODY, events, f) {
        FewNeverExtend(NOBODY, if events == [] then 0 else events[0].at, events, f, n);
      }
    } else if f.threshold >= 2 {
      LatecomersExtend(f);
      LatecomersInOrder(f);
      FewerFlying(NOBODY, Latecomers(f) + [Fail(f.window)], f, f.threshold + 1, n);
    } else {
      SecondLockExtends(f);
      FewerFlying(NOBODY, SecondLock(f).0 + [SecondLock(f).1], f, Limit(f) + 1, n);
    }
  }
}
