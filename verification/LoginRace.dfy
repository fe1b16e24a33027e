/**
 Concurrent attempts to log in to one account. An attempt checks the lock, compares the password, and
 records its outcome in separate steps, so attempts that have passed the check can still be recorded after a
 lock is set; a success deletes the count and keeps the lock.
 */
module LoginRace {
  import opened Basics
  import opened Redis
  import opened RateLimit
  import opened Lockout
  import Login
  import Domain

  /**
   An attempt begins if the check lets it through, and ends by recording a wrong password, by deleting the
   count after a right one, or without either: the account may not log in, or an error ended the request.
   */
  datatype Event = Begin(at: Time) | Fail(at: Time) | Succeed(at: Time) | Leave(at: Time)

  datatype Account = Account(keys: Keys, flying: nat)

  function Next(s: Account, e: Event, f: Config): Account {
    match e
    case Begin(at) =>
      var (keys, status) := CheckStep(s.keys, at, f);
      Account(keys, if status.locked then s.flying else s.flying + 1)
    case Fail(at) => if s.flying == 0 then s else Account(RecordStep(s.keys, at, f).0, s.flying - 1)
    case Succeed(_) => if s.flying == 0 then s else Account(ResetStep(s.keys), s.flying - 1)
    case Leave(_) => if s.flying == 0 then s else s.(flying := s.flying - 1)
  }

  function After(s: Account, events: seq<Event>, f: Config): Account
    decreases |events|
  {
    if events == [] then s else After(Next(s, events[0], f), events[1..], f)
  }

  /** At no time are more than `n` attempts in flight. */
  predicate AtMostFlying(s: Account, events: seq<Event>, f: Config, n: nat)
    decreases |events|
  {
    s.flying <= n && (events == [] || AtMostFlying(Next(s, events[0], f), events[1..], f, n))
  }

  predicate InOrder(events: seq<Event>) { forall i, j :: 0 <= i < j < |events| ==> events[i].at <= events[j].at }

  /** The wrong passwords recorded in the interval of one window from `start`. */
  function Guesses(s: Account, events: seq<Event>, f: Config, start: Time): nat
    decreases |events|
  {
    if events == [] then 0
    else
      (if events[0].Fail? && s.flying > 0 && Within(events[0].at, start, f.window) then 1 else 0)
      + Guesses(Next(s, events[0], f), events[1..], f, start)
  }

  /** The logins in that interval. */
  function Logins(s: Account, events: seq<Event>, f: Config, start: Time): nat
    decreases |events|
  {
    if events == [] then 0
    else
      (if events[0].Succeed? && s.flying > 0 && Within(events[0].at, start, f.window) then 1 else 0)
      + Logins(Next(s, events[0], f), events[1..], f, start)
  }

  const NOBODY := Account(Keys(Absent, Absent), 0)

  /** With at most `n` in flight and `r` logins in the window. */
  function GuessBound(f: Config, n: nat, r: nat): int {
    f.threshold + (n - 1) + (if f.threshold - 2 >= n - 1 then f.threshold - 2 else n - 1) + (f.threshold - 1) * r
  }

  // ---- The bound ----

  /** What events by time `now` can have left: a count that reached the threshold has a lock that outlives it. */
  ghost predicate Left(s: Account, now: Time, f: Config, n: nat) {
    && s.flying <= n
    && (s.keys.lock.Held? ==> s.keys.lock.expiry.Some?)
    && (s.keys.count.Held? ==>
          && s.keys.count.value >= 1 && s.keys.count.expiry.Some? && s.keys.count.expiry.value <= now + f.window
          && (s.keys.count.value >= f.threshold ==>
                && s.keys.lock.Held? && s.keys.count.expiry.value <= s.keys.lock.expiry.value
                && (IsLive(s.keys.count, now) ==> s.flying <= n - 1)))
  }

  lemma NextKeepsLeft(s: Account, now: Time, e: Event, f: Config, n: nat)
    requires ValidConfig(f) && f.window <= f.lockTTL && n >= 1 && Left(s, now, f, n) && now <= e.at
    requires Next(s, e, f).flying <= n
    ensures Left(Next(s, e, f), e.at, f, n)
  {
  }

  /** What events from time `now >= start` on, other than logins, can still record in the interval from `start`. */
  function Budget(s: Account, now: Time, f: Config, start: Time, n: nat): int
    requires s.keys.lock.Held? ==> s.keys.lock.expiry.Some?
    requires s.keys.count.Held? ==> s.keys.count.expiry.Some?
  {
    var end, th := start + f.window, f.threshold;
    if s.keys.lock.Held? && s.keys.lock.expiry.value >= end then s.flying
    else if !IsLive(s.keys.count, now) then th + n - 1
    else if s.keys.count.value >= th then s.flying + th + n - 1
    else if s.keys.count.expiry.value >= end then th - s.keys.count.value + n - 1
    else th - 1 - s.keys.count.value + th + n - 1
  }

  /** Each login allows for as many more as are below the threshold. */
  function Allowance(s: Account, e: Event, f: Config): int { if e.Succeed? && s.flying > 0 then f.threshold - 1 else 0 }

  lemma BudgetCovers(s: Account, now: Time, e: Event, f: Config, start: Time, n: nat)
    requires ValidConfig(f) && f.window <= f.lockTTL && n >= 1 && Left(s, now, f, n)
    requires start <= now <= e.at < start + f.window && Next(s, e, f).flying <= n
    ensures Left(Next(s, e, f), e.at, f, n)
    ensures Budget(Next(s, e, f), e.at, f, start, n) + (if e.Fail? && s.flying > 0 then 1 else 0)
            <= Budget(s, now, f, start, n) + Allowance(s, e, f)
  {
    NextKeepsLeft(s, now, e, f, n);
  }

  /** The allowance of the logins in the interval. */
  function Allowances(s: Account, events: seq<Event>, f: Config, start: Time): int
    decreases |events|
  {
    if events == [] then 0
    else
      (if Within(events[0].at, start, f.window) then Allowance(s, events[0], f) else 0)
      + Allowances(Next(s, events[0], f), events[1..], f, start)
  }

  lemma {:induction false} AllowancesAre(s: Account, events: seq<Event>, f: Config, start: Time)
    ensures Allowances(s, events, f, start) == (f.threshold - 1) * Logins(s, events, f, start)
    decreases |events|
  {
    if events != [] {
      AllowancesAre(Next(s, events[0], f), events[1..], f, start);
    }
  }

  lemma {:induction false} GuessesWithinBudget(s: Account, now: Time, events: seq<Event>, f: Config, start: Time, n: nat)
    requires ValidConfig(f) && f.window <= f.lockTTL && n >= 1 && Left(s, now, f, n) && AtMostFlying(s, events, f, n)
    requires InOrder(events) && start <= now && (events != [] ==> now <= events[0].at)
    ensures now < start + f.window ==> Guesses(s, events, f, start) <= Budget(s, now, f, start, n) + Allowances(s, events, f, start)
    ensures now >= start + f.window ==> Guesses(s, events, f, start) == 0
    ensures Allowances(s, events, f, start) >= 0
    decreases |events|
  {
    if events != [] {
      var e := events[0];
      NextKeepsLeft(s, now, e, f, n);
      GuessesWithinBudget(Next(s, e, f), e.at, events[1..], f, start, n);
      if now < start + f.window && e.at < start + f.window {
        BudgetCovers(s, now, e, f, start, n);
      }
    }
  }

  lemma {:induction false} GuessesWithinAllowances(s: Account, now: Time, events: seq<Event>, f: Config, start: Time, n: nat)
    requires ValidConfig(f) && f.window <= f.lockTTL && n >= 1 && Left(s, now, f, n) && AtMostFlying(s, events, f, n)
    requires InOrder(events) && (events != [] ==> now <= events[0].at)
    ensures Guesses(s, events, f, start) <= GuessBound(f, n, 0) + Allowances(s, events, f, start)
    decreases |events|
  {
    if now >= start {
      GuessesWithinBudget(s, now, events, f, start, n);
    } else if events != [] {
      var e := events[0];
      if e.at < start {
        NextKeepsLeft(s, now, e, f, n);
        GuessesWithinAllowances(Next(s, e, f), e.at, events[1..], f, start, n);
      } else {
        assert Left(s, e.at, f, n);
        GuessesWithinBudget(s, e.at, events, f, start, n);
      }
    }
  }

  /** With at most `n` in flight any window records at most GuessBound wrong passwords, which grows with its logins. */
  lemma AtMostGuessBound(s: Account, now: Time, events: seq<Event>, f: Config, start: Time, n: nat)
    requires ValidConfig(f) && f.window <= f.lockTTL && n >= 1 && Left(s, now, f, n) && AtMostFlying(s, events, f, n)
    requires InOrder(events) && (events != [] ==> now <= events[0].at)
    ensures Guesses(s, events, f, start) <= GuessBound(f, n, Logins(s, events, f, start))
  {
    GuessesWithinAllowances(s, now, events, f, start, n);
    AllowancesAre(s, events, f, start);
  }

  // ---- The bound is reached ----

  lemma {:induction false} Split(s: Account, a: seq<Event>, b: seq<Event>, f: Config, start: Time, n: nat)
    ensures After(s, a + b, f) == After(After(s, a, f), b, f)
    ensures Guesses(s, a + b, f, start) == Guesses(s, a, f, start) + Guesses(After(s, a, f), b, f, start)
    ensures Logins(s, a + b, f, start) == Logins(s, a, f, start) + Logins(After(s, a, f), b, f, start)
    ensures AtMostFlying(s, a + b, f, n) <==> AtMostFlying(s, a, f, n) && AtMostFlying(After(s, a, f), b, f, n)
    decreases |a|
  {
    if a == [] {
      assert a + b == b;
    } else {
      assert (a + b)[1..] == a[1..] + b;
      Split(Next(s, a[0], f), a[1..], b, f, start, n);
    }
  }

  /** What a stretch of events does: the account it leaves, the guesses and logins it counts, and how many fly. */
  ghost predicate Does(s: Account, events: seq<Event>, f: Config, start: Time, n: nat, s': Account, g: int, r: int) {
    && After(s, events, f) == s' && Guesses(s, events, f, start) == g && Logins(s, events, f, start) == r
    && AtMostFlying(s, events, f, n)
  }

  lemma Then(s: Account, a: seq<Event>, s1: Account, b: seq<Event>, s2: Account, f: Config, start: Time, n: nat, g: int, r: int, g': int, r': int)
    requires Does(s, a, f, start, n, s1, g, r) && Does(s1, b, f, start, n, s2, g', r')
    ensures Does(s, a + b, f, start, n, s2, g + g', r + r')
  {
    Split(s, a, b, f, start, n);
  }

  /** `m` wrong attempts one after the other. */
  function Turns(t: Time, m: nat): seq<Event> { if m == 0 then [] else [Begin(t), Fail(t)] + Turns(t, m - 1) }

  function Checks(t: Time, m: nat): seq<Event> { if m == 0 then [] else [Begin(t)] + Checks(t, m - 1) }

  function Records(t: Time, m: nat): seq<Event> { if m == 0 then [] else [Fail(t)] + Records(t, m - 1) }

  /** `r` times all but one of the failures that lock, and a login. */
  function Rounds(t: Time, m: nat, r: nat): seq<Event> {
    if r == 0 then [] else (Turns(t, m) + [Begin(t), Succeed(t)]) + Rounds(t, m, r - 1)
  }

  function Live(k: Keys, t: Time): int { if IsLive(k.count, t) then k.count.value else 0 }

  predicate Tidy(k: Keys) { k.count.Held? ==> k.count.value >= 1 && k.count.expiry.Some? }

  /** What `m` more failures at one time make of the count, without a lock. */
  function Counted(k: Keys, t: Time, m: nat, f: Config): Keys
    requires Tidy(k)
  {
    if m == 0 then k
    else k.(count := Held(Live(k, t) + m, Some(if IsLive(k.count, t) then k.count.expiry.value else t + f.window)))
  }

  function If(t: Time, start: Time, f: Config, m: nat): nat { if Within(t, start, f.window) then m else 0 }

  lemma TwoEvents(s: Account, a: Event, b: Event, f: Config, start: Time, n: nat)
    requires s.flying <= n && Next(s, a, f).flying <= n && Next(Next(s, a, f), b, f).flying <= n
    ensures var s1 := Next(s, a, f);
            Does(s, [a, b], f, start, n, Next(s1, b, f),
                 (if a.Fail? && s.flying > 0 then If(a.at, start, f, 1) else 0) + (if b.Fail? && s1.flying > 0 then If(b.at, start, f, 1) else 0),
                 (if a.Succeed? && s.flying > 0 then If(a.at, start, f, 1) else 0) + (if b.Succeed? && s1.flying > 0 then If(b.at, start, f, 1) else 0))
  {
    var s1 := Next(s, a, f);
    var s2 := Next(s1, b, f);
    assert [a, b][1..] == [b] && [b][1..] == [];
    assert After(s1, [b], f) == s2 && AtMostFlying(s2, [], f, n) && AtMostFlying(s1, [b], f, n);
    assert Guesses(s1, [b], f, start) == if b.Fail? && s1.flying > 0 then If(b.at, start, f, 1) else 0;
    assert Logins(s1, [b], f, start) == if b.Succeed? && s1.flying > 0 then If(b.at, start, f, 1) else 0;
  }

  /** Attempts one after the other, too few to lock, are all recorded. */
  lemma {:induction false} TurnsTaken(k: Keys, t: Time, m: nat, f: Config, start: Time, n: nat)
    requires ValidConfig(f) && !IsLive(k.lock, t) && Tidy(k) && Live(k, t) + m < f.threshold && n >= 1
    ensures Does(Account(k, 0), Turns(t, m), f, start, n, Account(Counted(k, t, m, f), 0), If(t, start, f, m), 0)
    decreases m
  {
    if m > 0 {
      var k' := Counted(k, t, 1, f);
      TwoEvents(Account(k, 0), Begin(t), Fail(t), f, start, n);
      TurnsTaken(k', t, m - 1, f, start, n);
      Then(Account(k, 0), [Begin(t), Fail(t)], Account(k', 0), Turns(t, m - 1), Account(Counted(k, t, m, f), 0), f, start, n,
        If(t, start, f, 1), 0, If(t, start, f, m - 1), 0);
    }
  }

  /** Any number of attempts pass the check together before one of them is recorded. */
  lemma {:induction false} ChecksPass(k: Keys, p: nat, t: Time, m: nat, f: Config, start: Time, n: nat)
    requires !IsLive(k.lock, t) && p + m <= n
    ensures Does(Account(k, p), Checks(t, m), f, start, n, Account(k, p + m), 0, 0)
    decreases m
  {
    if m > 0 {
      assert Checks(t, m)[1..] == Checks(t, m - 1);
      ChecksPass(k, p + 1, t, m - 1, f, start, n);
    }
  }

  /** All that are in flight are recorded, even those that come after the lock. */
  lemma {:induction false} RecordsLand(s: Account, t: Time, m: nat, f: Config, start: Time, n: nat)
    requires m <= s.flying <= n
    ensures Guesses(s, Records(t, m), f, start) == If(t, start, f, m) && Logins(s, Records(t, m), f, start) == 0
    ensures AtMostFlying(s, Records(t, m), f, n)
    decreases m
  {
    if m > 0 {
      assert Records(t, m)[1..] == Records(t, m - 1);
      RecordsLand(Next(s, Fail(t), f), t, m - 1, f, start, n);
    }
  }

  /** Those that come while the count is at the threshold or above change neither expiry nor lock. */
  lemma {:induction false} StaleRecords(k: Keys, p: nat, t: Time, m: nat, f: Config)
    requires IsLive(k.count, t) && Tidy(k) && k.count.value >= f.threshold && m <= p
    ensures After(Account(k, p), Records(t, m), f) == Account(k.(count := Held(k.count.value + m, k.count.expiry)), p - m)
    decreases m
  {
    if m > 0 {
      assert Records(t, m)[1..] == Records(t, m - 1);
      StaleRecords(k.(count := Held(k.count.value + 1, k.count.expiry)), p - 1, t, m - 1, f);
    }
  }

  /** Each round records one failure less than the threshold, and leaves no count. */
  lemma {:induction false} RoundsTaken(k: Keys, t: Time, r: nat, f: Config, start: Time, n: nat)
    requires ValidConfig(f) && !IsLive(k.lock, t) && Tidy(k) && !IsLive(k.count, t) && n >= 1 && Within(t, start, f.window)
    ensures Does(Account(k, 0), Rounds(t, f.threshold - 1, r), f, start, n,
                 Account(if r == 0 then k else k.(count := Absent), 0), (f.threshold - 1) * r, r)
    decreases r
  {
    if r > 0 {
      var m := f.threshold - 1;
      var k1, k2 := Counted(k, t, m, f), k.(count := Absent);
      TurnsTaken(k, t, m, f, start, n);
      TwoEvents(Account(k1, 0), Begin(t), Succeed(t), f, start, n);
      Then(Account(k, 0), Turns(t, m), Account(k1, 0), [Begin(t), Succeed(t)], Account(k2, 0), f, start, n, m, 0, 0, 1);
      RoundsTaken(k2, t, r - 1, f, start, n);
      Then(Account(k, 0), Turns(t, m) + [Begin(t), Succeed(t)], Account(k2, 0), Rounds(t, m, r - 1), Account(k2, 0), f, start, n,
        m, 1, m * (r - 1), r - 1);
      assert m + m * (r - 1) == m * r;
    }
  }

  /** From an expired count: the rounds, all but one of the failures that lock, and the last `n` attempts together. */
  function Finale(t: Time, f: Config, n: nat, r: nat): seq<Event>
    requires f.threshold >= 1
  {
    Rounds(t, f.threshold - 1, r) + (Turns(t, f.threshold - 1) + (Checks(t, n) + Records(t, n)))
  }

  lemma FinaleCounts(k: Keys, t: Time, f: Config, start: Time, n: nat, r: nat)
    requires ValidConfig(f) && !IsLive(k.lock, t) && Tidy(k) && !IsLive(k.count, t) && n >= 1 && Within(t, start, f.window)
    ensures AtMostFlying(Account(k, 0), Finale(t, f, n, r), f, n)
    ensures Guesses(Account(k, 0), Finale(t, f, n, r), f, start) == (f.threshold - 1) * r + f.threshold - 1 + n
    ensures Logins(Account(k, 0), Finale(t, f, n, r), f, start) == r
  {
    var m := f.threshold - 1;
    var k1 := if r == 0 then k else k.(count := Absent);
    var k2 := Counted(k1, t, m, f);
    var together := Checks(t, n) + Records(t, n);
    RoundsTaken(k, t, r, f, start, n);
    Split(Account(k, 0), Rounds(t, m, r), Turns(t, m) + together, f, start, n);
    TurnsTaken(k1, t, m, f, start, n);
    Split(Account(k1, 0), Turns(t, m), together, f, start, n);
    ChecksPass(k2, 0, t, n, f, start, n);
    Split(Account(k2, 0), Checks(t, n), Records(t, n), f, start, n);
    RecordsLand(Account(k2, n), t, n, f, start, n);
  }

  /** One failure, and all but two of the failures that lock just before it expires. */
  function SlowOverture(f: Config): seq<Event>
    requires f.threshold >= 2
  {
    Turns(0, 1) + Turns(f.window - 1, f.threshold - 2)
  }

  lemma SlowOvertureDoes(f: Config, n: nat)
    requires ValidConfig(f) && f.window >= 2 && f.threshold >= 2 && n >= 1
    ensures var s := After(NOBODY, SlowOverture(f), f);
            && Does(NOBODY, SlowOverture(f), f, f.window - 1, n, s, f.threshold - 2, 0)
            && s.flying == 0 && s.keys.lock == Absent && Tidy(s.keys) && !IsLive(s.keys.count, f.window)
  {
    var w, k := f.window, Counted(NOBODY.keys, 0, 1, f);
    TurnsTaken(NOBODY.keys, 0, 1, f, w - 1, n);
    TurnsTaken(k, w - 1, f.threshold - 2, f, w - 1, n);
    Then(NOBODY, Turns(0, 1), Account(k, 0), Turns(w - 1, f.threshold - 2), Account(Counted(k, w - 1, f.threshold - 2, f), 0), f, w - 1, n,
      0, 0, f.threshold - 2, 0);
  }

  /** `n` attempts in flight when one of them sets the lock, and the others recorded just before the count expires. */
  function LateOverture(f: Config, n: nat): seq<Event>
    requires f.threshold >= 1 && n >= 1
  {
    (Turns(0, f.threshold - 1) + Checks(0, n)) + ([Fail(0)] + Records(f.window - 1, n - 1))
  }

  lemma LateOvertureDoes(f: Config, n: nat)
    requires ValidConfig(f) && f.window >= 2 && f.lockTTL == f.window && n >= 1
    ensures var s := After(NOBODY, LateOverture(f, n), f);
            && Does(NOBODY, LateOverture(f, n), f, f.window - 1, n, s, n - 1, 0)
            && s.flying == 0 && !IsLive(s.keys.lock, f.window) && Tidy(s.keys) && !IsLive(s.keys.count, f.window)
  {
    var w, th, k := f.window, f.threshold, Counted(NOBODY.keys, 0, f.threshold - 1, f);
    var locked := Keys(Held(th, Some(w)), Held(1, Some(w)));
    var end := Account(locked.(count := Held(th + n - 1, Some(w))), 0);
    TurnsTaken(NOBODY.keys, 0, th - 1, f, w - 1, n);
    ChecksPass(k, 0, 0, n, f, w - 1, n);
    Then(NOBODY, Turns(0, th - 1), Account(k, 0), Checks(0, n), Account(k, n), f, w - 1, n, 0, 0, 0, 0);
    LockSet(k, f, n, w - 1);
    RecordsLand(Account(locked, n - 1), w - 1, n - 1, f, w - 1, n);
    StaleRecords(locked, n - 1, w - 1, n - 1, f);
    Then(Account(k, n), [Fail(0)], Account(locked, n - 1), Records(w - 1, n - 1), end, f, w - 1, n, 0, 0, n - 1, 0);
    Then(NOBODY, Turns(0, th - 1) + Checks(0, n), Account(k, n), [Fail(0)] + Records(w - 1, n - 1), end, f, w - 1, n, 0, 0, n - 1, 0);
  }

  lemma LockSet(k: Keys, f: Config, n: nat, start: Time)
    requires ValidConfig(f) && n >= 1 && k == Counted(NOBODY.keys, 0, f.threshold - 1, f) && start > 0
    ensures Does(Account(k, n), [Fail(0)], f, start, n,
                 Account(Keys(Held(f.threshold, Some(f.window)), Held(1, Some(f.lockTTL))), n - 1), 0, 0)
  {
    assert [Fail(0)][1..] == [];
  }

  // ---- Order of events ----

  ghost predicate Between(events: seq<Event>, from: Time, to: Time) {
    InOrder(events) && forall i :: 0 <= i < |events| ==> from <= events[i].at <= to
  }

  lemma Appended(a: seq<Event>, b: seq<Event>, from: Time, t: Time, u: Time, to: Time)
    requires Between(a, from, t) && Between(b, u, to) && from <= t <= u <= to
    ensures Between(a + b, from, to)
  {
  }

  lemma {:induction false} AllAt(t: Time, m: nat)
    ensures Between(Turns(t, m), t, t) && Between(Checks(t, m), t, t) && Between(Records(t, m), t, t)
  {
    if m > 0 {
      AllAt(t, m - 1);
      Appended([Begin(t), Fail(t)], Turns(t, m - 1), t, t, t, t);
      Appended([Begin(t)], Checks(t, m - 1), t, t, t, t);
      Appended([Fail(t)], Records(t, m - 1), t, t, t, t);
    }
  }

  lemma {:induction false} RoundsAt(t: Time, m: nat, r: nat)
    ensures Between(Rounds(t, m, r), t, t)
  {
    if r > 0 {
      AllAt(t, m);
      RoundsAt(t, m, r - 1);
      Appended(Turns(t, m), [Begin(t), Succeed(t)], t, t, t, t);
      Appended(Turns(t, m) + [Begin(t), Succeed(t)], Rounds(t, m, r - 1), t, t, t, t);
    }
  }

  lemma FinaleAt(t: Time, f: Config, n: nat, r: nat)
    requires f.threshold >= 1
    ensures Between(Finale(t, f, n, r), t, t)
  {
    RoundsAt(t, f.threshold - 1, r);
    AllAt(t, f.threshold - 1);
    AllAt(t, n);
    Appended(Checks(t, n), Records(t, n), t, t, t, t);
    Appended(Turns(t, f.threshold - 1), Checks(t, n) + Records(t, n), t, t, t, t);
    Appended(Rounds(t, f.threshold - 1, r), Turns(t, f.threshold - 1) + (Checks(t, n) + Records(t, n)), t, t, t, t);
  }

  lemma OverturesAt(f: Config, n: nat)
    requires f.window >= 2 && f.threshold >= 1 && n >= 1
    ensures f.threshold >= 2 ==> Between(SlowOverture(f), 0, f.window - 1)
    ensures Between(LateOverture(f, n), 0, f.window - 1)
  {
    if f.threshold >= 2 {
      SlowOvertureAt(f);
    }
    LateOvertureAt(f, n);
  }

  lemma SlowOvertureAt(f: Config)
    requires f.window >= 2 && f.threshold >= 2
    ensures Between(SlowOverture(f), 0, f.window - 1)
  {
    AllAt(0, 1);
    AllAt(f.window - 1, f.threshold - 2);
    Appended(Turns(0, 1), Turns(f.window - 1, f.threshold - 2), 0, 0, f.window - 1, f.window - 1);
  }

  lemma LateOvertureAt(f: Config, n: nat)
    requires f.window >= 2 && f.threshold >= 1 && n >= 1
    ensures Between(LateOverture(f, n), 0, f.window - 1)
  {
    var w := f.window;
    AllAt(0, f.threshold - 1);
    AllAt(0, n);
    AllAt(w - 1, n - 1);
    Appended(Turns(0, f.threshold - 1), Checks(0, n), 0, 0, 0, 0);
    Appended([Fail(0)], Records(w - 1, n - 1), 0, 0, w - 1, w - 1);
    Appended(Turns(0, f.threshold - 1) + Checks(0, n), [Fail(0)] + Records(w - 1, n - 1), 0, 0, 0, w - 1);
  }

  // ---- The exact maximum ----

  /** Some window of a run from empty keys has that many guesses, with at most `n` in flight and `r` logins. */
  ghost predicate Possible(f: Config, n: nat, r: nat, guesses: int) {
    exists events: seq<Event>, start :: InOrder(events) && AtMostFlying(NOBODY, events, f, n)
      && Logins(NOBODY, events, f, start) == r && Guesses(NOBODY, events, f, start) == guesses
  }

  /** The bound is reached: while fewer attempts than the threshold are in flight, and always where the lock is as long as the window. */
  lemma GuessBoundAttained(f: Config, n: nat, r: nat)
    requires ValidConfig(f) && f.window >= 2 && n >= 1 && (n < f.threshold || f.lockTTL == f.window)
    ensures Possible(f, n, r, GuessBound(f, n, r))
  {
    var w := f.window;
    var overture, s := Overture(f, n);
    FinaleCounts(s.keys, w, f, w - 1, n, r);
    Split(NOBODY, overture, Finale(w, f, n, r), f, w - 1, n);
    FinaleAt(w, f, n, r);
    Appended(overture, Finale(w, f, n, r), 0, w - 1, w, w);
    assert Guesses(NOBODY, overture + Finale(w, f, n, r), f, w - 1) == GuessBound(f, n, r);
  }

  /** What comes before the window's own count begins: as many guesses as fit. */
  lemma Overture(f: Config, n: nat) returns (overture: seq<Event>, s: Account)
    requires ValidConfig(f) && f.window >= 2 && n >= 1 && (n < f.threshold || f.lockTTL == f.window)
    ensures Does(NOBODY, overture, f, f.window - 1, n, s, if f.threshold - 2 >= n - 1 then f.threshold - 2 else n - 1, 0)
    ensures s.flying == 0 && !IsLive(s.keys.lock, f.window) && Tidy(s.keys) && !IsLive(s.keys.count, f.window)
    ensures Between(overture, 0, f.window - 1)
  {
    OverturesAt(f, n);
    if f.threshold - 2 >= n - 1 {
      overture := SlowOverture(f);
      SlowOvertureDoes(f, n);
    } else {
      overture := LateOverture(f, n);
      LateOvertureDoes(f, n);
    }
    s := After(NOBODY, overture, f);
  }

  /** No window with at most `r` logins has more guesses, with at most `n` attempts in flight. */
  ghost predicate Bounded(f: Config, n: nat, r: nat, guesses: int) {
    forall events: seq<Event>, start ::
      InOrder(events) && AtMostFlying(NOBODY, events, f, n) && Logins(NOBODY, events, f, start) <= r
      ==> Guesses(NOBODY, events, f, start) <= guesses
  }

  lemma BoundGrows(f: Config, n: nat, r: nat, r': nat)
    requires f.threshold >= 1 && r <= r'
    ensures GuessBound(f, n, r) <= GuessBound(f, n, r')
  {
    assert (f.threshold - 1) * r' == (f.threshold - 1) * r + (f.threshold - 1) * (r' - r);
  }

  lemma BoundHolds(f: Config, n: nat, r: nat)
    requires ValidConfig(f) && f.window <= f.lockTTL && n >= 1
    ensures Bounded(f, n, r, GuessBound(f, n, r))
  {
    forall events: seq<Event>, start
      | InOrder(events) && AtMostFlying(NOBODY, events, f, n) && Logins(NOBODY, events, f, start) <= r
      ensures Guesses(NOBODY, events, f, start) <= GuessBound(f, n, r)
    {
      AtMostGuessBound(NOBODY, if events == [] then 0 else events[0].at, events, f, start, n);
      BoundGrows(f, n, Logins(NOBODY, events, f, start), r);
    }
  }

  /** The most guesses in a window, by attempts in flight and logins in it, where the lock is as long as the window. */
  lemma MostGuessesIff(f: Config, n: nat, r: nat, guesses: int)
    requires ValidConfig(f) && f.window >= 2 && f.lockTTL == f.window && n >= 1
    ensures Bounded(f, n, r, guesses) <==> guesses >= GuessBound(f, n, r)
  {
    BoundHolds(f, n, r);
    GuessBoundAttained(f, n, r);
  }

  lemma {:induction false} FewerFlying(s: Account, events: seq<Event>, f: Config, n: nat, n': nat)
    requires AtMostFlying(s, events, f, n) && n <= n'
    ensures AtMostFlying(s, events, f, n')
    decreases |events|
  {
    if events != [] { FewerFlying(Next(s, events[0], f), events[1..], f, n, n'); }
  }

  lemma PossibleForMore(f: Config, n: nat, r: nat, guesses: int, n': nat, r': nat, bound: int)
    requires Possible(f, n, r, guesses) && n <= n' && r <= r' && bound < guesses
    ensures !Bounded(f, n', r', bound)
  {
    var events: seq<Event>, start :| InOrder(events) && AtMostFlying(NOBODY, events, f, n)
      && Logins(NOBODY, events, f, start) == r && Guesses(NOBODY, events, f, start) == guesses;
    FewerFlying(NOBODY, events, f, n, n');
  }

  lemma TwoTogether(f: Config)
    requires ValidConfig(f)
    ensures Possible(f, 2, 0, f.threshold + 1)
  {
    FinaleCounts(NOBODY.keys, 0, f, 0, 2, 0);
    FinaleAt(0, f, 2, 0);
  }

  /** The bound for failing attempts one at a time holds exactly when attempts come one at a time and none in the window succeeds. */
  lemma SequentialBoundIff(f: Config, n: nat, r: nat)
    requires ValidConfig(f) && f.window <= f.lockTTL && f.window >= 2 && f.threshold >= 2 && n >= 1
    ensures Bounded(f, n, r, FailureBound(f)) <==> n == 1 && r == 0
  {
    if r > 0 {
      GuessBoundAttained(f, 1, 1);
      PossibleForMore(f, 1, 1, GuessBound(f, 1, 1), n, r, FailureBound(f));
    } else if n == 1 {
      BoundHolds(f, 1, 0);
    } else if f.threshold == 2 {
      TwoTogether(f);
      PossibleForMore(f, 2, 0, f.threshold + 1, n, r, FailureBound(f));
    } else {
      GuessBoundAttained(f, 2, 0);
      PossibleForMore(f, 2, 0, GuessBound(f, 2, 0), n, r, FailureBound(f));
    }
  }

  /**
   The login's configuration: 18 guesses in fifteen minutes are a bound exactly when attempts come one at a
   time and none of them succeeds; each login in between adds nine, and attempts in flight add theirs.
   */
  lemma EighteenIff(n: nat, r: nat, guesses: int)
    requires n >= 1
    ensures Bounded(Login.LOGIN_LOCKOUT, n, r, 18) <==> n == 1 && r == 0
    ensures Bounded(Login.LOGIN_LOCKOUT, n, r, guesses) <==> guesses >= 9 + n + (if n <= 9 then 8 else n - 1) + 9 * r
  {
    SequentialBoundIff(Login.LOGIN_LOCKOUT, n, r);
    MostGuessesIff(Login.LOGIN_LOCKOUT, n, r, guesses);
  }

  // ---- Attempts one at a time, with logins among them ----

  /** An attempt of the login handler as events: the check, and what it ends with if it was let through. */
  function EventsOf(attempts: seq<Login.Attempt>, verify: (Login.PasswordHash, Login.Password) -> bool): (events: seq<Event>)
    ensures |events| == 2 * |attempts|
    ensures forall i :: 0 <= i < |attempts| ==> events[2 * i].at == attempts[i].at && events[2 * i + 1].at == attempts[i].at
  {
    if attempts == [] then []
    else
      var a := attempts[0];
      [Begin(a.at), if !Login.Correct(a.account, a.password, verify) then Fail(a.at)
                    else if Domain.CheckLoginableStatus(a.account.value.status).None? then Succeed(a.at) else Leave(a.at)]
      + EventsOf(attempts[1..], verify)
  }

  function LoginsAmong(k: Keys, attempts: seq<Login.Attempt>, verify: (Login.PasswordHash, Login.Password) -> bool, f: Config, start: Time): nat
    decreases |attempts|
  {
    if attempts == [] then 0
    else
      var a := attempts[0];
      var (next, answer) := Login.LoginStep(k, a.at, a.account, a.password, verify, f);
      (if answer.LoggedIn? && Within(a.at, start, f.window) then 1 else 0) + LoginsAmong(next, attempts[1..], verify, f, start)
  }

  lemma {:induction false} AttemptsAreEvents(k: Keys, attempts: seq<Login.Attempt>, verify: (Login.PasswordHash, Login.Password) -> bool,
                                             f: Config, start: Time)
    ensures var events := EventsOf(attempts, verify);
            && Guesses(Account(k, 0), events, f, start) == Login.Guesses(k, attempts, verify, f, start)
            && Logins(Account(k, 0), events, f, start) == LoginsAmong(k, attempts, verify, f, start)
            && AtMostFlying(Account(k, 0), events, f, 1)
    decreases |attempts|
  {
    if attempts != [] {
      var a, rest := attempts[0], EventsOf(attempts[1..], verify);
      var events := EventsOf(attempts, verify);
      var next := Login.LoginStep(k, a.at, a.account, a.password, verify, f).0;
      TwoEvents(Account(k, 0), events[0], events[1], f, start, 1);
      Split(Account(k, 0), [events[0], events[1]], rest, f, start, 1);
      AttemptsAreEvents(next, attempts[1..], verify, f, start);
      assert events == [events[0], events[1]] + rest;
    }
  }

  /** Whatever the attempts on an account that come one at a time, any fifteen minutes compare at most 18 wrong passwords and nine more for each login. */
  lemma AtMost18AndNinePerLogin(attempts: seq<Login.Attempt>, verify: (Login.PasswordHash, Login.Password) -> bool, start: Time)
    requires Sorted(Login.TimesOf(attempts))
    ensures var none, f := Keys(Absent, Absent), Login.LOGIN_LOCKOUT;
            Login.Guesses(none, attempts, verify, f, start) <= 18 + 9 * LoginsAmong(none, attempts, verify, f, start)
  {
    var events := EventsOf(attempts, verify);
    AttemptsAreEvents(Keys(Absent, Absent), attempts, verify, Login.LOGIN_LOCKOUT, start);
    forall i, j | 0 <= i < j < |events| ensures events[i].at <= events[j].at {
      var times := Login.TimesOf(attempts);
      assert events[i].at == times[i / 2] && events[j].at == times[j / 2];
    }
    AtMostGuessBound(NOBODY, if events == [] then 0 else events[0].at, events, Login.LOGIN_LOCKOUT, start, 1);
  }
}
