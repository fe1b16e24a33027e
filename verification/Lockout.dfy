/** Login failure counting and lockout over two keys: the failure count and the lock. */
module Lockout {
  import opened Basics
  import opened Redis
  import opened RateLimit

  datatype Config = Config(window: Time, lockTTL: Time, threshold: int)

  /** The two keys of one account. */
  datatype Keys = Keys(count: Cell, lock: Cell)

  datatype Status = Status(locked: bool, retryAfter: Time)

  const UNLOCKED := Status(false, 0)

  predicate ValidConfig(f: Config) { f.window > 0 && f.lockTTL > 0 && f.threshold >= 1 }

  /** Whether the account is locked; a lock that lost its expiry is given a new one. */
  function CheckStep(k: Keys, now: Time, f: Config): (Keys, Status) {
    var left := TimeLeft(k.lock, now);
    if left > 0 then (k, Status(true, left))
    else if left == -1 then (k.(lock := Held(k.lock.value, Some(now + f.lockTTL))), Status(true, f.lockTTL))
    else (k, UNLOCKED)
  }

  /** One failure: the count goes up, gets an expiry when it has none, and sets the lock on reaching the threshold. */
  function RecordStep(k: Keys, now: Time, f: Config): (Keys, bool) {
    var c := Seen(k.count, now);
    var failures := if c.Held? then c.value + 1 else 1;
    var count :=
      if failures == 1 || c.Absent? || c.expiry.None? then Held(failures, Some(now + f.window))
      else Held(failures, c.expiry);
    if failures == f.threshold then (Keys(count, Held(1, Some(now + f.lockTTL))), true)
    else (Keys(count, k.lock), false)
  }

  function ResetStep(k: Keys): Keys { k.(count := Absent) }

  class LockoutLimiter {
    const client: Client
    const prefix: string
    const config: Config

    constructor (client: Client, prefix: string, config: Config)
      ensures this.client == client && this.prefix == prefix && this.config == config
    {
      this.client := client;
      this.prefix := prefix;
      this.config := config;
    }

    function CountKey(key: string): string { prefix + ("count:" + key) }

    function LockKey(key: string): string { prefix + ("lock:" + key) }

    function KeysOf(cells: map<string, Cell>, key: string): Keys {
      Keys(Lookup(cells, CountKey(key)), Lookup(cells, LockKey(key)))
    }

    /** The count of one account is never the lock of any, and accounts do not share keys. */
    lemma KeysDistinct(key: string, key': string)
      ensures CountKey(key) != LockKey(key')
      ensures key != key' ==> CountKey(key) != CountKey(key') && LockKey(key) != LockKey(key')
    {
      assert CountKey(key)[|prefix|] == 'c' && LockKey(key')[|prefix|] == 'l';
      assert CountKey(key)[|prefix| + 6..] == key && CountKey(key')[|prefix| + 6..] == key';
      assert LockKey(key)[|prefix| + 5..] == key && LockKey(key')[|prefix| + 5..] == key';
    }

    method Check(key: string) returns (status: Status)
      requires ValidConfig(config)
      modifies client`cells
      ensures (KeysOf(client.cells, key), status) == CheckStep(KeysOf(old(client.cells), key), client.now, config)
      ensures forall k :: k != LockKey(key) ==> Lookup(client.cells, k) == Lookup(old(client.cells), k)
    {
      KeysDistinct(key, key);
      var left := client.PTTL(LockKey(key));
      if left <= 0 {
        if left == -1 {
          client.PExpire(LockKey(key), config.lockTTL);
          return Status(true, config.lockTTL);
        }
        return UNLOCKED;
      }
      return Status(true, left);
    }

    method RecordFailure(key: string) returns (locked: bool)
      requires ValidConfig(config)
      modifies client`cells
      ensures (KeysOf(client.cells, key), locked) == RecordStep(KeysOf(old(client.cells), key), client.now, config)
      ensures forall k :: k != CountKey(key) && k != LockKey(key) ==> Lookup(client.cells, k) == Lookup(old(client.cells), k)
    {
      KeysDistinct(key, key);
      var failures := client.Incr(CountKey(key));
      if failures == 1 {
        client.PExpire(CountKey(key), config.window);
      } else {
        var left := client.PTTL(CountKey(key));
        if left < 0 {
          client.PExpire(CountKey(key), config.window);
        }
      }
      if failures == config.threshold {
        client.Set(LockKey(key), config.lockTTL);
        return true;
      }
      return false;
    }

    method Reset(key: string)
      modifies client`cells
      ensures KeysOf(client.cells, key) == ResetStep(KeysOf(old(client.cells), key))
      ensures forall k :: k != CountKey(key) ==> Lookup(client.cells, k) == Lookup(old(client.cells), k)
    {
      KeysDistinct(key, key);
      client.Del(CountKey(key));
    }
  }

  // ---- Any order of operations ----

  datatype Op = Pass(duration: nat) | Check | Record | Reset

  datatype Clocked = Clocked(keys: Keys, now: Time)

  function Perform(s: Clocked, op: Op, f: Config): Clocked {
    match op
    case Pass(duration) => s.(now := s.now + duration)
    case Check => s.(keys := CheckStep(s.keys, s.now, f).0)
    case Record => s.(keys := RecordStep(s.keys, s.now, f).0)
    case Reset => s.(keys := ResetStep(s.keys))
  }

  function PerformAll(s: Clocked, ops: seq<Op>, f: Config): Clocked
    decreases |ops|
  {
    if ops == [] then s else PerformAll(Perform(s, ops[0], f), ops[1..], f)
  }

  predicate Unlocked(s: Clocked, f: Config) { !CheckStep(s.keys, s.now, f).1.locked }

  /** The failures the next one is added to. */
  function Failures(s: Clocked): int {
    var c := Seen(s.keys.count, s.now);
    if c.Held? then c.value else 0
  }

  /** A count that reached the threshold is covered by a lock that expires no earlier. */
  ghost predicate Covered(s: Clocked, f: Config) {
    && (s.keys.count.Held? ==> s.keys.count.value >= 1 && s.keys.count.expiry.Some? && s.keys.count.expiry.value <= s.now + f.window)
    && (s.keys.count.Held? && s.keys.count.value >= f.threshold ==>
          s.keys.lock.Held? && (s.keys.lock.expiry.Some? ==> s.keys.count.expiry.value <= s.keys.lock.expiry.value))
  }

  lemma StepKeepsCovered(s: Clocked, op: Op, f: Config)
    requires ValidConfig(f) && f.window <= f.lockTTL && Covered(s, f)
    ensures Covered(Perform(s, op, f), f)
  {
  }

  lemma {:induction false} RunKeepsCovered(s: Clocked, ops: seq<Op>, f: Config)
    requires ValidConfig(f) && f.window <= f.lockTTL && Covered(s, f)
    ensures Covered(PerformAll(s, ops, f), f)
    decreases |ops|
  {
    if ops != [] {
      StepKeepsCovered(s, ops[0], f);
      RunKeepsCovered(Perform(s, ops[0], f), ops[1..], f);
    }
  }

  function Repeat(op: Op, n: nat): seq<Op> { seq(n, i => op) }

  lemma {:induction false} RecordsCountUp(s: Clocked, n: nat, f: Config)
    requires ValidConfig(f)
    requires s.keys.count.Held? ==> s.keys.count.value >= 1 && s.keys.count.expiry == Some(s.now + f.window)
    requires Failures(s) + n == f.threshold && n >= 1
    ensures PerformAll(s, Repeat(Record, n), f)
            == Clocked(Keys(Held(f.threshold, Some(s.now + f.window)), Held(1, Some(s.now + f.lockTTL))), s.now)
    decreases n
  {
    var next := Perform(s, Record, f);
    assert Repeat(Record, n)[1..] == Repeat(Record, n - 1);
    if n > 1 {
      RecordsCountUp(next, n - 1, f);
    } else {
      assert Repeat(Record, 0) == [];
      assert PerformAll(next, [], f) == next;
    }
  }

  /** Starting with no keys, every run in which the account is unlocked at the end has counted fewer failures. */
  ghost predicate UnlockedMeansBelow(f: Config) {
    forall ops, now :: BelowAfter(ops, now, f)
  }

  ghost predicate BelowAfter(ops: seq<Op>, now: Time, f: Config) {
    var end := PerformAll(Clocked(Keys(Absent, Absent), now), ops, f);
    Unlocked(end, f) ==> Failures(end) < f.threshold
  }

  lemma {:induction false} PerformAllAppend(s: Clocked, ops: seq<Op>, op: Op, f: Config)
    ensures PerformAll(s, ops + [op], f) == Perform(PerformAll(s, ops, f), op, f)
    decreases |ops|
  {
    if ops == [] {
      assert PerformAll(Perform(s, op, f), [], f) == Perform(s, op, f);
      assert ([] + [op])[1..] == [];
    } else {
      assert (ops + [op])[1..] == ops[1..] + [op];
      PerformAllAppend(Perform(s, ops[0], f), ops[1..], op, f);
    }
  }

  /**
   Although the lock is set only when the count equals the threshold, an unlocked account is always below
   the threshold, under checks, failures, resets and passing time in any order: this holds for a
   configuration exactly when the counting window is not longer than the lock.
   */
  lemma UnlockedMeansBelowIff(f: Config)
    requires ValidConfig(f)
    ensures UnlockedMeansBelow(f) <==> f.window <= f.lockTTL
  {
    if f.window <= f.lockTTL {
      forall ops, now ensures BelowAfter(ops, now, f) {
        RunKeepsCovered(Clocked(Keys(Absent, Absent), now), ops, f);
      }
    } else {
      var start := Clocked(Keys(Absent, Absent), 0);
      var records := Repeat(Record, f.threshold);
      RecordsCountUp(start, f.threshold, f);
      PerformAllAppend(start, records, Pass(f.lockTTL), f);
      assert !BelowAfter(records + [Pass(f.lockTTL)], 0, f);
    }
  }

  // ---- Failing attempts: check first, record when unlocked ----

  /** One failing login attempt: refused while locked, recorded otherwise. */
  function Attempt(k: Keys, now: Time, f: Config): (Keys, Status) {
    var (checked, status) := CheckStep(k, now, f);
    if status.locked then (checked, status) else (RecordStep(checked, now, f).0, status)
  }

  function AfterAttempts(k: Keys, times: seq<Time>, f: Config): Keys
    decreases |times|
  {
    if times == [] then k else AfterAttempts(Attempt(k, times[0], f).0, times[1..], f)
  }

  /** The failures recorded in the interval of one window from `start`. */
  function Recorded(k: Keys, times: seq<Time>, f: Config, start: Time): nat
    decreases |times|
  {
    if times == [] then 0
    else
      var (next, status) := Attempt(k, times[0], f);
      (if !status.locked && Within(times[0], start, f.window) then 1 else 0) + Recorded(next, times[1..], f, start)
  }

  /** Keys that failing attempts alone can have written by time `now`. */
  ghost predicate FromAttempts(k: Keys, now: Time, f: Config) {
    && (k.lock.Held? ==> k.lock.expiry.Some?)
    && (k.count.Held? ==>
          && 1 <= k.count.value <= f.threshold && k.count.expiry.Some? && k.count.expiry.value <= now + f.window
          && (k.count.value == f.threshold ==> k.lock.Held? && k.count.expiry.value <= k.lock.expiry.value)
          && (k.count.value < f.threshold && k.lock.Held? ==> k.lock.expiry.value <= k.count.expiry.value - f.window))
    && (k.count.Absent? ==> k.lock.Absent?)
  }

  lemma AttemptKeepsFromAttempts(k: Keys, now: Time, f: Config)
    requires ValidConfig(f) && f.window <= f.lockTTL && FromAttempts(k, now, f)
    ensures FromAttempts(Attempt(k, now, f).0, now, f)
  {
  }

  /** What failing attempts from time `now >= start` on can still record in the interval from `start`. */
  function Budget(k: Keys, now: Time, f: Config, start: Time): int {
    if IsLive(k.lock, now) then
      if k.lock.expiry.Some? && k.lock.expiry.value < start + f.window then f.threshold else 0
    else if IsLive(k.count, now) then
      if k.count.expiry.Some? && k.count.expiry.value < start + f.window && k.count.value >= 1
      then 2 * f.threshold - k.count.value - 1
      else f.threshold - k.count.value
    else f.threshold
  }

  lemma {:induction false} RecordedWithinBudget(k: Keys, times: seq<Time>, f: Config, start: Time)
    requires ValidConfig(f) && f.window <= f.lockTTL && times != [] && FromAttempts(k, times[0], f)
    requires Sorted(times) && start <= times[0]
    ensures times[0] < start + f.window ==> Recorded(k, times, f, start) <= Budget(k, times[0], f, start)
    ensures times[0] >= start + f.window ==> Recorded(k, times, f, start) == 0
    decreases |times|
  {
    var next, rest := Attempt(k, times[0], f).0, times[1..];
    AttemptKeepsFromAttempts(k, times[0], f);
    if rest != [] {
      assert rest[0] == times[1];
      RecordedWithinBudget(next, rest, f, start);
    }
  }

  function FailureBound(f: Config): int {
    if f.threshold >= 2 then 2 * f.threshold - 2 else f.threshold
  }

  /**
   However failing attempts are spread, any half-open interval as long as the counting window records at
   most max(threshold, 2 * threshold - 2) of them: 18 for the login threshold of 10.
   */
  lemma {:induction false} AtMostNearlyTwiceTheThreshold(k: Keys, times: seq<Time>, f: Config, start: Time)
    requires ValidConfig(f) && f.window <= f.lockTTL && Sorted(times)
    requires times != [] ==> FromAttempts(k, times[0], f)
    ensures Recorded(k, times, f, start) <= FailureBound(f)
    decreases |times|
  {
    if times != [] {
      if times[0] < start {
        AttemptKeepsFromAttempts(k, times[0], f);
        AtMostNearlyTwiceTheThreshold(Attempt(k, times[0], f).0, times[1..], f, start);
      } else {
        RecordedWithinBudget(k, times, f, start);
      }
    }
  }

  /**
   A live lock is neither extended nor shortened by failing attempts that check first, each in one step: it
   ends when it was set to end. LockLength has attempts that are recorded after others have set the lock.
   */
  lemma {:induction false} LockNeverExtended(k: Keys, times: seq<Time>, f: Config)
    requires k.lock.Held? && k.lock.expiry.Some?
    requires forall i :: 0 <= i < |times| ==> times[i] < k.lock.expiry.value
    ensures AfterAttempts(k, times, f) == k
    decreases |times|
  {
    if times != [] {
      assert Attempt(k, times[0], f).0 == k;
      LockNeverExtended(k, times[1..], f);
    }
  }

  // ---- Answers ----

  /** An account is locked exactly while its lock is live, and told the time that is left. */
  lemma LockedIff(k: Keys, now: Time, f: Config)
    requires ValidConfig(f)
    ensures var (_, status) := CheckStep(k, now, f);
            && (status.locked <==> IsLive(k.lock, now))
            && (status.locked ==> status.retryAfter == if k.lock.expiry.Some? then k.lock.expiry.value - now else f.lockTTL)
  {
  }

  /**
   The announced retry time is exact: after an answer at `now` that the account is locked for r, whatever
   attempts fail before now + r, the account is locked, for what is left of r, exactly until then.
   */
  lemma RetryAfterIsExact(k: Keys, now: Time, between: seq<Time>, later: Time, f: Config)
    requires ValidConfig(f) && CheckStep(k, now, f).1.locked && later >= now
    requires forall i :: 0 <= i < |between| ==> now <= between[i] < now + CheckStep(k, now, f).1.retryAfter
    ensures var (checked, status) := CheckStep(k, now, f);
            CheckStep(AfterAttempts(checked, between, f), later, f).1
              == if later < now + status.retryAfter then Status(true, now + status.retryAfter - later) else UNLOCKED
  {
    var (checked, status) := CheckStep(k, now, f);
    LockNeverExtended(checked, between, f);
  }

  /** A failure counts one more in the window that the first one opened, and locks exactly on reaching the threshold. */
  lemma RecordedFailure(k: Keys, now: Time, f: Config)
    requires ValidConfig(f) && (k.count.Held? ==> k.count.value >= 1)
    ensures var (next, locked) := RecordStep(k, now, f);
            var failures := if IsLive(k.count, now) then k.count.value + 1 else 1;
            && (locked <==> failures == f.threshold)
            && next.lock == (if locked then Held(1, Some(now + f.lockTTL)) else k.lock)
            && next.count == Held(failures, Some(
                 if IsLive(k.count, now) && k.count.expiry.Some? then k.count.expiry.value else now + f.window))
  {
  }

  lemma {:induction false} FailuresCountUp(failures: int, end: Time, times: seq<Time>, f: Config)
    requires ValidConfig(f) && 1 <= failures && failures + |times| < f.threshold
    requires forall i :: 0 <= i < |times| ==> times[i] < end
    ensures AfterAttempts(Keys(Held(failures, Some(end)), Absent), times, f) == Keys(Held(failures + |times|, Some(end)), Absent)
    decreases |times|
  {
    if times != [] {
      FailuresCountUp(failures + 1, end, times[1..], f);
    }
  }

  lemma {:induction false} AttemptsAppend(k: Keys, times: seq<Time>, last: Time, f: Config)
    ensures AfterAttempts(k, times + [last], f) == Attempt(AfterAttempts(k, times, f), last, f).0
    decreases |times|
  {
    if times == [] {
      assert [] + [last] == [last] && [last][1..] == [];
    } else {
      assert (times + [last])[1..] == times[1..] + [last];
      AttemptsAppend(Attempt(k, times[0], f).0, times[1..], last, f);
    }
  }

  /**
   From empty keys, failing attempts within a window of the first: fewer than the threshold leave the account
   unlocked, and the one that reaches it locks the account for exactly the length of a lock.
   */
  lemma LockedByThreshold(times: seq<Time>, last: Time, later: Time, f: Config)
    requires ValidConfig(f) && |times| + 1 <= f.threshold && later >= last
    requires forall i :: 0 <= i < |times| ==> times[0] <= times[i] <= last < times[0] + f.window
    ensures var end := AfterAttempts(Keys(Absent, Absent), times + [last], f);
            CheckStep(end, later, f).1
              == if |times| + 1 == f.threshold && later < last + f.lockTTL then Status(true, last + f.lockTTL - later) else UNLOCKED
  {
    AttemptsAppend(Keys(Absent, Absent), times, last, f);
    if times != [] {
      assert Attempt(Keys(Absent, Absent), times[0], f).0 == Keys(Held(1, Some(times[0] + f.window)), Absent);
      FailuresCountUp(1, times[0] + f.window, times[1..], f);
    }
  }

  /** After a success the failures before it count no more: as many as without them lead to a lock. */
  lemma ResetForgets(k: Keys, times: seq<Time>, f: Config)
    requires k.lock == Absent
    ensures AfterAttempts(ResetStep(k), times, f) == AfterAttempts(Keys(Absent, Absent), times, f)
  {
  }

  // ---- The bound is attained ----

  function Times(t: Time, n: nat): seq<Time> { seq(n, i => t) }

  lemma {:induction false} RecordedAppendsAtOnce(k: Keys, t: Time, n: nat, rest: seq<Time>, f: Config, start: Time)
    requires ValidConfig(f) && Within(t, start, f.window) && !IsLive(k.lock, t) && k.lock == Absent
    requires k.count.Held? ==> k.count.value >= 1 && k.count.expiry.Some?
    requires (if IsLive(k.count, t) then k.count.value else 0) + n < f.threshold
    ensures var k' := AfterAttempts(k, Times(t, n), f);
            && Recorded(k, Times(t, n) + rest, f, start) == n + Recorded(k', rest, f, start)
            && k'.lock == Absent
            && (n > 0 || IsLive(k.count, t) ==>
                  k'.count == Held((if IsLive(k.count, t) then k.count.value else 0) + n,
                                   Some(if IsLive(k.count, t) then k.count.expiry.value else t + f.window)))
            && (n == 0 ==> k' == k)
    decreases n
  {
    if n == 0 {
      assert Times(t, 0) + rest == rest;
    } else {
      var next := Attempt(k, t, f).0;
      assert Times(t, n)[1..] == Times(t, n - 1);
      assert (Times(t, n) + rest)[1..] == Times(t, n - 1) + rest;
      RecordedAppendsAtOnce(next, t, n - 1, rest, f, start);
    }
  }

  /** One failure, all but two more just before it expires, and as many as lead to a lock right after. */
  function WorstTimes(f: Config): seq<Time>
    requires f.threshold >= 2
  {
    [0] + (Times(f.window - 1, f.threshold - 2) + (Times(f.window, f.threshold - 1) + [f.window]))
  }

  lemma WorstTimesReachBound(f: Config)
    requires ValidConfig(f) && f.window >= 2 && f.threshold >= 2
    ensures Recorded(Keys(Absent, Absent), WorstTimes(f), f, f.window - 1) == FailureBound(f)
  {
    var none, w, th := Keys(Absent, Absent), f.window, f.threshold;
    var last := Times(w, th - 1) + [w];
    var rest := Times(w - 1, th - 2) + last;
    var k1 := Attempt(none, 0, f).0;
    assert WorstTimes(f)[1..] == rest;
    assert Recorded(none, WorstTimes(f), f, w - 1) == Recorded(k1, rest, f, w - 1);
    RecordedAppendsAtOnce(k1, w - 1, th - 2, last, f, w - 1);
    var k2 := AfterAttempts(k1, Times(w - 1, th - 2), f);
    RecordedAppendsAtOnce(k2, w, th - 1, [w], f, w - 1);
    LastOne(AfterAttempts(k2, Times(w, th - 1), f), w, f, w - 1);
  }

  lemma LastOne(k: Keys, t: Time, f: Config, start: Time)
    requires ValidConfig(f) && Within(t, start, f.window) && k.lock == Absent
    ensures Recorded(k, [t], f, start) == 1
  {
    assert [t][1..] == [];
  }

  /** Whatever the threshold, some spread of failing attempts reaches the bound. */
  lemma BoundAttained(f: Config)
    requires ValidConfig(f) && f.window >= 2
    ensures exists times, start ::
              Sorted(times) && Recorded(Keys(Absent, Absent), times, f, start) == FailureBound(f)
  {
    if f.threshold == 1 {
      LastOne(Keys(Absent, Absent), 0, f, 0);
      assert Sorted([0]);
    } else {
      WorstTimesReachBound(f);
      assert Sorted(WorstTimes(f));
    }
  }
}
