/** At most `limit` requests per window: the counting-window script and its guarantees. */
module CountingWindow {
  import opened Basics
  import opened Redis
  import opened RateLimit

  datatype Reply = Reply(cell: Cell, count: int, timeLeft: Time)

  /** One evaluation of the script: what it leaves under the key, and the pair it returns. */
  function Script(stored: Cell, now: Time, window: Time, limit: int): Reply {
    var c := Seen(stored, now);
    var before := if c.Held? then c.value else 0;
    var c1 :=
      if before >= limit then c
      else if before + 1 == 1 then Held(1, Some(now + window))
      else Held(before + 1, if c.Held? then c.expiry else None);
    if TimeLeft(c1, now) < 0
    then Reply(if c1.Held? then Held(c1.value, Some(now + window)) else Absent, before + 1, window)
    else Reply(c1, before + 1, TimeLeft(c1, now))
  }

  function Decision(reply: Reply, now: Time, limit: int): Result {
    if reply.count > limit then NewResult(false, reply.timeLeft, 0, now + reply.timeLeft)
    else NewResult(true, 0, limit - reply.count, now + reply.timeLeft)
  }

  class CountingWindowLimiter {
    const client: Client
    const prefix: string
    const window: Time
    const limit: int

    constructor (client: Client, prefix: string, window: Time, limit: int)
      requires window > 0
      ensures this.client == client && this.prefix == prefix && this.window == window && this.limit == limit
    {
      this.client := client;
      this.prefix := prefix;
      this.window := window;
      this.limit := limit;
    }

    /** Runs the script command by command on the shared store; no other key is touched. */
    method Allow(key: string) returns (result: Result)
      requires window > 0
      modifies client`cells
      ensures var reply := Script(Lookup(old(client.cells), prefix + key), client.now, window, limit);
              && result == Decision(reply, client.now, limit)
              && Seen(Lookup(client.cells, prefix + key), client.now) == reply.cell
      ensures forall k :: k != prefix + key ==> Lookup(client.cells, k) == Lookup(old(client.cells), k)
    {
      var redisKey := prefix + key;
      var stored := client.Get(redisKey);
      var count := match stored case Some(value) => value case None => 0;
      if count < limit {
        count := client.Incr(redisKey);
        if count == 1 {
          client.PExpire(redisKey, window);
        }
      } else {
        count := count + 1;
      }
      var left := client.PTTL(redisKey);
      if left < 0 {
        client.PExpire(redisKey, window);
        left := window;
      }
      if count > limit {
        result := NewResult(false, left, 0, client.now + left);
      } else {
        result := NewResult(true, 0, limit - count, client.now + left);
      }
    }
  }

  // ---- One request ----

  /** How many requests the key stands for at that time. */
  function CountAt(c: Cell, now: Time): int { if IsLive(c, now) then c.value else 0 }

  /**
   A request is admitted exactly while fewer than `limit` are counted, and only then counted; the answer tells
   how many more there may be and when the window ends, which is set by the request that opens it.
   */
  lemma AnsweredByCount(c: Cell, now: Time, window: Time, limit: int)
    requires window > 0 && (c.Held? ==> c.value >= 1)
    ensures var reply := Script(c, now, window, limit);
            var result := Decision(reply, now, limit);
            && (result.allowed <==> CountAt(c, now) < limit)
            && CountAt(reply.cell, now) == CountAt(c, now) + (if result.allowed then 1 else 0)
            && result.remaining == (if result.allowed then limit - CountAt(c, now) - 1 else 0)
            && result.resetAt == (if IsLive(c, now) && c.expiry.Some? then c.expiry.value else now + window)
            && result.retryAfter == (if result.allowed then 0 else result.resetAt - now)
            && forall t :: t >= now ==> (IsLive(reply.cell, t) <==> reply.cell.Held? && t < result.resetAt)
  {
  }

  // ---- Sequences of requests ----

  function After(c: Cell, times: seq<Time>, window: Time, limit: int): Cell
    decreases |times|
  {
    if times == [] then c else After(Script(c, times[0], window, limit).cell, times[1..], window, limit)
  }

  function Decisions(c: Cell, times: seq<Time>, window: Time, limit: int): (ds: seq<Result>)
    ensures |ds| == |times|
    decreases |times|
  {
    if times == [] then []
    else
      var reply := Script(c, times[0], window, limit);
      [Decision(reply, times[0], limit)] + Decisions(reply.cell, times[1..], window, limit)
  }

  /** The requests answered with admission in the interval of one window from `start`. */
  function Admitted(c: Cell, times: seq<Time>, window: Time, limit: int, start: Time): nat
    decreases |times|
  {
    if times == [] then 0
    else
      var reply := Script(c, times[0], window, limit);
      (if Decision(reply, times[0], limit).allowed && Within(times[0], start, window) then 1 else 0)
      + Admitted(reply.cell, times[1..], window, limit, start)
  }

  /** Cells the script itself can have written, and those that have lost their expiry. */
  predicate Sane(c: Cell, limit: int) {
    c.Held? ==> 1 <= c.value <= limit
  }

  /** The stored count never exceeds the limit. */
  lemma {:induction false} CountStaysWithinLimit(c: Cell, times: seq<Time>, window: Time, limit: int)
    requires window > 0 && Sane(c, limit)
    ensures Sane(After(c, times, window, limit), limit)
    decreases |times|
  {
    if times != [] {
      CountStaysWithinLimit(Script(c, times[0], window, limit).cell, times[1..], window, limit);
    }
  }

  /** What requests from time `now >= start` on can still be admitted in the interval from `start`. */
  function Budget(c: Cell, now: Time, window: Time, limit: int, start: Time): int {
    match Seen(c, now)
    case Absent => limit
    case Held(v, None) => limit - v
    case Held(v, Some(expiry)) => if expiry >= start + window then limit - v else 2 * limit - v
  }

  lemma {:induction false} AdmittedWithinBudget(c: Cell, times: seq<Time>, window: Time, limit: int, start: Time)
    requires window > 0 && limit >= 1 && Sane(c, limit)
    requires times != [] && Sorted(times) && start <= times[0]
    ensures times[0] < start + window ==> Admitted(c, times, window, limit, start) <= Budget(c, times[0], window, limit, start)
    ensures times[0] >= start + window ==> Admitted(c, times, window, limit, start) == 0
    decreases |times|
  {
    var next, rest := Script(c, times[0], window, limit).cell, times[1..];
    if rest != [] {
      assert rest[0] == times[1];
      AdmittedWithinBudget(next, rest, window, limit, start);
    }
  }

  /** Any half-open interval as long as the window admits at most 2 * limit - 1 requests. */
  lemma {:induction false} AtMostTwiceTheLimit(c: Cell, times: seq<Time>, window: Time, limit: int, start: Time)
    requires window > 0 && limit >= 1 && Sane(c, limit) && Sorted(times)
    ensures Admitted(c, times, window, limit, start) <= 2 * limit - 1
    decreases |times|
  {
    if times != [] {
      if times[0] < start {
        AtMostTwiceTheLimit(Script(c, times[0], window, limit).cell, times[1..], window, limit, start);
      } else {
        AdmittedWithinBudget(c, times, window, limit, start);
      }
    }
  }

  // ---- Retry times ----

  function Times(t: Time, n: nat): seq<Time> { seq(n, i => t) }

  lemma {:induction false} AdmittedAtOnce(c: Cell, t: Time, n: nat, rest: seq<Time>, window: Time, limit: int, start: Time)
    requires window > 0 && Within(t, start, window)
    requires c.Held? ==> c.value >= 1 && c.expiry.Some?
    requires (if IsLive(c, t) then c.value else 0) + n <= limit
    ensures var c' := After(c, Times(t, n), window, limit);
            && Admitted(c, Times(t, n) + rest, window, limit, start) == n + Admitted(c', rest, window, limit, start)
            && c' == if n == 0 then c
                     else Held((if IsLive(c, t) then c.value else 0) + n, Some(if IsLive(c, t) then c.expiry.value else t + window))
    decreases n
  {
    if n == 0 {
      assert Times(t, 0) + rest == rest;
    } else {
      assert Times(t, n)[1..] == Times(t, n - 1);
      assert (Times(t, n) + rest)[1..] == Times(t, n - 1) + rest;
      AdmittedAtOnce(Script(c, t, window, limit).cell, t, n - 1, rest, window, limit, start);
    }
  }

  /** One request, all but one more just before it expires, and a full window right after. */
  function WorstTimes(window: Time, limit: int): seq<Time>
    requires limit >= 1
  {
    [0] + (Times(window - 1, limit - 1) + (Times(window, limit) + []))
  }

  lemma WorstTimesReachBound(window: Time, limit: int)
    requires window >= 2 && limit >= 1
    ensures Admitted(Absent, WorstTimes(window, limit), window, limit, window - 1) == 2 * limit - 1
  {
    var start := window - 1;
    var rest := Times(start, limit - 1) + (Times(window, limit) + []);
    var c1 := Script(Absent, 0, window, limit).cell;
    assert WorstTimes(window, limit)[1..] == rest;
    AdmittedAtOnce(c1, start, limit - 1, Times(window, limit) + [], window, limit, start);
    AdmittedAtOnce(After(c1, Times(start, limit - 1), window, limit), window, limit, [], window, limit, start);
  }

  /** Some sequence of requests from an absent key reaches the bound. */
  lemma BoundAttained(window: Time, limit: int)
    requires window >= 2 && limit >= 1
    ensures exists times, start :: Sorted(times) && Admitted(Absent, times, window, limit, start) == 2 * limit - 1
  {
    WorstTimesReachBound(window, limit);
    assert Sorted(WorstTimes(window, limit));
  }

  lemma {:induction false} ClosedWindowDenies(c: Cell, times: seq<Time>, window: Time, limit: int, expiry: Time)
    requires limit >= 1 && c.Held? && c.value >= limit && c.expiry == Some(expiry)
    requires forall i :: 0 <= i < |times| ==> times[i] < expiry
    ensures After(c, times, window, limit) == c
    ensures forall i :: 0 <= i < |times| ==> Decisions(c, times, window, limit)[i] == Result(false, expiry - times[i], 0, expiry)
    decreases |times|
  {
    if times != [] {
      assert Script(c, times[0], window, limit).cell == c;
      ClosedWindowDenies(c, times[1..], window, limit, expiry);
      var ds := Decisions(c, times, window, limit);
      forall i | 0 <= i < |times| ensures ds[i] == Result(false, expiry - times[i], 0, expiry) {
        assert i > 0 ==> ds[i] == Decisions(c, times[1..], window, limit)[i - 1] && times[i] == times[1..][i - 1];
      }
    }
  }

  /**
   The announced retry time is exact: after a denial at `now` with retry time r, whatever requests arrive
   before now + r are denied and announce the same instant, and the first request from then on is admitted.
   */
  lemma RetryAfterIsExact(c: Cell, now: Time, between: seq<Time>, later: Time, window: Time, limit: int)
    requires window > 0 && limit >= 1
    requires !Decision(Script(c, now, window, limit), now, limit).allowed
    requires forall i :: 0 <= i < |between| ==>
               now <= between[i] < now + Decision(Script(c, now, window, limit), now, limit).retryAfter
    requires later >= now + Decision(Script(c, now, window, limit), now, limit).retryAfter
    ensures var next := Script(c, now, window, limit).cell;
            var retry := Decision(Script(c, now, window, limit), now, limit).retryAfter;
            && (forall i :: 0 <= i < |between| ==>
                  Decisions(next, between, window, limit)[i] == Result(false, now + retry - between[i], 0, now + retry))
            && Decision(Script(After(next, between, window, limit), later, window, limit), later, limit).allowed
  {
    var next := Script(c, now, window, limit).cell;
    var retry := Decision(Script(c, now, window, limit), now, limit).retryAfter;
    ClosedWindowDenies(next, between, window, limit, now + retry);
  }

  lemma {:induction false} ExpiryKept(c: Cell, times: seq<Time>, window: Time, limit: int)
    requires c.Held? && c.value >= 1 && c.expiry.Some?
    requires forall i :: 0 <= i < |times| ==> times[i] < c.expiry.value
    ensures var c' := After(c, times, window, limit); c'.Held? && c'.expiry == c.expiry
    decreases |times|
  {
    if times != [] {
      ExpiryKept(Script(c, times[0], window, limit).cell, times[1..], window, limit);
    }
  }

  /** A key that lost its expiry recovers: a window after the next request at the latest, one is admitted. */
  lemma RecoversWithinOneWindow(value: int, now: Time, between: seq<Time>, later: Time, window: Time, limit: int)
    requires window > 0 && limit >= 1 && value >= 0
    requires forall i :: 0 <= i < |between| ==> now <= between[i] < now + window
    requires later >= now + window
    ensures var next := Script(Held(value, None), now, window, limit).cell;
            Decision(Script(After(next, between, window, limit), later, window, limit), later, limit).allowed
  {
    var next := Script(Held(value, None), now, window, limit).cell;
    assert next.Held? && next.expiry == Some(now + window);
    ExpiryKept(next, between, window, limit);
  }
}
