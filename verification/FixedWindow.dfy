/** One request per window: the fixed-window script, compared with a counting window of limit 1. */
module FixedWindow {
  import opened Basics
  import opened Redis
  import opened RateLimit
  import CountingWindow

  /** One request: the cell it leaves and the answer; a key without expiry answers a retry time of 0. */
  function Step(stored: Cell, now: Time, window: Time): (Cell, Result) {
    if IsLive(stored, now) then
      var left := TimeLeft(stored, now);
      var retry := if left < 0 then 0 else left;
      (stored, NewResult(false, retry, 0, now + retry))
    else (Held(1, Some(now + window)), NewResult(true, 0, 0, now + window))
  }

  class FixedWindowLimiter {
    const client: Client
    const prefix: string
    const window: Time

    constructor (client: Client, prefix: string, window: Time)
      requires window > 0
      ensures this.client == client && this.prefix == prefix && this.window == window
    {
      this.client := client;
      this.prefix := prefix;
      this.window := window;
    }

    method Allow(key: string) returns (result: Result)
      requires window > 0
      modifies client`cells
      ensures (Lookup(client.cells, prefix + key), result) == Step(Lookup(old(client.cells), prefix + key), client.now, window)
      ensures forall k :: k != prefix + key ==> Lookup(client.cells, k) == Lookup(old(client.cells), k)
    {
      var redisKey := prefix + key;
      var created := client.SetIfAbsent(redisKey, window);
      var left := client.PTTL(redisKey);
      if left < 0 {
        left := 0;
      }
      if created {
        result := NewResult(true, 0, 0, client.now + left);
      } else {
        result := NewResult(false, left, 0, client.now + left);
      }
    }
  }

  /**
   A request is admitted exactly if the key is not live, and then closes the window for its whole length; a
   denied one changes nothing and announces the time that is left, or 0 for a key without expiry.
   */
  lemma AnsweredByKey(c: Cell, now: Time, window: Time)
    requires window > 0
    ensures var (next, result) := Step(c, now, window);
            && (result.allowed <==> !IsLive(c, now))
            && (result.allowed ==> forall t :: IsLive(next, t) <==> t < now + window)
            && (result.allowed ==> result == Result(true, 0, 0, now + window))
            && (!result.allowed ==> next == c)
            && (!result.allowed ==> result == if c.expiry.Some? then Result(false, c.expiry.value - now, 0, c.expiry.value)
                                              else Result(false, 0, 0, now))
  {
  }

  function Decisions(c: Cell, times: seq<Time>, window: Time): (ds: seq<Result>)
    ensures |ds| == |times|
    decreases |times|
  {
    if times == [] then []
    else
      var (next, result) := Step(c, times[0], window);
      [result] + Decisions(next, times[1..], window)
  }

  lemma {:induction false} SameDecisions(c: Cell, times: seq<Time>, window: Time)
    requires window > 0 && (c.Held? ==> c.value >= 1 && c.expiry.Some?)
    ensures Decisions(c, times, window) == CountingWindow.Decisions(c, times, window, 1)
    decreases |times|
  {
    if times != [] {
      var next := Step(c, times[0], window).0;
      assert Step(c, times[0], window).1 == CountingWindow.Decision(CountingWindow.Script(c, times[0], window, 1), times[0], 1);
      assert CountingWindow.Script(c, times[0], window, 1).cell == next;
      SameDecisions(next, times[1..], window);
    }
  }

  /**
   A fixed window and a counting window of limit 1 give the same answers, retry times included, on every
   sequence of requests exactly when the key does not lack its expiry.
   */
  lemma SameAsCountingWindowIff(c: Cell, window: Time)
    requires window > 0 && (c.Held? ==> c.value >= 1)
    ensures (forall times :: Decisions(c, times, window) == CountingWindow.Decisions(c, times, window, 1))
            <==> !(c.Held? && c.expiry.None?)
  {
    if c.Held? && c.expiry.None? {
      assert Decisions(c, [0], window)[0].retryAfter == 0;
      assert CountingWindow.Decisions(c, [0], window, 1)[0].retryAfter == window;
    } else {
      forall times ensures Decisions(c, times, window) == CountingWindow.Decisions(c, times, window, 1) {
        SameDecisions(c, times, window);
      }
    }
  }

  /** A key without expiry denies every request for ever, each with a retry time of 0. */
  lemma {:induction false} WithoutExpiryDeniesForever(value: int, times: seq<Time>, window: Time, i: nat)
    requires i < |times|
    ensures Decisions(Held(value, None), times, window)[i] == Result(false, 0, 0, times[i])
    decreases |times|
  {
    if i > 0 {
      WithoutExpiryDeniesForever(value, times[1..], window, i - 1);
    }
  }

  lemma {:induction false} DeniedUntilExpiry(c: Cell, times: seq<Time>, window: Time, expiry: Time, j: nat)
    requires c.Held? && c.expiry == Some(expiry) && j < |times| && Sorted(times) && times[j] < expiry
    ensures !Decisions(c, times, window)[j].allowed
    decreases |times|
  {
    assert times[0] <= times[j];
    if j > 0 {
      DeniedUntilExpiry(c, times[1..], window, expiry, j - 1);
    }
  }

  /** Two admitted requests are at least one window apart. */
  lemma {:induction false} AdmissionsOneWindowApart(c: Cell, times: seq<Time>, window: Time, i: nat, j: nat)
    requires window > 0 && i < j < |times| && Sorted(times)
    requires Decisions(c, times, window)[i].allowed && Decisions(c, times, window)[j].allowed
    ensures times[j] - times[i] >= window
    decreases |times|
  {
    var next := Step(c, times[0], window).0;
    var rest := Decisions(next, times[1..], window);
    assert Decisions(c, times, window)[j] == rest[j - 1];
    if i == 0 {
      if times[j] < times[0] + window {
        DeniedUntilExpiry(next, times[1..], window, times[0] + window, j - 1);
      }
    } else {
      assert Decisions(c, times, window)[i] == rest[i - 1];
      AdmissionsOneWindowApart(next, times[1..], window, i - 1, j - 1);
    }
  }
}
