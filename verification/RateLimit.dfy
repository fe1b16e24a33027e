/** The answer of a request limiter, and sequences of requests. */
module RateLimit {
  import opened Basics
  import opened Redis

  datatype Result = Result(allowed: bool, retryAfter: Time, remaining: nat, resetAt: Time)

  function NewResult(allowed: bool, retryAfter: Time, remaining: int, resetAt: Time): Result {
    Result(allowed, retryAfter, if remaining < 0 then 0 else remaining, resetAt)
  }

  predicate Sorted(times: seq<Time>) {
    forall i, j :: 0 <= i < j < |times| ==> times[i] <= times[j]
  }

  /** Time `t` lies in the half-open interval of length `window` that starts at `start`. */
  predicate Within(t: Time, start: Time, window: Time) {
    start <= t < start + window
  }

  /** The seconds a client is told to wait: the remaining time rounded up. */
  function CeilSeconds(milliseconds: Time): int {
    -((-milliseconds) / 1000)
  }

  /** A client that waits the announced seconds waits long enough, and less than a second too long. */
  lemma CeilSecondsSuffices(milliseconds: Time)
    ensures milliseconds <= 1000 * CeilSeconds(milliseconds) < milliseconds + 1000
  {
  }
}
