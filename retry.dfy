/**
 * The retry loop of `RateLimitedOpenAIChatCompletion._send_completion_request`
 * (main.py:56, main.py:88-91, main.py:114-125): a completion request is
 * retried after a rate-limit error with a doubling, capped wait, and any
 * other error is re-raised at once.
 */
module Retry {
  import opened Common
  import opened Text

  const MaxRetries: nat := 5
  /** `_min_request_interval`, the wait the backoff starts from; whole seconds here. */
  const MinRequestInterval: nat := 2
  const BackoffFactor: nat := 2
  const MaxBackoff: nat := 30

  /** `"rate" in str(e).lower()`. */
  predicate IsRateLimit(message: string) {
    Contains(Lower(message), "rate")
  }

  function Min(a: int, b: int): int {
    if a <= b then a else b
  }

  /** The wait before retry `i + 1`: the backoff doubled `i + 1` times from the minimum interval, never above the cap. */
  function Backoff(i: nat): nat {
    if i == 0 then Min(MinRequestInterval * BackoffFactor, MaxBackoff)
    else Min(Backoff(i - 1) * BackoffFactor, MaxBackoff)
  }

  /** The waits are 4, 8, 16, then 30 for good. */
  lemma {:induction false} BackoffSchedule(i: nat)
    ensures i == 0 ==> Backoff(i) == 4
    ensures i == 1 ==> Backoff(i) == 8
    ensures i == 2 ==> Backoff(i) == 16
    ensures i >= 3 ==> Backoff(i) == MaxBackoff
  {
    if i > 0 {
      BackoffSchedule(i - 1);
    }
  }

  /** The backoff never decreases and never exceeds the cap. */
  lemma {:induction false} BackoffMonotone(i: nat)
    ensures Backoff(i) <= Backoff(i + 1) <= MaxBackoff
  {
    if i > 0 {
      BackoffMonotone(i - 1);
    }
  }

  /**
   * `call(k)` is what attempt `k` of the underlying request gives: a
   * response, or the message of the exception it raised. The result is the
   * response or the exception that leaves the method; `attempts` is how
   * many requests were sent and `waits` the backoff slept before each retry.
   */
  method SendWithRetry<T>(call: nat -> Result<T, string>)
    returns (result: Result<T, string>, attempts: nat, waits: seq<nat>)
    ensures 1 <= attempts <= MaxRetries
    ensures result == call(attempts - 1)
    // every attempt before the last one failed with a rate-limit error
    ensures forall k :: 0 <= k < attempts - 1 ==> call(k).Err? && IsRateLimit(call(k).error)
    // a failure leaves at once unless it is a rate limit with attempts to spare
    ensures result.Err? ==> !IsRateLimit(result.error) || attempts == MaxRetries
    ensures |waits| == attempts - 1
    ensures forall k :: 0 <= k < |waits| ==> waits[k] == Backoff(k)
  {
    var backoff: nat := MinRequestInterval;
    waits := [];
    var attempt: nat := 0;
    while true
      invariant attempt < MaxRetries
      invariant |waits| == attempt
      invariant forall k :: 0 <= k < attempt ==> call(k).Err? && IsRateLimit(call(k).error)
      invariant forall k :: 0 <= k < attempt ==> waits[k] == Backoff(k)
      invariant backoff == if attempt == 0 then MinRequestInterval else Backoff(attempt - 1)
      decreases MaxRetries - attempt
    {
      var outcome := call(attempt);
      if outcome.Ok? {
        return outcome, attempt + 1, waits;
      }
      if IsRateLimit(outcome.error) && attempt < MaxRetries - 1 {
        backoff := Min(backoff * BackoffFactor, MaxBackoff);
        assert backoff == Backoff(attempt);
        waits := waits + [backoff];
        attempt := attempt + 1;
        continue;
      }
      return outcome, attempt + 1, waits;
    }
  }

  /** The waits a call can sleep are a prefix of 4, 8, 16, 30 seconds. */
  lemma WaitsArePrefix(waits: seq<nat>)
    requires |waits| <= MaxRetries - 1
    requires forall k :: 0 <= k < |waits| ==> waits[k] == Backoff(k)
    ensures waits == [4, 8, 16, 30][..|waits|]
  {
    forall k | 0 <= k < |waits| ensures waits[k] == [4, 8, 16, 30][k] {
      BackoffSchedule(k);
    }
  }
}
