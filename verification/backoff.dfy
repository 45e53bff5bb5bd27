/** The delay formula of `_handle_retry_delay`: `min(300, 2 ** attempt * 30)` seconds. */
module Backoff {

  const BaseDelay: nat := 30
  const MaxDelay: nat := 300

  function Pow2(n: nat): (p: nat)
    ensures p >= 1
  {
    if n == 0 then 1 else 2 * Pow2(n - 1)
  }

  /** Seconds slept after failure number `attempt` (counted from 1): the exponential
      delay, capped at five minutes. */
  function RetryDelay(attempt: nat): (d: nat)
    ensures d <= MaxDelay && d <= BaseDelay * Pow2(attempt)
    ensures d == MaxDelay || d == BaseDelay * Pow2(attempt)
  {
    if BaseDelay * Pow2(attempt) < MaxDelay then BaseDelay * Pow2(attempt) else MaxDelay
  }

  lemma {:induction false} Pow2Monotone(a: nat, b: nat)
    requires a <= b
    ensures Pow2(a) <= Pow2(b)
    decreases b
  {
    if a < b {
      Pow2Monotone(a, b - 1);
    }
  }

  /** The delay never decreases from one attempt to the next. */
  lemma RetryDelayMonotone(a: nat, b: nat)
    requires a <= b
    ensures RetryDelay(a) <= RetryDelay(b)
  {
    Pow2Monotone(a, b);
  }

  /** The schedule: 60, 120, 240 seconds, then the 300-second cap from the fourth
      failure on. */
  lemma RetryDelaySchedule(a: nat)
    ensures RetryDelay(1) == 60 && RetryDelay(2) == 120 && RetryDelay(3) == 240
    ensures a >= 4 ==> RetryDelay(a) == MaxDelay
  {
    assert Pow2(3) == 8;
    if a >= 4 {
      Pow2Monotone(4, a);
    }
  }
}
