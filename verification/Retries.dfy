/** The retry policy, the wait before a retry, and what a Retry-After header may ask for. */
module Retries {
  import opened Wrappers

  datatype RetryPolicy = RetryPolicy(maxAttempts: int, baseDelay: real, capDelay: real, totalBudget: real)
  {
    predicate Sane() { baseDelay >= 0.0 && capDelay >= 0.0 }
  }

  /** base * 2**n. */
  function Doubled(base: real, n: nat): real {
    if n == 0 then base else 2.0 * Doubled(base, n - 1)
  }

  lemma {:induction false} DoubledGrows(base: real, n: nat)
    requires base >= 0.0
    ensures base <= Doubled(base, n)
  {
    if n > 0 { DoubledGrows(base, n - 1); }
  }

  function Ceiling(attempt: nat, policy: RetryPolicy): real {
    var grown := Doubled(policy.baseDelay, attempt);
    if grown < policy.capDelay then grown else policy.capDelay
  }

  function Scale(fraction: real, whole: real): real { fraction * whole }

  /** Full jitter: a fraction of the exponential ceiling, itself capped. */
  function Backoff(attempt: nat, policy: RetryPolicy, jitter: real): real {
    Scale(jitter, Ceiling(attempt, policy))
  }

  lemma ScaleShrinks(fraction: real, whole: real)
    requires 0.0 <= fraction <= 1.0 && whole >= 0.0
    ensures 0.0 <= Scale(fraction, whole) <= whole
  {
    assert (1.0 - fraction) * whole == whole - fraction * whole;
  }

  lemma CeilingBounds(attempt: nat, policy: RetryPolicy)
    requires policy.Sane()
    ensures 0.0 <= Ceiling(attempt, policy) <= policy.capDelay
    ensures Ceiling(attempt, policy) <= Doubled(policy.baseDelay, attempt)
  {
    DoubledGrows(policy.baseDelay, attempt);
  }

  /** The wait never exceeds the cap, nor the doubled base. */
  lemma BackoffBounds(attempt: nat, policy: RetryPolicy, jitter: real)
    requires policy.Sane() && 0.0 <= jitter <= 1.0
    ensures 0.0 <= Backoff(attempt, policy, jitter) <= policy.capDelay
    ensures Backoff(attempt, policy, jitter) <= Doubled(policy.baseDelay, attempt)
  {
    CeilingBounds(attempt, policy);
    var ceiling := Ceiling(attempt, policy);
    ScaleShrinks(jitter, ceiling);
  }

  function Power(n: nat): nat { if n == 0 then 1 else 2 * Power(n - 1) }

  lemma {:induction false} DoubledIsPower(base: real, n: nat)
    ensures Doubled(base, n) == base * Power(n) as real
  {
    if n > 0 { DoubledIsPower(base, n - 1); }
  }

  /** Full jitter: the waits that can come out are exactly those between zero and min(cap, base * 2**attempt). */
  lemma BackoffSpreads(attempt: nat, policy: RetryPolicy, wait: real)
    requires policy.Sane()
    ensures (exists jitter: real :: 0.0 <= jitter <= 1.0 && Backoff(attempt, policy, jitter) == wait)
            <==> 0.0 <= wait <= policy.capDelay && wait <= policy.baseDelay * Power(attempt) as real
  {
    DoubledIsPower(policy.baseDelay, attempt);
    var ceiling := Ceiling(attempt, policy);
    if jitter: real :| 0.0 <= jitter <= 1.0 && Backoff(attempt, policy, jitter) == wait {
      BackoffBounds(attempt, policy, jitter);
    }
    if 0.0 <= wait <= ceiling {
      var jitter := ShareOf(wait, ceiling);
      assert 0.0 <= jitter <= 1.0 && Backoff(attempt, policy, jitter) == wait;
    }
  }

  lemma ShareOf(part: real, whole: real) returns (share: real)
    requires 0.0 <= part <= whole
    ensures 0.0 <= share <= 1.0 && Scale(share, whole) == part
  {
    if whole == 0.0 { return 0.0; }
    share := part / whole;
    assert share * whole == part;
  }

  /** A Retry-After value as `float` reads it. */
  datatype HeaderValue = Absent | NotANumber | NaN | NegativeInfinity | PositiveInfinity | Number(value: real)

  datatype Delay = Seconds(value: real) | Forever

  function ParseRetryAfter(header: HeaderValue): Option<Delay> {
    match header
    case Number(value) => if value >= 0.0 then Some(Seconds(value)) else None
    case PositiveInfinity => Some(Forever)
    case _ => None
  }
}
