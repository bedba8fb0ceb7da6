/** The token bucket: tokens come back at a steady rate up to the burst, and every grant takes one. */
module RateLimiting {

  /** What the bucket earns between two moments. */
  function Earned(rate: real, from: real, to: real): real { rate * (to - from) }

  lemma EarnedSplit(rate: real, a: real, b: real, c: real)
    ensures Earned(rate, a, b) + Earned(rate, b, c) == Earned(rate, a, c)
  {
    assert rate * (b - a) + rate * (c - b) == rate * (c - a);
  }

  lemma EarnedIsPositive(rate: real, a: real, b: real)
    requires rate > 0.0 && a <= b
    ensures Earned(rate, a, b) >= 0.0
  {
    if a < b { assert rate * (b - a) > 0.0; }
  }

  lemma WaitEarns(rate: real, missing: real, a: real, b: real)
    requires rate > 0.0 && b - a >= missing / rate
    ensures Earned(rate, a, b) >= missing
  {
    var wait := missing / rate;
    assert rate * wait == missing;
    EarnedIsPositive(rate, a + wait, b);
    EarnedSplit(rate, a, a + wait, b);
  }

  function Refilled(rate: real, capacity: real, tokens: real, last: real, now: real): real {
    var elapsed := if now - last > 0.0 then now - last else 0.0;
    var full := tokens + Earned(rate, 0.0, elapsed);
    if capacity < full then capacity else full
  }

  /** The tokens at the n-th reading, when none is taken in between. */
  function Level(rate: real, capacity: real, tokens: real, last: real, readings: seq<real>, n: nat): real
    requires 0 < n <= |readings|
  {
    if n == 1 then Refilled(rate, capacity, tokens, last, readings[0])
    else Refilled(rate, capacity, Level(rate, capacity, tokens, last, readings, n - 1), readings[n - 2], readings[n - 1])
  }

  predicate NonDecreasing(last: real, readings: seq<real>) {
    && (readings != [] ==> last <= readings[0])
    && forall i, k :: 0 <= i < k < |readings| ==> readings[i] <= readings[k]
  }

  /** Any consecutive grants i..j number at most the burst plus what the time between them earns. */
  predicate WindowBound(rate: real, capacity: real, grants: seq<real>) {
    forall i, j :: 0 <= i <= j < |grants| ==> (j - i + 1) as real <= capacity + Earned(rate, grants[i], grants[j])
  }

  /** The bucket's credit: what is left, plus what was granted since any past grant, is still covered. */
  predicate Covered(rate: real, capacity: real, grants: seq<real>, tokens: real, last: real) {
    forall i :: 0 <= i < |grants| ==>
      grants[i] <= last && tokens + (|grants| - i) as real <= capacity + Earned(rate, grants[i], last)
  }

  /** The first sleep lasted `wait_for`: the time the missing fraction of a token takes to come back. */
  predicate SleptLongEnough(rate: real, tokens: real, readings: seq<real>)
    requires rate > 0.0
  {
    |readings| > 1 && readings[1] - readings[0] >= (1.0 - tokens) / rate
  }

  class RateLimiter {
    const rate: real
    const capacity: real
    var tokens: real
    var lastRefill: real
    ghost var grants: seq<real>

    ghost predicate Valid()
      reads this
    {
      && rate > 0.0 && 0.0 <= tokens <= capacity
      && WindowBound(rate, capacity, grants)
      && Covered(rate, capacity, grants, tokens, lastRefill)
    }

    constructor (requestsPerPeriod: real, periodSeconds: real, burst: nat, now: real)
      requires requestsPerPeriod > 0.0 && periodSeconds > 0.0
      ensures Valid() && capacity == burst as real && tokens == capacity && lastRefill == now && grants == []
    {
      rate := requestsPerPeriod / periodSeconds;
      capacity, tokens, lastRefill, grants := burst as real, burst as real, now, [];
    }

    method Refill(now: real)
      requires Valid() && lastRefill <= now
      modifies `tokens, `lastRefill
      ensures Valid() && lastRefill == now
      ensures tokens == Refilled(rate, capacity, old(tokens), old(lastRefill), now)
      ensures var full := old(tokens) + rate * (now - old(lastRefill));
              tokens == (if capacity < full then capacity else full) >= old(tokens)
    {
      RefillCovers(rate, capacity, grants, tokens, lastRefill, now);
      tokens := Refilled(rate, capacity, tokens, lastRefill, now);
      lastRefill := now;
    }

    /** Waits for a token, reading the clock once before it looks and once after every sleep; `readings` is
        what the clock says. A grant takes one token at the time of the last reading. With a burst of at
        least one, an acquire sleeps at most once when the sleep lasts as long as asked; with a burst of
        zero it is never granted. */
    method Acquire(readings: seq<real>) returns (granted: bool, read: nat)
      requires Valid() && readings != [] && NonDecreasing(lastRefill, readings)
      modifies this
      ensures Valid() && 0 < read <= |readings| && lastRefill == readings[read - 1]
      ensures granted ==> grants == old(grants) + [lastRefill]
      ensures !granted ==> grants == old(grants) && read == |readings|
      ensures var level := n requires 0 < n <= |readings| => Level(rate, capacity, old(tokens), old(lastRefill), readings, n);
              && (granted <==> level(read) >= 1.0) && (forall n :: 0 < n < read ==> level(n) < 1.0)
              && tokens == level(read) - if granted then 1.0 else 0.0
      ensures var first := Refilled(rate, capacity, old(tokens), old(lastRefill), readings[0]);
              && (first >= 1.0 ==> granted && read == 1)
              && (first < 1.0 && capacity >= 1.0 && SleptLongEnough(rate, first, readings) ==> granted && read == 2)
      ensures capacity < 1.0 ==> !granted
    {
      Refill(readings[0]);
      read := 1;
      ghost var first := tokens;
      while tokens < 1.0 && read < |readings|
        invariant 0 < read <= |readings| && Valid() && lastRefill == readings[read - 1] && grants == old(grants)
        invariant tokens == Level(rate, capacity, old(tokens), old(lastRefill), readings, read)
        invariant forall n :: 0 < n < read ==> Level(rate, capacity, old(tokens), old(lastRefill), readings, n) < 1.0
        invariant read == 1 ==> tokens == first
        invariant read > 1 ==> first < 1.0
        invariant capacity >= 1.0 && SleptLongEnough(rate, first, readings) ==> read == 1 || (read == 2 && tokens >= 1.0)
        decreases |readings| - read
      {
        if read == 1 && capacity >= 1.0 && SleptLongEnough(rate, first, readings) {
          WaitEarns(rate, 1.0 - first, 0.0, readings[1] - readings[0]);
        }
        Refill(readings[read]);
        read := read + 1;
      }
      if tokens < 1.0 { return false, read; }
      GrantCovers(rate, capacity, grants, tokens, lastRefill);
      grants := grants + [lastRefill];
      tokens := tokens - 1.0;
      granted := true;
    }
  }

  lemma RefillCovers(rate: real, capacity: real, grants: seq<real>, tokens: real, last: real, now: real)
    requires rate > 0.0 && 0.0 <= tokens <= capacity && last <= now && Covered(rate, capacity, grants, tokens, last)
    ensures tokens <= Refilled(rate, capacity, tokens, last, now) <= capacity
    ensures Covered(rate, capacity, grants, Refilled(rate, capacity, tokens, last, now), now)
  {
    assert Earned(rate, 0.0, now - last) == Earned(rate, last, now);
    EarnedIsPositive(rate, last, now);
    forall i | 0 <= i < |grants|
      ensures grants[i] <= now && Refilled(rate, capacity, tokens, last, now) + (|grants| - i) as real <= capacity + Earned(rate, grants[i], now)
    {
      EarnedSplit(rate, grants[i], last, now);
    }
  }

  lemma GrantCovers(rate: real, capacity: real, grants: seq<real>, tokens: real, now: real)
    requires rate > 0.0 && 1.0 <= tokens <= capacity
    requires WindowBound(rate, capacity, grants) && Covered(rate, capacity, grants, tokens, now)
    ensures WindowBound(rate, capacity, grants + [now]) && Covered(rate, capacity, grants + [now], tokens - 1.0, now)
  {
    var longer := grants + [now];
    assert Earned(rate, now, now) == 0.0;
    forall i, j | 0 <= i <= j < |longer|
      ensures (j - i + 1) as real <= capacity + Earned(rate, longer[i], longer[j])
    {
      if j == |grants| && i < |grants| {
        assert tokens + (|grants| - i) as real <= capacity + Earned(rate, grants[i], now);
      }
    }
  }
}
