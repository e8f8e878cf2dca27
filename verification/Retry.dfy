/** Retry budget and backoff (internal/app/retry.go). Durations are int64 nanoseconds. */
module Retry {

  const SECOND := 1_000_000_000
  const TWO_TO_63 := 0x8000_0000_0000_0000
  const TWO_TO_64 := 0x1_0000_0000_0000_0000

  /** Two's complement int64 arithmetic. */
  function Wrap(x: int): (r: int)
    ensures -TWO_TO_63 <= r < TWO_TO_63
    ensures -TWO_TO_63 <= x < TWO_TO_63 ==> r == x
  {
    (x + TWO_TO_63) % TWO_TO_64 - TWO_TO_63
  }

  /** A product that does not fit is off by a multiple of 2^64. */
  lemma WrapIsCongruent(x: int)
    ensures (x - Wrap(x)) % 0x1_0000_0000_0000_0000 == 0
  {
    var k := (x + TWO_TO_63) / TWO_TO_64;
    assert x - Wrap(x) == k * TWO_TO_64;
  }

  function Pow2(n: nat): (p: nat)
    ensures p >= 1
  {
    if n == 0 then 1 else 2 * Pow2(n - 1)
  }

  /** The configured base delay; a product that is not positive falls back to 15 seconds. */
  function BaseDelay(baseSeconds: int): (d: int)
    ensures 0 < d < TWO_TO_63
    ensures 0 < baseSeconds * 1_000_000_000 < TWO_TO_63 ==> d == baseSeconds * 1_000_000_000
    ensures -TWO_TO_63 <= baseSeconds * 1_000_000_000 <= 0 ==> d == 15_000_000_000
  {
    var product := Wrap(baseSeconds * SECOND);
    if product <= 0 then 15 * SECOND else product
  }

  /** What doubling the base delay `attemptNo - 1` times leaves in an int64. */
  function Backoff(baseSeconds: int, attemptNo: nat): int
  {
    Wrap(BaseDelay(baseSeconds) * Pow2(if attemptNo == 0 then 0 else attemptNo - 1))
  }

  /** An attempt may be retried only while its number is within the configured budget. */
  predicate WithinBudget(attemptNo: nat, maxRetries: nat)
  {
    attemptNo <= maxRetries
  }

  /** The time to retry at, or no retry. */
  method RetryAfter(now: int, attemptNo: nat, retryable: bool, maxRetries: nat, baseSeconds: int)
    returns (at: int, ok: bool)
    ensures ok <==> retryable && attemptNo <= maxRetries
    ensures ok ==> at == now + Backoff(baseSeconds, attemptNo)
  {
    if !retryable || attemptNo > maxRetries {
      return 0, false;
    }
    var delay := BaseDelay(baseSeconds);
    var i := 1;
    while i < attemptNo
      invariant 1 <= i && (i <= attemptNo || i == 1)
      invariant delay == Wrap(BaseDelay(baseSeconds) * Pow2(i - 1))
    {
      WrapDoubles(BaseDelay(baseSeconds) * Pow2(i - 1));
      DoubleIsNextPower(BaseDelay(baseSeconds), i);
      delay := Wrap(delay * 2);
      i := i + 1;
    }
    at, ok := now + delay, true;
  }

  lemma DoubleIsNextPower(b: int, i: nat)
    requires i >= 1
    ensures b * Pow2(i) == b * Pow2(i - 1) * 2
  {
  }

  lemma WrapDoubles(x: int)
    ensures Wrap(Wrap(x) * 2) == Wrap(x * 2)
  {
    var k := (x + TWO_TO_63) / TWO_TO_64;
    assert Wrap(x) == x - k * TWO_TO_64;
    WrapShift(x * 2, -2 * k);
  }

  lemma WrapShift(x: int, k: int)
    ensures Wrap(x + k * TWO_TO_64) == Wrap(x)
  {
    var y := x + TWO_TO_63;
    assert (y + k * TWO_TO_64) % TWO_TO_64 == y % TWO_TO_64 by {
      assert y + k * TWO_TO_64 == (y / TWO_TO_64 + k) * TWO_TO_64 + y % TWO_TO_64;
    }
  }

  /** The wait doubles exactly with the attempt number, precisely while the product fits an
      int64; from the first attempt where it does not, the wait is something else. */
  lemma BackoffIsExactIffItFits(baseSeconds: int, attemptNo: nat)
    requires attemptNo >= 1
    ensures Backoff(baseSeconds, attemptNo) == BaseDelay(baseSeconds) * Pow2(attemptNo - 1)
            <==> BaseDelay(baseSeconds) * Pow2(attemptNo - 1) < TWO_TO_63
  {
    assert BaseDelay(baseSeconds) * Pow2(attemptNo - 1) >= 0;
  }

  /** The waits before attempts 2 .. retries + 1. */
  function TotalBackoff(baseSeconds: int, retries: nat): int
  {
    if retries == 0 then 0
    else TotalBackoff(baseSeconds, retries - 1) + Backoff(baseSeconds, retries)
  }

  lemma {:induction false} Pow2Grows(i: nat, j: nat)
    requires i <= j
    ensures Pow2(i) <= Pow2(j)
  {
    if i < j {
      Pow2Grows(i, j - 1);
    }
  }

  /** All the waits of a task together: base * (2^retries - 1). */
  lemma {:induction false} TotalBackoffIsGeometric(baseSeconds: int, retries: nat)
    requires retries >= 1 ==> BaseDelay(baseSeconds) * Pow2(retries - 1) < TWO_TO_63
    ensures TotalBackoff(baseSeconds, retries) == BaseDelay(baseSeconds) * (Pow2(retries) - 1)
  {
    if retries >= 1 {
      var b, p := BaseDelay(baseSeconds), Pow2(retries - 1);
      if retries >= 2 {
        Pow2Grows(retries - 2, retries - 1);
        MulMonotone(b, Pow2(retries - 2), p);
      }
      TotalBackoffIsGeometric(baseSeconds, retries - 1);
      BackoffIsExactIffItFits(baseSeconds, retries);
      Telescope(b, p);
    }
  }

  lemma MulMonotone(b: int, x: int, y: int)
    requires b >= 0 && x <= y
    ensures b * x <= b * y
  {
  }

  lemma Telescope(b: int, p: int)
    ensures b * (p - 1) + b * p == b * (2 * p - 1)
  {
  }
}
