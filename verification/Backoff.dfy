/**
 Exponential backoff between attempts of a failed operation, in int64 arithmetic.
 Durations are nanoseconds.
 */
module Backoff {
  const TWO_TO_THE_63 := 0x8000_0000_0000_0000
  const TWO_TO_THE_64 := 0x1_0000_0000_0000_0000

  /** The int64 value that a mathematical integer wraps around to. */
  function ToInt64(x: int): (w: int)
    ensures -TWO_TO_THE_63 <= w < TWO_TO_THE_63
    ensures (w - x) % TWO_TO_THE_64 == 0
  {
    var m := x % TWO_TO_THE_64;
    if m < TWO_TO_THE_63 then m else m - TWO_TO_THE_64
  }

  function Pow2(n: nat): (p: nat)
    ensures p >= 1
  {
    if n == 0 then 1 else 2 * Pow2(n - 1)
  }

  /** The delay after the given number of failed attempts: `interval * (1 << (attempts - 1))`. Counters
      of failed attempts are at least 1. */
  function Delay(interval: int, attempts: int): int {
    ToInt64(interval * ToInt64(Pow2(if attempts >= 1 then attempts - 1 else 0)))
  }

  lemma ToInt64Identity(x: int)
    ensures ToInt64(x) == x <==> -TWO_TO_THE_63 <= x < TWO_TO_THE_63
  {
  }

  /** Wrapping the shift before the product changes nothing: only the product matters. */
  lemma ToInt64Product(interval: int, p: int)
    ensures ToInt64(interval * ToInt64(p)) == ToInt64(interval * p)
  {
    var k := (ToInt64(p) - p) / TWO_TO_THE_64;
    assert ToInt64(p) == p + k * TWO_TO_THE_64;
    assert interval * ToInt64(p) == interval * p + (interval * k) * TWO_TO_THE_64 by {
      assert interval * (p + k * TWO_TO_THE_64) == interval * p + (interval * k) * TWO_TO_THE_64;
    }
    ModAdd(interval * p, interval * k);
  }

  lemma ModAdd(x: int, k: int)
    ensures (x + k * TWO_TO_THE_64) % TWO_TO_THE_64 == x % TWO_TO_THE_64
  {
  }

  lemma {:induction false} Pow2Monotone(m: nat, n: nat)
    requires m <= n
    ensures Pow2(m) <= Pow2(n)
  {
    if m < n {
      Pow2Monotone(m, n - 1);
    }
  }

  /** The delays of consecutive failures below the maximum, first to last. */
  function Delays(interval: int, maxAttempts: int): (ds: seq<int>)
    ensures |ds| == if maxAttempts >= 1 then maxAttempts - 1 else 0
    ensures forall k :: 0 <= k < |ds| ==> ds[k] == Delay(interval, k + 1)
  {
    seq(if maxAttempts >= 1 then maxAttempts - 1 else 0, k requires k >= 0 => Delay(interval, k + 1))
  }

  function Sum(xs: seq<int>): int {
    if xs == [] then 0 else Sum(xs[..|xs| - 1]) + xs[|xs| - 1]
  }

  lemma DelayIsWrapped(interval: int, attempts: int)
    requires attempts >= 1
    ensures Delay(interval, attempts) == ToInt64(interval * Pow2(attempts - 1))
  {
    ToInt64Product(interval, Pow2(attempts - 1));
  }

  /** One delay is exact exactly if it fits. */
  lemma DelayExactIff(interval: nat, attempts: int)
    requires attempts >= 1
    ensures Delay(interval, attempts) == interval * Pow2(attempts - 1)
      <==> interval * Pow2(attempts - 1) < TWO_TO_THE_63
  {
    DelayIsWrapped(interval, attempts);
    MulMonotone(interval, 0, Pow2(attempts - 1));
    ToInt64Identity(interval * Pow2(attempts - 1));
  }

  /** No delay below the maximum overflows exactly if the last one does not. */
  lemma NoOverflowIff(interval: nat, maxAttempts: int)
    requires maxAttempts >= 2
    ensures (forall k :: 1 <= k < maxAttempts ==> Delay(interval, k) == interval * Pow2(k - 1))
        <==> interval * Pow2(maxAttempts - 2) < TWO_TO_THE_63
  {
    DelayExactIff(interval, maxAttempts - 1);
    forall k | 1 <= k < maxAttempts
      ensures interval * Pow2(k - 1) <= interval * Pow2(maxAttempts - 2)
      ensures Delay(interval, k) == interval * Pow2(k - 1) <==> interval * Pow2(k - 1) < TWO_TO_THE_63
    {
      Pow2Monotone(k - 1, maxAttempts - 2);
      MulMonotone(interval, Pow2(k - 1), Pow2(maxAttempts - 2));
      DelayExactIff(interval, k);
    }
  }

  lemma MulMonotone(a: nat, x: nat, y: nat)
    requires x <= y
    ensures a * x <= a * y
  {
  }

  lemma DelayExact(interval: nat, maxAttempts: int, attempts: int)
    requires 1 <= attempts < maxAttempts
    requires interval * Pow2(maxAttempts - 2) < TWO_TO_THE_63
    ensures Delay(interval, attempts) == interval * Pow2(attempts - 1) < TWO_TO_THE_63
  {
    Pow2Monotone(attempts - 1, maxAttempts - 2);
    MulMonotone(interval, Pow2(attempts - 1), Pow2(maxAttempts - 2));
    DelayExactIff(interval, attempts);
  }

  lemma SumStep(interval: int, n: nat)
    ensures interval * (Pow2(n) - 1) + interval * Pow2(n) == interval * (Pow2(n + 1) - 1)
  {
    var p := Pow2(n);
    assert interval * (p - 1) + interval * p == interval * (2 * p - 1);
  }

  lemma OneMoreDelay(interval: int, maxAttempts: int)
    requires maxAttempts >= 1
    ensures Sum(Delays(interval, maxAttempts + 1)) == Sum(Delays(interval, maxAttempts)) + Delay(interval, maxAttempts)
  {
    assert Delays(interval, maxAttempts + 1)[..maxAttempts - 1] == Delays(interval, maxAttempts);
  }

  /** Without overflow the delays are I, 2I, 4I, ... and add up to I * (2^(M-1) - 1). */
  lemma {:induction false} DelaysSum(interval: nat, maxAttempts: int)
    requires maxAttempts >= 1
    requires maxAttempts >= 2 ==> interval * Pow2(maxAttempts - 2) < TWO_TO_THE_63
    ensures Sum(Delays(interval, maxAttempts)) == interval * (Pow2(maxAttempts - 1) - 1)
  {
    if maxAttempts == 1 {
      assert Pow2(0) - 1 == 0;
    } else {
      var last := maxAttempts - 1;
      OneMoreDelay(interval, last);
      DelayExact(interval, maxAttempts, last);
      StillFits(interval, last);
      DelaysSum(interval, last);
      SumStep(interval, last - 1);
    }
  }

  lemma StillFits(interval: nat, maxAttempts: int)
    requires maxAttempts >= 1 && interval * Pow2(maxAttempts - 1) < TWO_TO_THE_63
    ensures maxAttempts >= 2 ==> interval * Pow2(maxAttempts - 2) < TWO_TO_THE_63
  {
    if maxAttempts >= 2 {
      MulMonotone(interval, Pow2(maxAttempts - 2), Pow2(maxAttempts - 1));
    }
  }
}
