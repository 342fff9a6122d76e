/**
 The retry delay as the worker computes it, in wrapping 64-bit nanoseconds, and
 the millisecond timestamps the queue stores.
 */
module Backoff {
  const TWO_63: int := 0x8000_0000_0000_0000
  const TWO_64: int := 0x1_0000_0000_0000_0000
  const NANOS_PER_MILLI: int := 1_000_000

  predicate InInt64(x: int) {
    -TWO_63 <= x < TWO_63
  }

  function Wrap64(x: int): (r: int)
    ensures InInt64(r)
    ensures InInt64(x) ==> r == x
  {
    (x + TWO_63) % TWO_64 - TWO_63
  }

  function Pow2(n: nat): (r: int)
    ensures r >= 1
  {
    if n == 0 then 1 else 2 * Pow2(n - 1)
  }

  /** `1 << k` on a 64-bit signed integer. */
  function ShiftOne(k: nat): int {
    if k >= 64 then 0 else Wrap64(Pow2(k))
  }

  /** The delay after failed attempt number `attempt`, as computed. */
  function Delay(base: int, attempt: int): (r: int)
    requires attempt >= 1
    ensures InInt64(r)
  {
    Wrap64(base * ShiftOne(attempt - 1))
  }

  lemma ModMultiple(y: int, k: int, m: int)
    requires m > 0
    ensures (y + k * m) % m == y % m
  {
    var q, r := y / m, y % m;
    assert y + k * m == (q + k) * m + r;
    QuotientUnique(y + k * m, q + k, r, m);
  }

  lemma QuotientUnique(x: int, q: int, r: int, m: int)
    requires m > 0 && 0 <= r < m && x == q * m + r
    ensures x % m == r
  {
    var d := x / m - q;
    assert d * m == r - x % m;
    assert d >= 1 ==> d * m >= m;
    assert d <= -1 ==> d * m <= -m;
  }

  lemma WrapMultiple(y: int, k: int)
    ensures Wrap64(y + k * TWO_64) == Wrap64(y)
  {
    ModMultiple(y + TWO_63, k, TWO_64);
  }

  lemma WrapIsCongruent(x: int) returns (k: int)
    ensures Wrap64(x) == x + k * TWO_64
  {
    k := -((x + TWO_63) / TWO_64);
  }

  lemma {:induction false} PowSplit(m: nat, n: nat)
    ensures Pow2(m + n) == Pow2(m) * Pow2(n)
  {
    if m > 0 {
      PowSplit(m - 1, n);
    }
  }

  lemma PowMonotone(m: nat, n: nat)
    requires m <= n
    ensures Pow2(m) <= Pow2(n)
  {
    PowSplit(m, n - m);
    assert Pow2(m) * Pow2(n - m) >= Pow2(m) * 1;
  }

  lemma Pow64()
    ensures Pow2(64) == TWO_64
  {
    assert Pow2(8) == 0x100;
    PowSplit(8, 8);
    PowSplit(16, 16);
    PowSplit(32, 32);
  }

  /** Shift, truncation and product together are one wrap of the exact power. */
  lemma DelayIsWrapped(base: int, attempt: int)
    requires attempt >= 1
    ensures Delay(base, attempt) == Wrap64(base * Pow2(attempt - 1))
  {
    var e := attempt - 1;
    if e >= 64 {
      PowPast64(base, e);
      WrapMultiple(0, base * Pow2(e - 64));
    } else {
      var k := WrapIsCongruent(Pow2(e));
      Distribute(base, Pow2(e), k, TWO_64);
      WrapMultiple(base * Pow2(e), base * k);
    }
  }

  lemma PowPast64(base: int, e: nat)
    requires e >= 64
    ensures base * Pow2(e) == 0 + (base * Pow2(e - 64)) * TWO_64
  {
    Pow64();
    PowSplit(e - 64, 64);
    assert base * (Pow2(e - 64) * TWO_64) == (base * Pow2(e - 64)) * TWO_64;
  }

  lemma Distribute(a: int, b: int, k: int, m: int)
    ensures a * (b + k * m) == a * b + (a * k) * m
  {
    assert a * (k * m) == (a * k) * m;
  }

  /** The delay is base * 2^(attempt-1) exactly when that fits in 64 bits. */
  lemma DelayExact(base: int, attempt: int)
    requires attempt >= 1
    ensures Delay(base, attempt) == base * Pow2(attempt - 1) <==> InInt64(base * Pow2(attempt - 1))
  {
    DelayIsWrapped(base, attempt);
  }

  /** The delay after the last attempt that is retried, the longest one used, fits in 64 bits. */
  predicate LongestFits(base: int, maxRetries: int) {
    maxRetries >= 2 ==> InInt64(base * Pow2(maxRetries - 2))
  }

  /** What a caller can check of the settings: delays are non-negative and the longest one fits. */
  predicate NoWrap(base: int, maxRetries: int) {
    base >= 0 && LongestFits(base, maxRetries)
  }

  /** Shorter delays lie between zero and the longest one, whatever the sign of the base. */
  lemma ShorterFits(base: int, k: nat, n: nat)
    requires k <= n && InInt64(base * Pow2(n))
    ensures InInt64(base * Pow2(k))
  {
    PowMonotone(k, n);
    Between(base, Pow2(k), Pow2(n));
  }

  lemma Between(x: int, p: int, q: int)
    requires 0 <= p <= q
    ensures if x >= 0 then 0 <= x * p <= x * q else 0 >= x * p >= x * q
  {
    assert x * q == x * p + x * (q - p);
  }

  lemma DelayWithin(base: int, attempt: int, maxRetries: int)
    requires NoWrap(base, maxRetries) && 1 <= attempt < maxRetries
    ensures Delay(base, attempt) == base * Pow2(attempt - 1) >= 0
  {
    ShorterFits(base, attempt - 1, maxRetries - 2);
    Between(base, 0, Pow2(attempt - 1));
    DelayExact(base, attempt);
  }

  /** Every delay that can be used is exact if and only if the longest one fits, negative bases included. */
  lemma DelaysExact(base: int, maxRetries: int)
    ensures LongestFits(base, maxRetries) <==>
      forall attempt :: 1 <= attempt < maxRetries ==> Delay(base, attempt) == base * Pow2(attempt - 1)
  {
    if LongestFits(base, maxRetries) {
      forall attempt | 1 <= attempt < maxRetries
        ensures Delay(base, attempt) == base * Pow2(attempt - 1)
      {
        ShorterFits(base, attempt - 1, maxRetries - 2);
        DelayExact(base, attempt);
      }
    } else {
      DelayExact(base, maxRetries - 1);
    }
  }

  /** The default 10 s base wraps at attempt 31: the next attempt is put in the past. */
  lemma DefaultBaseWraps()
    ensures Delay(10_000_000_000, 30) == 10_000_000_000 * Pow2(29) > 0
    ensures Delay(10_000_000_000, 31) < 0
  {
    assert Pow2(15) == 0x8000;
    PowSplit(15, 15);
    PowSplit(15, 14);
    DelayExact(10_000_000_000, 30);
    DelayIsWrapped(10_000_000_000, 31);
  }

  /** Milliseconds since the epoch, rounded down. */
  function Millis(nanos: int): int {
    nanos / NANOS_PER_MILLI
  }

  /** Whole milliseconds passed: a million nanoseconds each, the rest dropped, before the epoch too. */
  lemma MillisFloor(nanos: int)
    ensures 1_000_000 * Millis(nanos) <= nanos < 1_000_000 * (Millis(nanos) + 1)
  {
  }

  lemma MillisMonotone(a: int, b: int)
    requires a <= b
    ensures Millis(a) <= Millis(b)
  {
  }

  /** Whole milliseconds survive truncation. */
  lemma MillisAdds(nanos: int, millis: int)
    ensures Millis(nanos + millis * NANOS_PER_MILLI) == Millis(nanos) + millis
  {
    var q, r := nanos / NANOS_PER_MILLI, nanos % NANOS_PER_MILLI;
    assert nanos + millis * NANOS_PER_MILLI == (q + millis) * NANOS_PER_MILLI + r;
  }
}
