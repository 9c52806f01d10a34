/** The two retry delays: the durable pool's, computed in 64-bit nanoseconds, and the webhook's. */
module Backoff {
  const SECOND: int := 1_000_000_000
  const MINUTE: int := 60 * SECOND
  const TWO_63: int := 0x8000_0000_0000_0000
  const TWO_64: int := 0x1_0000_0000_0000_0000

  function Min(a: int, b: int): (m: int)
    ensures m == a || m == b
    ensures m <= a && m <= b
  {
    if a < b then a else b
  }

  function Pow2(n: nat): (p: nat)
    ensures p >= 1
  {
    if n == 0 then 1 else 2 * Pow2(n - 1)
  }

  /** Two's complement reduction of a 64-bit product. */
  function WrapInt64(x: int): (r: int)
    ensures -TWO_63 <= r < TWO_63
    ensures (x - r) % TWO_64 == 0
    ensures -TWO_63 <= x < TWO_63 ==> r == x
  {
    (x + TWO_63) % TWO_64 - TWO_63
  }

  /** Go leaves the conversion of an out-of-range float64 to the machine: `unspecified` stands for what it yields. */
  function FloatToInt64(x: nat, unspecified: int): int {
    if x < TWO_63 then x else unspecified
  }

  /** The pool's delay after attempt number `attempt`, in nanoseconds. */
  function PoolBackoff(attempt: int, maxBackoff: int, unspecified: int): int {
    var a := if attempt <= 0 then 1 else attempt;
    var d := WrapInt64(FloatToInt64(Pow2(a - 1), unspecified) * SECOND);
    if d > maxBackoff then maxBackoff else d
  }

  /** What the delay is meant to be: exponential in the attempt, capped. */
  function IdealBackoff(attempt: int, maxBackoff: int): int {
    Min(Pow2(if attempt <= 0 then 0 else attempt - 1) * SECOND, maxBackoff)
  }

  lemma {:induction false} Pow2Monotone(m: nat, n: nat)
    requires m <= n
    ensures Pow2(m) <= Pow2(n)
    decreases n
  {
    if m < n {
      Pow2Monotone(m, n - 1);
    }
  }

  lemma {:induction false} Pow2At33()
    ensures Pow2(33) == 0x2_0000_0000
  {
    assert Pow2(8) == 256;
    assert Pow2(16) == 0x1_0000;
    assert Pow2(24) == 0x100_0000;
    assert Pow2(33) == 0x2_0000_0000;
  }

  /** Through attempt 34 the 64-bit product is the mathematical one: 2^(n-1) seconds, or the cap if that is less. */
  lemma PoolBackoffIsIdeal(attempt: int, maxBackoff: int, unspecified: int)
    requires attempt <= 34
    ensures PoolBackoff(attempt, maxBackoff, unspecified) == IdealBackoff(attempt, maxBackoff)
    ensures attempt >= 1 ==> IdealBackoff(attempt, maxBackoff) == Min(Pow2(attempt - 1) * 1_000_000_000, maxBackoff)
    ensures attempt <= 0 ==> IdealBackoff(attempt, maxBackoff) == Min(1_000_000_000, maxBackoff)
  {
    var e := if attempt <= 0 then 0 else attempt - 1;
    Pow2Monotone(e, 33);
    Pow2At33();
  }

  /**
   * What it comes to for every attempt: the product, or past attempt 63 that of what the conversion yields,
   * reduced to 64 bits, or the cap if that is less.
   */
  lemma PoolBackoffReduced(attempt: int, maxBackoff: int, unspecified: int) returns (d: int)
    requires attempt >= 1
    ensures -0x8000_0000_0000_0000 <= d < 0x8000_0000_0000_0000
    ensures attempt <= 63 ==> (Pow2(attempt - 1) * 1_000_000_000 - d) % 0x1_0000_0000_0000_0000 == 0
    ensures attempt >= 64 ==> (unspecified * 1_000_000_000 - d) % 0x1_0000_0000_0000_0000 == 0
    ensures PoolBackoff(attempt, maxBackoff, unspecified) == Min(d, maxBackoff)
  {
    Pow2At63();
    Pow2Monotone(if attempt <= 63 then attempt - 1 else 63, if attempt <= 63 then 62 else attempt - 1);
    d := WrapInt64(FloatToInt64(Pow2(attempt - 1), unspecified) * SECOND);
  }

  lemma Pow2At63()
    ensures Pow2(62) == TWO_63 / 2 && Pow2(63) == TWO_63
  {
    Pow2At33();
    assert Pow2(41) == 0x200_0000_0000;
    assert Pow2(49) == 0x2_0000_0000_0000;
    assert Pow2(57) == 0x200_0000_0000_0000;
    assert Pow2(62) == 0x4000_0000_0000_0000;
  }

  /** Attempt 35 is the first whose product does not fit: the delay comes out negative. */
  lemma PoolBackoffWraps(maxBackoff: int, unspecified: int)
    requires maxBackoff > 0
    ensures PoolBackoff(35, maxBackoff, unspecified) == -1266874889709551616 < 0
    ensures 0 < IdealBackoff(35, maxBackoff)
  {
    Pow2At33();
    assert Pow2(34) == 2 * Pow2(33);
  }

  /**
   * A Nack that leaves its row ready has an attempt number below the limit, so the limits up to 35
   * are exactly the ones under which every such delay is the intended one.
   */
  lemma PoolBackoffIdealIff(maxAttempts: nat, maxBackoff: int, unspecified: int)
    requires maxBackoff > 0
    ensures (forall n: nat :: 1 <= n < maxAttempts ==>
               PoolBackoff(n, maxBackoff, unspecified) == IdealBackoff(n, maxBackoff))
        <==> maxAttempts <= 35
  {
    if maxAttempts <= 35 {
      forall n: nat | 1 <= n < maxAttempts
        ensures PoolBackoff(n, maxBackoff, unspecified) == IdealBackoff(n, maxBackoff)
      {
        PoolBackoffIsIdeal(n, maxBackoff, unspecified);
      }
    } else {
      PoolBackoffWraps(maxBackoff, unspecified);
    }
  }

  lemma IdealBackoffMonotone(m: int, n: int, maxBackoff: int)
    requires m <= n
    ensures IdealBackoff(m, maxBackoff) <= IdealBackoff(n, maxBackoff)
  {
    Pow2Monotone(if m <= 0 then 0 else m - 1, if n <= 0 then 0 else n - 1);
  }

  /** The webhook delay: a shift by at most six, in minutes. */
  function WebhookBackoff(attempt: int): (d: int)
    ensures d >= MINUTE
  {
    var a := if attempt <= 0 then 1 else attempt;
    Pow2(Min(a - 1, 6)) * MINUTE
  }

  /** For every attempt number the webhook delay is min(2^(n-1), 64) minutes, and it never shrinks. */
  lemma WebhookBackoffIsCapped(attempt: int, next: int)
    requires 1 <= attempt <= next
    ensures WebhookBackoff(attempt) == Min(Pow2(attempt - 1), 64) * 60_000_000_000
    ensures WebhookBackoff(attempt) <= WebhookBackoff(next)
  {
    assert Pow2(6) == 64;
    if attempt - 1 >= 6 {
      Pow2Monotone(6, attempt - 1);
    } else {
      Pow2Monotone(attempt - 1, 6);
    }
    Pow2Monotone(Min(attempt - 1, 6), Min(next - 1, 6));
  }
}
