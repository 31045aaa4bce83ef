/** The wrapping backoff shifts of internal/clock/backoff.go and internal/source/beaconapi/backoff.go. */
module Backoff {
  import opened Text
  import opened Domain

  const BACKOFF_BASE: Duration := 200_000_000
  const BACKOFF_CAP: Duration := 10_000_000_000
  const RECONNECT_BASE: Duration := 1_000_000_000
  const RECONNECT_CAP: Duration := 30_000_000_000

  const TWO43: nat := 0x800_0000_0000

  function Pow2(n: nat): (p: nat)
    ensures p > 0
  {
    if n == 0 then 1 else 2 * Pow2(n - 1)
  }

  /** The low 64 bits, read as two's complement. */
  function Signed64(x: int): Duration {
    var low := x % TWO64;
    if low > MAX_INT64 then low - TWO64 else low
  }

  /** An int64 shifted left. */
  function ShiftLeft(d: Duration, attempt: nat): Duration {
    Signed64(d * Pow2(attempt))
  }

  /** backoffCeiling and reconnectCeiling, for a base and a cap. */
  function Ceiling(base: Duration, cap: Duration, attempt: nat): Duration {
    var d := ShiftLeft(base, attempt);
    if d <= 0 || d > cap then cap else d
  }

  function Min(a: int, b: int): int {
    if a < b then a else b
  }

  lemma {:induction false} Pow2Splits(m: nat, n: nat)
    ensures Pow2(m + n) == Pow2(m) * Pow2(n)
  {
    if m > 0 {
      Pow2Splits(m - 1, n);
    }
  }

  lemma {:induction false} Pow2Grows(m: nat, n: nat)
    requires m <= n
    ensures Pow2(m) <= Pow2(n)
  {
    if m < n { Pow2Grows(m, n - 1); }
  }

  lemma Pow2Values()
    ensures Pow2(33) == 0x2_0000_0000 && Pow2(34) == 0x4_0000_0000
  {
    assert Pow2(4) == 16 && Pow2(8) == 16 * Pow2(4) && Pow2(12) == 16 * Pow2(8) && Pow2(16) == 16 * Pow2(12);
    Pow2Splits(16, 16);
  }

  predicate Sized(base: Duration, cap: Duration) {
    0 < base < 0x4000_0000 && base % 512 == 0 && 0 < cap < TWO43
  }

  lemma ProductBound(a: nat, b: nat, c: nat, d: nat)
    requires a <= c && b <= d
    ensures a * b <= c * d
  {
    assert a * b <= c * b;
    assert c * b <= c * d;
  }

  lemma NoWrapBelow34(base: Duration, attempt: nat)
    requires 0 < base < 0x4000_0000 && attempt <= 33
    ensures ShiftLeft(base, attempt) == base * Pow2(attempt) > 0
  {
    Pow2Grows(attempt, 33);
    Pow2Values();
    ProductBound(base, Pow2(attempt), 0x3fff_ffff, 0x2_0000_0000);
    ProductBound(1, 1, base, Pow2(attempt));
  }

  lemma Regroup(k: int, p: int)
    ensures 512 * k * (0x4_0000_0000 * p) == k * p * TWO43
  {
  }

  lemma ProductFrom34(base: Duration, attempt: nat) returns (n: nat)
    requires 0 < base && base % 512 == 0 && attempt >= 34
    ensures n >= 1 && base * Pow2(attempt) == n * TWO43
  {
    Pow2Splits(34, attempt - 34);
    Pow2Values();
    var k, p := base / 512, Pow2(attempt - 34);
    assert base == 512 * k;
    Regroup(k, p);
    ProductBound(1, 1, k, p);
    n := k * p;
  }

  lemma WrappedFrom34(base: Duration, cap: Duration, attempt: nat)
    requires Sized(base, cap) && attempt >= 34
    ensures base * Pow2(attempt) >= TWO43
    ensures ShiftLeft(base, attempt) <= 0 || ShiftLeft(base, attempt) > cap
  {
    var n := ProductFrom34(base, attempt);
  }

  /** For every attempt, wrapped or not, the sign-and-cap test gives min(base * 2^attempt, cap): no
      overflowed value slips under the cap. */
  lemma CeilingIsMin(base: Duration, cap: Duration, attempt: nat)
    requires Sized(base, cap)
    ensures Ceiling(base, cap, attempt) == Min(base * Pow2(attempt), cap)
  {
    if attempt <= 33 {
      NoWrapBelow34(base, attempt);
    } else {
      WrappedFrom34(base, cap, attempt);
    }
  }

  /** Both backoffs, exactly. */
  lemma BothCeilings(attempt: nat)
    ensures Ceiling(BACKOFF_BASE, BACKOFF_CAP, attempt) == Min(BACKOFF_BASE * Pow2(attempt), BACKOFF_CAP)
    ensures Ceiling(RECONNECT_BASE, RECONNECT_CAP, attempt) == Min(RECONNECT_BASE * Pow2(attempt), RECONNECT_CAP)
  {
    CeilingIsMin(BACKOFF_BASE, BACKOFF_CAP, attempt);
    CeilingIsMin(RECONNECT_BASE, RECONNECT_CAP, attempt);
  }

  /** The ceiling never decreases from one attempt to a later one. */
  lemma CeilingNeverDecreases(base: Duration, cap: Duration, early: nat, late: nat)
    requires Sized(base, cap) && early <= late
    ensures 0 < Ceiling(base, cap, early) <= Ceiling(base, cap, late) <= cap
  {
    CeilingIsMin(base, cap, early);
    CeilingIsMin(base, cap, late);
    Pow2Grows(early, late);
    ProductBound(base, Pow2(early), base, Pow2(late));
    ProductBound(1, 1, base, Pow2(early));
  }
}
