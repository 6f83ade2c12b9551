/** The delay before a reconnection attempt (backoff.go), without jitter. */
module Backoff {
  import opened Prelude

  const TWO53: int := 0x20_0000_0000_0000
  const TWO32: int := 0x1_0000_0000

  function Pow2(n: nat): (p: nat)
    ensures p > 0
  {
    if n == 0 then 1 else 2 * Pow2(n - 1)
  }

  /** The value of a 64-bit signed multiplication whose exact product is x. */
  function Wrap64(x: int): int {
    var low := x % TWO64;
    if low < TWO63 then low else low - TWO64
  }

  /** The distance between neighbouring float64 numbers around x. */
  function Ulp(x: nat): (u: nat)
    ensures u > 0
  {
    if x < TWO53 then 1 else 2 * Ulp(x / 2)
  }

  /** The float64 nearest to an integer, ties to even. */
  function Float(x: int): int {
    if x < 0 then -FloatNat(-x) else FloatNat(x)
  }

  function FloatNat(x: nat): int {
    var u := Ulp(x);
    var q, r := x / u, x % u;
    if 2 * r < u || (2 * r == u && q % 2 == 0) then q * u else (q + 1) * u
  }

  /** A float64 converted to int64; out of range, the value depends on the platform. */
  function ToInt64(x: int, platform: int): int {
    if -TWO63 <= x < TWO63 then x else platform
  }

  /** The values that the platforms give: the smallest integer on amd64, the largest on arm64. */
  predicate Platform(p: int) {
    p == -TWO63 || p == TWO63 - 1
  }

  /** duration, for n earlier attempts. */
  function Delay(min: int, max: int, n: nat, platform: int): int {
    var ms := Wrap64(min * ToInt64(Pow2(n), platform));
    if ms <= 0 then max
    else ToInt64(if Float(ms) <= Float(max) then Float(ms) else Float(max), platform)
  }

  class Backoff {
    const min: int
    const max: int
    var numAttempts: nat

    constructor (min: int, max: int)
      ensures this.min == min && this.max == max && numAttempts == 0
    {
      this.min, this.max, numAttempts := min, max, 0;
    }

    method Attempts() returns (n: nat)
      ensures n == numAttempts
    {
      n := numAttempts;
    }

    method Duration(platform: int) returns (delay: int)
      modifies this
      ensures delay == Delay(min, max, old(numAttempts), platform)
      ensures numAttempts == (old(numAttempts) + 1) % TWO32
    {
      var ms := Wrap64(min * ToInt64(Pow2(numAttempts), platform));
      numAttempts := (numAttempts + 1) % TWO32;
      if ms <= 0 {
        return max;
      }
      return ToInt64(if Float(ms) <= Float(max) then Float(ms) else Float(max), platform);
    }

    method Reset()
      modifies this
      ensures numAttempts == 0
    {
      numAttempts := 0;
    }
  }

  // ------------------------------------------------------------------------------------------
  // Powers of two
  // ------------------------------------------------------------------------------------------

  lemma {:induction false} Pow2Add(a: nat, b: nat)
    ensures Pow2(a + b) == Pow2(a) * Pow2(b)
  {
    if a > 0 {
      Pow2Add(a - 1, b);
    }
  }

  lemma {:induction false} Pow2Monotone(a: nat, b: nat)
    requires a <= b
    ensures Pow2(a) <= Pow2(b)
  {
    if a < b {
      Pow2Monotone(a, b - 1);
    }
  }

  lemma Pow2Values()
    ensures Pow2(8) == 0x100 && Pow2(16) == 0x1_0000 && Pow2(32) == TWO32
    ensures Pow2(62) * 2 == TWO63 && Pow2(63) == TWO63 && Pow2(64) == TWO64
  {
    assert Pow2(4) == 16;
    Pow2Add(4, 4);
    Pow2Add(8, 8);
    Pow2Add(16, 16);
    Pow2Add(32, 32);
  }

  /** Two powers that make up the 64 bits. */
  lemma Halves(n: nat)
    requires n <= 62
    ensures Pow2(n) * Pow2(64 - n) == TWO64 && Pow2(n) * Pow2(63 - n) == TWO63
    ensures Pow2(n) < TWO63
  {
    Pow2Values();
    Pow2Add(n, 64 - n);
    Pow2Add(n, 63 - n);
    Pow2Monotone(n, 62);
  }

  // ------------------------------------------------------------------------------------------
  // Rounding
  // ------------------------------------------------------------------------------------------

  lemma HalfTwice(x: nat, u: nat)
    requires u > 0
    ensures x / 2 / u == x / (2 * u)
  {
    var q := x / 2 / u;
    assert x / 2 == q * u + x / 2 % u;
    assert 2 * (x / 2 % u) + x % 2 < 2 * u;
    assert x == q * (2 * u) + (2 * (x / 2 % u) + x % 2);
    QuotientIs(x, 2 * u, q, 2 * (x / 2 % u) + x % 2);
  }

  lemma Scale(a: int, b: int, k: nat)
    ensures a <= b ==> a * k <= b * k
  {
  }

  lemma QuotientIs(x: nat, d: nat, q: nat, r: nat)
    requires d > 0 && r < d && x == q * d + r
    ensures x / d == q && x % d == r
  {
    var q', r' := x / d, x % d;
    assert q' * d + r' == q * d + r;
    Scale(q + 1, q', d);
    Scale(q' + 1, q, d);
  }

  /** Above 2^53 the significand keeps its 53 bits. */
  lemma {:induction false} Significand(x: nat)
    requires x >= TWO53
    ensures Ulp(x) >= 2 && x / Ulp(x) >= TWO53 / 2
  {
    if x / 2 >= TWO53 {
      Significand(x / 2);
    }
    HalfTwice(x, Ulp(x / 2));
  }

  lemma AtLeast(q: nat, u: nat)
    requires q >= TWO53 / 2 && u >= 2
    ensures q * u >= TWO53
  {
    Scale(TWO53 / 2, q, u);
    Scale(2, u, TWO53 / 2);
  }

  /** float64 is exact up to 2^53. */
  lemma FloatSmall(x: nat)
    requires x <= TWO53
    ensures Float(x) == x
  {
    if x == TWO53 {
      assert Ulp(x) == 2 * Ulp(TWO53 / 2) == 2;
    }
  }

  /** It never rounds down below it. */
  lemma FloatLarge(x: nat)
    requires x >= TWO53
    ensures Float(x) >= TWO53
  {
    Significand(x);
    AtLeast(x / Ulp(x), Ulp(x));
    AtLeast(x / Ulp(x) + 1, Ulp(x));
  }

  /** The smaller of the two float64 numbers is exact when the limit is. */
  lemma SmallerFloat(ms: nat, max: nat)
    requires max <= TWO53
    ensures (if Float(ms) <= Float(max) then Float(ms) else Float(max)) == (if ms <= max then ms else max)
  {
    FloatSmall(max);
    if ms <= TWO53 {
      FloatSmall(ms);
    } else {
      FloatLarge(ms);
    }
  }

  // ------------------------------------------------------------------------------------------
  // Saturation
  // ------------------------------------------------------------------------------------------

  /** What the delay is meant to be. */
  function Saturating(min: int, max: int, n: nat): int {
    if min * Pow2(n) <= max then min * Pow2(n) else max
  }

  /** Scaling both sides scales the remainder. */
  lemma ScaledRemainder(a: nat, m: nat, k: nat)
    requires m > 0 && k > 0
    ensures (a * k) % (m * k) == (a % m) * k
  {
    var q, r := a / m, a % m;
    assert a == q * m + r;
    Distribute(q, m, r, k);
    Scale(r + 1, m, k);
    QuotientIs(a * k, m * k, q, r * k);
  }

  lemma Distribute(q: int, m: int, r: int, k: int)
    ensures (q * m + r) * k == q * (m * k) + r * k
    ensures (r + 1) * k == r * k + k
  {
  }

  /** The bits of min that a shift by n keeps. */
  function Kept(min: nat, n: nat): nat
    requires n <= 62
  {
    min % Pow2(64 - n)
  }

  /** The delay is a short one although the exact product is long: bits of min were shifted out, low ones stayed. */
  predicate Lapses(min: nat, max: int, n: nat)
    requires n <= 62
  {
    min >= Pow2(63 - n) && 0 < Kept(min, n) * Pow2(n) < max
  }

  lemma WrappedProduct(min: nat, n: nat)
    requires n <= 62
    ensures (min * Pow2(n)) % TWO64 == Kept(min, n) * Pow2(n)
    ensures min * Pow2(n) < TWO63 <==> min < Pow2(63 - n)
  {
    Halves(n);
    ShiftOut(min, Pow2(n), Pow2(63 - n), Pow2(64 - n));
  }

  lemma ShiftOut(a: nat, k: nat, half: nat, all: nat)
    requires k > 0 && k * all == TWO64 && k * half == TWO63
    ensures all > 0 && (a * k) % TWO64 == (a % all) * k
    ensures a * k < TWO63 <==> a < half
  {
    ScaledRemainder(a, all, k);
    Scale(a + 1, half, k);
    Scale(half, a, k);
  }

  /** The delay up to 62 earlier attempts, whatever the platform. */
  lemma DelayIs(min: nat, max: nat, n: nat, platform: int)
    requires 0 < min < TWO63 && max <= TWO53 && n <= 62
    ensures var ms := Wrap64(min * Pow2(n));
            Delay(min, max, n, platform) == if 0 < ms <= max then ms else max
  {
    Halves(n);
    var ms := Wrap64(min * Pow2(n));
    if ms > 0 {
      SmallerFloat(ms, max);
    }
  }

  /**
   * Up to 62 earlier attempts, the 64-bit computation gives the saturating delay if and only if it does not lapse.
   */
  lemma SaturatesExactly(min: nat, max: nat, n: nat, platform: int)
    requires 0 < min < TWO63 && max <= TWO53 && n <= 62
    ensures Delay(min, max, n, platform) == Saturating(min, max, n) <==> !Lapses(min, max, n)
  {
    var product := min * Pow2(n);
    assert product > 0;
    DelayIs(min, max, n, platform);
    WrappedProduct(min, n);
    WrapSaturates(product, max);
  }

  lemma WrapSaturates(product: nat, max: nat)
    requires product > 0 && max <= TWO53
    ensures (if 0 < Wrap64(product) <= max then Wrap64(product) else max) == (if product <= max then product else max)
       <==> !(product >= TWO63 && 0 < product % TWO64 < max)
  {
  }

  /** A product of the two limits within 2^63 rules lapses out. */
  lemma NoLapse(min: nat, max: nat, n: nat)
    requires 0 < min && min * max <= TWO63 && n <= 62
    ensures !Lapses(min, max, n)
  {
    Halves(n);
    Scale(1, Kept(min, n), Pow2(n));
    LimitsTooLarge(min, max, Pow2(n), Pow2(63 - n));
  }

  lemma LimitsTooLarge(min: nat, max: nat, k: nat, half: nat)
    requires 0 < min && k * half == TWO63 && min * max <= TWO63
    ensures !(min >= half && k < max)
  {
    Scale(half, min, k);
    Scale(k + 1, max, min);
  }

  /** From 63 attempts on, both platforms wait for the limit. */
  lemma BeyondTheRange(min: nat, max: nat, n: nat, platform: int)
    requires 0 < min < TWO63 && max <= TWO53 && min * max <= TWO63
    requires n >= 63 && Platform(platform)
    ensures Delay(min, max, n, platform) == max == Saturating(min, max, n)
  {
    Pow2Values();
    Pow2Monotone(63, n);
    Scale(1, min, Pow2(n));
    var ms := Wrap64(min * platform);
    Overflowed(min, platform);
    SumOfLimits(min, max);
    if ms > 0 {
      SmallerFloat(ms, max);
    }
  }

  lemma SumOfLimits(min: nat, max: nat)
    requires 0 < min < TWO63 && max <= TWO53 && min * max <= TWO63
    ensures min + max <= TWO63
  {
    Scale(2, max, min);
  }

  lemma WrapIs(x: int, q: int, low: int)
    requires x == q * TWO64 + low && 0 <= low < TWO64
    ensures Wrap64(x) == if low < TWO63 then low else low - TWO64
  {
  }

  lemma OverflowedOnAmd64(min: nat)
    requires 0 < min < TWO63
    ensures Wrap64(min * -TWO63) <= 0
  {
    var h := min / 2;
    if min % 2 == 0 {
      WrapIs(min * -TWO63, -h, 0);
    } else {
      WrapIs(min * -TWO63, -h - 1, TWO63);
    }
  }

  lemma OverflowedOnArm64(min: nat)
    requires 0 < min < TWO63
    ensures Wrap64(min * (TWO63 - 1)) <= 0 || Wrap64(min * (TWO63 - 1)) == TWO63 - min
  {
    var h := min / 2;
    if min % 2 == 0 {
      WrapIs(min * (TWO63 - 1), h - 1, TWO64 - min);
    } else {
      WrapIs(min * (TWO63 - 1), h, TWO63 - min);
    }
  }

  lemma Overflowed(min: nat, platform: int)
    requires 0 < min < TWO63 && Platform(platform)
    ensures Wrap64(min * platform) <= 0 || Wrap64(min * platform) == TWO63 - min
  {
    OverflowedOnAmd64(min);
    OverflowedOnArm64(min);
  }

  /** Backoff is saturating despite overflow, for any number of attempts. */
  lemma BackoffSaturates(min: nat, max: nat, n: nat, platform: int)
    requires 0 < min < TWO63 && max <= TWO53 && min * max <= TWO63 && Platform(platform)
    ensures Delay(min, max, n, platform) == Saturating(min, max, n)
  {
    if n <= 62 {
      NoLapse(min, max, n);
      SaturatesExactly(min, max, n, platform);
    } else {
      BeyondTheRange(min, max, n, platform);
    }
  }

  /** So the delays never decrease. */
  lemma DelaysNeverDecrease(min: nat, max: nat, m: nat, n: nat, platform: int)
    requires 0 < min < TWO63 && max <= TWO53 && min * max <= TWO63 && Platform(platform)
    requires m <= n
    ensures Delay(min, max, m, platform) <= Delay(min, max, n, platform) <= max
  {
    BackoffSaturates(min, max, m, platform);
    BackoffSaturates(min, max, n, platform);
    Pow2Monotone(m, n);
    Scale(Pow2(m), Pow2(n), min);
  }

  const DEFAULT_DELAY: int := 1_000_000_000
  const DEFAULT_DELAY_MAX: int := 5_000_000_000

  /** With the default limits: one, two, four and then five seconds for ever. */
  lemma DefaultDelays(n: nat, platform: int)
    requires Platform(platform)
    ensures Delay(DEFAULT_DELAY, DEFAULT_DELAY_MAX, n, platform) ==
            if n < 3 then [1_000_000_000, 2_000_000_000, 4_000_000_000][n] else DEFAULT_DELAY_MAX
  {
    BackoffSaturates(DEFAULT_DELAY, DEFAULT_DELAY_MAX, n, platform);
    if n >= 3 {
      assert Pow2(3) == 8;
      Pow2Monotone(3, n);
    } else {
      assert Pow2(0) == 1 && Pow2(1) == 2 && Pow2(2) == 4;
    }
  }

  /** Without the bound on the product the delay can drop from 104 days to 17 milliseconds. */
  lemma DelayCanDrop(platform: int)
    ensures var min, max := 0x100_0000_0001, TWO53;
            Delay(min, max, 23, platform) == max && Delay(min, max, 24, platform) == 0x100_0000
  {
    Pow2Values();
    Pow2Add(16, 8);
    assert Pow2(24) == 2 * Pow2(23);
    DelayIs(0x100_0000_0001, TWO53, 23, platform);
    DelayIs(0x100_0000_0001, TWO53, 24, platform);
    WrapIs(0x100_0000_0001 * 0x80_0000, 0, 0x8000_0000_0080_0000);
    WrapIs(0x100_0000_0001 * 0x100_0000, 1, 0x100_0000);
  }
}
