/** Resource values in units of a divisor (pkg/fieldpath): the ceiling of a double-precision quotient. Doubles are
    the reals that IEEE 754 can represent, and an operation yields one nearest to its exact result. */
module Fieldpath {

  const PRECISION: nat := 0x20_0000_0000_0000  // 2^53

  function Pow2(e: int): (p: real)
    ensures p > 0.0
    decreases if e < 0 then -e else e
  {
    if e == 0 then 1.0 else if e > 0 then 2.0 * Pow2(e - 1) else Pow2(e + 1) / 2.0
  }

  /** A non-negative finite double: a 53-bit significand, scaled. */
  ghost predicate IsDouble(x: real) {
    exists m: nat, e: int :: Scaled(x, m, e)
  }

  predicate Scaled(x: real, m: nat, e: int) {
    m < PRECISION && -1074 <= e <= 971 && x == m as real * Pow2(e)
  }

  function Distance(x: real, y: real): real { if x < y then y - x else x - y }

  /** Round to nearest, whichever way ties go. */
  ghost predicate IsRounded(exact: real, r: real) {
    IsDouble(r) && forall s :: IsDouble(s) ==> Distance(exact, r) <= Distance(exact, s)
  }

  function Ceil(x: real): int { -(-x).Floor }

  function CeilDiv(a: nat, b: nat): int
    requires b > 0
  {
    (a + b - 1) / b
  }

  lemma IntegersAreDoubles(n: nat)
    requires n <= PRECISION
    ensures IsDouble(n as real)
  {
    if n < PRECISION {
      assert Scaled(n as real, n, 0);
    } else {
      assert Pow2(1) == 2.0;
      assert Scaled(n as real, PRECISION / 2, 1);
    }
  }

  lemma DoublesRoundToThemselves(x: real, r: real)
    requires IsDouble(x) && IsRounded(x, r)
    ensures r == x
  {
    assert Distance(x, r) <= Distance(x, x);
  }

  lemma {:induction false} Pow2Negative(t: nat)
    ensures Pow2(t) * Pow2(0 - t) == 1.0
  {
    if t > 0 {
      Pow2Negative(t - 1);
      assert Pow2(t) == 2.0 * Pow2(t - 1) && Pow2(0 - t) == Pow2(1 - t) / 2.0;
    }
  }

  function IntPow2(t: nat): (p: nat)
    ensures p >= 1
  {
    if t == 0 then 1 else 2 * IntPow2(t - 1)
  }

  lemma {:induction false} IntPow2IsPow2(t: nat)
    ensures IntPow2(t) as real == Pow2(t)
  {
    if t > 0 {
      IntPow2IsPow2(t - 1);
    }
  }

  /** The last doubling of `k` that still fits the significand. */
  lemma {:induction false} Normalize(k: nat, done: nat) returns (t: nat)
    requires 0 < k && k * IntPow2(done) < PRECISION
    ensures k * IntPow2(t) < PRECISION <= k * IntPow2(t + 1)
    decreases PRECISION - k * IntPow2(done)
  {
    assert IntPow2(done + 1) == 2 * IntPow2(done);
    assert k * IntPow2(done + 1) == 2 * (k * IntPow2(done));
    if PRECISION <= k * IntPow2(done + 1) {
      t := done;
    } else {
      assert IntPow2(done) >= 1 && k * IntPow2(done) > 0;
      t := Normalize(k, done + 1);
    }
  }

  lemma {:induction false} IntPow2Grows(s: nat, t: nat)
    requires s <= t
    ensures IntPow2(s) <= IntPow2(t)
  {
    if s < t {
      IntPow2Grows(s, t - 1);
    }
  }

  lemma MulGrows(k: nat, p: nat)
    requires 0 < k
    ensures p <= k * p
  {
  }

  lemma SmallPowers()
    ensures IntPow2(3) == 8 && IntPow2(5) == 32
  {
    assert IntPow2(1) == 2 && IntPow2(2) == 4;
    assert IntPow2(4) == 16;
  }

  lemma SignificandBits()
    ensures IntPow2(53) == PRECISION
  {
    SmallPowers();
    hide IntPow2;
    IntPow2Add(3, 3);
    IntPow2Add(6, 6);
    IntPow2Add(12, 12);
    IntPow2Add(24, 24);
    IntPow2Add(48, 5);
  }

  lemma {:induction false} IntPow2Add(s: nat, t: nat)
    ensures IntPow2(s + t) == IntPow2(s) * IntPow2(t)
  {
    if t > 0 {
      IntPow2Add(s, t - 1);
    }
  }

  lemma FewDoublings(k: nat, t: nat)
    requires 0 < k && k * IntPow2(t) < PRECISION
    ensures t < 53
  {
    SignificandBits();
    hide PRECISION, IntPow2;
    MulGrows(k, IntPow2(t));
    if t >= 53 {
      IntPow2Grows(53, t);
    }
  }

  lemma Unscale(k: real, up: real, down: real)
    requires up * down == 1.0
    ensures (k * up + 1.0) * down == k + down
  {
    assert (k * up) * down == k * (up * down);
  }

  lemma Pow2Down(t: nat)
    ensures Pow2(1 - t) == 2.0 * Pow2(0 - t)
  {
    if t == 0 {
      assert Pow2(1) == 2.0 * Pow2(0);
    } else {
      assert Pow2(0 - t) == Pow2(1 - t) / 2.0;
    }
  }

  lemma ScaledProduct(k: nat, t: nat)
    ensures (k * IntPow2(t)) as real == k as real * Pow2(t)
  {
    IntPow2IsPow2(t);
    hide IntPow2, Pow2;
  }

  /** One step of the last place above `k`. */
  lemma NextDouble(k: nat, t: nat)
    requires t < 53 && k * IntPow2(t) < PRECISION
    ensures IsDouble(k as real + Pow2(0 - t))
  {
    hide Pow2, IntPow2;
    var m := k * IntPow2(t) + 1;
    var x := k as real + Pow2(0 - t);
    Pow2Negative(t);
    ScaledProduct(k, t);
    Unscale(k as real, Pow2(t), Pow2(0 - t));
    assert x == m as real * Pow2(0 - t);
    if m < PRECISION {
      assert Scaled(x, m, 0 - t);
    } else {
      Pow2Down(t);
      assert m == PRECISION;
      assert Scaled(x, PRECISION / 2, 1 - t);
    }
  }

  lemma MulMonotone(x: int, y: int, k: nat)
    requires x <= y
    ensures x * k <= y * k
  {
  }

  lemma CancelFactor(b: nat, p: nat, k: nat)
    requires b * k < p * k
    ensures b < p
  {
    if p <= b {
      MulMonotone(p, b, k);
    }
  }

  lemma RealMulMonotone(d: real, x: real, y: real)
    requires d > 0.0 && x < y
    ensures d * x < d * y
  {
  }

  lemma Commute(down: real, up: real)
    requires up * down == 1.0
    ensures down * (2.0 * up) == 2.0
  {
    assert down * (2.0 * up) == 2.0 * (up * down);
  }

  /** A product, to be hidden where its value is not needed. */
  function Times(x: real, y: real): real { x * y }

  lemma BelowTwice(b: real, up: real, down: real)
    requires up * down == 1.0 && down > 0.0 && b < 2.0 * up
    ensures Times(down, b) < 2.0
  {
    calc {
      down * b;
    < { RealMulMonotone(down, b, 2.0 * up); }
      down * (2.0 * up);
    == { Commute(down, up); }
      2.0;
    }
  }

  /** Some double lies above `k` by less than twice the step of the quotient's own grid. */
  lemma DoubleJustAbove(a: nat, b: nat, k: nat) returns (s: real)
    requires a <= PRECISION && 0 < b < PRECISION && b * k < a
    ensures IsDouble(s) && s > k as real && Times(s - k as real, b as real) < 2.0
  {
    var n := Normalize(if k == 0 then 1 else k, 0);
    var t: int := n;
    FewDoublings(if k == 0 then 1 else k, t);
    hide Pow2, IntPow2, IsDouble, Times;
    NextDouble(k, t);
    s := k as real + Pow2(0 - t);
    if k > 0 {
      CancelFactor(b, IntPow2(t + 1), k);
    }
    StepIsSmall(b, t);
    assert s - k as real == Pow2(0 - t);
  }

  lemma StepIsSmall(b: nat, t: nat)
    requires b < IntPow2(t + 1)
    ensures Times(Pow2(0 - t), b as real) < 2.0
  {
    assert IntPow2(t + 1) == 2 * IntPow2(t);
    hide Pow2, IntPow2, Times;
    Pow2Negative(t);
    IntPow2IsPow2(t);
    BelowTwice(b as real, Pow2(t), Pow2(0 - t));
  }

  lemma CloserThanBelow(q: real, k: real, s: real, b: real)
    requires b > 0.0 && Times(q - k, b) >= 1.0 && Times(s - k, b) < 2.0
    ensures s - q < q - k
  {
    assert (2.0 * (q - k) - (s - k)) * b > 0.0;
  }

  /** A rounded quotient stays in the same unit interval, open below and closed above. */
  lemma RoundingKeepsTheInterval(a: nat, b: nat, k: nat, r: real)
    requires a <= PRECISION && 0 < b < PRECISION && b * k < a <= b * (k + 1)
    requires IsRounded(a as real / b as real, r)
    ensures k as real < r <= k as real + 1.0
  {
    hide IsDouble, Times;
    var q := a as real / b as real;
    QuotientBounds(a, b, k);
    MulGrows(b, k);
    IntegersAreDoubles(k + 1);
    assert (k + 1) as real == k as real + 1.0;
    assert Distance(q, r) <= Distance(q, k as real + 1.0);
    var s := DoubleJustAbove(a, b, k);
    assert Distance(q, r) <= Distance(q, s);
    CloserThanBelow(q, k as real, s, b as real);
  }

  lemma PositiveFactor(x: real, b: real)
    requires b > 0.0
    ensures x * b >= 1.0 ==> x > 0.0
    ensures x * b >= 0.0 ==> x >= 0.0
  {
  }

  lemma QuotientBounds(a: nat, b: nat, k: nat)
    requires 0 < b && b * k < a <= b * (k + 1)
    ensures k as real < a as real / b as real <= k as real + 1.0
    ensures Times(a as real / b as real - k as real, b as real) >= 1.0
  {
    var q := a as real / b as real;
    assert q * b as real == a as real;
    assert (b * k) as real == b as real * k as real;
    assert b * (k + 1) == b * k + b;
    assert (q - k as real) * b as real == a as real - (b * k) as real;
    PositiveFactor(q - k as real, b as real);
    assert (k as real + 1.0 - q) * b as real == (b * k) as real + b as real - a as real;
    PositiveFactor(k as real + 1.0 - q, b as real);
  }

  lemma CeilFromInterval(k: int, r: real)
    requires k as real < r <= k as real + 1.0
    ensures Ceil(r) == k + 1
  {
  }

  lemma QuotientIsUnique(x: nat, b: nat, q: nat, rest: nat)
    requires rest < b && x == b * q + rest
    ensures x / b == q
  {
    var d: int := q - x / b;
    assert d * b == x % b - rest;
    if d >= 1 {
      MulMonotone(1, d, b);
    }
    if d <= -1 {
      MulMonotone(d, -1, b);
    }
  }

  lemma CeilDivInterval(a: nat, b: nat) returns (k: nat)
    requires 0 < a && 0 < b
    ensures b * k < a <= b * (k + 1) && CeilDiv(a, b) == k + 1
  {
    k := (a - 1) / b;
    var rest := (a - 1) % b;
    assert a - 1 == b * k + rest;
    assert b * (k + 1) == b * k + b;
    QuotientIsUnique(a + b - 1, b, k + 1, rest);
  }

  // ---- Divisors that a double cannot hold exactly ----

  lemma RoundedStaysAbove(x: real, r: real, bound: real)
    requires IsRounded(x, r) && IsDouble(bound) && bound <= x
    ensures bound <= r
  {
    hide IsDouble;
    assert Distance(x, r) <= Distance(x, bound);
  }

  lemma RoundedStaysBelow(x: real, r: real, bound: real)
    requires IsRounded(x, r) && IsDouble(bound) && x <= bound
    ensures r <= bound
  {
    hide IsDouble;
    assert Distance(x, r) <= Distance(x, bound);
  }

  /** A power of two, itself a double, that lies below the inverse of a large double. */
  lemma SmallDouble(fb: real) returns (s: real)
    requires IsDouble(fb) && fb >= PRECISION as real
    ensures IsDouble(s) && s > 0.0 && Times(s, fb) < 1.0
  {
    var m: nat, e: int :| Scaled(fb, m, e);
    if e <= 0 {
      Pow2AtMostOne(e);
      hide Pow2;
      RealMulAtMost(m as real, Pow2(e));
    }
    hide Pow2, IntPow2;
    var t := e + 53;
    s := Pow2(0 - t);
    assert Scaled(s, 1, 0 - t);
    BelowNextPower(m, e);
    Pow2Negative(t);
    InverseBelowOne(fb, Pow2(t), s);
  }

  lemma BelowNextPower(m: nat, e: nat)
    requires m < PRECISION
    ensures m as real * Pow2(e) < Pow2(e + 53)
  {
    SignificandBits();
    IntPow2IsPow2(e + 53);
    IntPow2IsPow2(e);
    IntPow2Add(e, 53);
    hide IntPow2, Pow2, PRECISION;
    ScaledBelow(m as real, IntPow2(53) as real, Pow2(e));
  }

  lemma ScaledBelow(m: real, n: real, p: real)
    requires m < n && p > 0.0
    ensures m * p < p * n
  {
    RealMulMonotone(p, m, n);
    assert m * p == p * m;
  }

  lemma InverseBelowOne(x: real, up: real, down: real)
    requires up * down == 1.0 && down > 0.0 && x < up
    ensures Times(down, x) < 1.0
  {
    calc {
      down * x;
    < { RealMulMonotone(down, x, up); }
      down * up;
    ==
      1.0;
    }
  }

  /** Divided by at least 2^53, whatever fits below it comes out in the first unit interval. */
  lemma LargeDivisor(a: nat, b: nat, fb: real, r: real)
    requires 0 < a <= PRECISION <= b && IsRounded(b as real, fb) && fb != 0.0 && IsRounded(a as real / fb, r)
    ensures 0.0 < r <= 1.0
  {
    IntegersAreDoubles(PRECISION);
    IntegersAreDoubles(1);
    RoundedStaysAbove(b as real, fb, PRECISION as real);
    hide IsDouble, Times;
    var s := SmallDouble(fb);
    SmallQuotient(a as real, fb, s);
    RoundedStaysAbove(a as real / fb, r, s);
    RoundedStaysBelow(a as real / fb, r, 1.0);
  }

  lemma SmallQuotient(a: real, fb: real, s: real)
    requires 1.0 <= a <= fb && Times(s, fb) < 1.0
    ensures s <= a / fb <= 1.0
  {
    var q := a / fb;
    assert q * fb == a;
    assert (q - s) * fb > 0.0;
    PositiveFactor(1.0 - q, fb);
    if q < s { RealMulMonotone(fb, q, s); }
  }

  /** Up to 2^53, and for every positive divisor, the double-precision computation is exact: it gives the integer
      ceiling of the quotient. */
  lemma CeilingIsExact(a: nat, b: nat, fa: real, fb: real, r: real)
    requires a <= PRECISION && 0 < b
    requires IsRounded(a as real, fa) && IsRounded(b as real, fb) && fb != 0.0 && IsRounded(fa / fb, r)
    ensures Ceil(r) == CeilDiv(a, b)
  {
    hide IsDouble, IsRounded, Ceil;
    IntegersAreDoubles(a);
    DoublesRoundToThemselves(a as real, fa);
    if a == 0 {
      IntegersAreDoubles(0);
      DoublesRoundToThemselves(0.0, r);
      CeilOfZero(b);
    } else if b < PRECISION {
      IntegersAreDoubles(b);
      DoublesRoundToThemselves(b as real, fb);
      var k := CeilDivInterval(a, b);
      RoundingKeepsTheInterval(a, b, k, r);
      CeilFromInterval(k, r);
    } else {
      LargeDivisor(a, b, fb, r);
      CeilFromInterval(0, r);
      CeilIsOne(a, b);
    }
  }

  lemma CeilIsOne(a: nat, b: nat)
    requires 0 < a <= b
    ensures CeilDiv(a, b) == 1
  {
    QuotientIsUnique(a + b - 1, b, 1, a - 1);
  }

  lemma CeilOfZero(b: nat)
    requires b > 0
    ensures Ceil(0.0) == CeilDiv(0, b)
  {
    QuotientIsUnique(b - 1, b, 0, b - 1);
  }

  lemma {:induction false} Pow2AtMostOne(e: int)
    requires e <= 0
    ensures Pow2(e) <= 1.0
    decreases -e
  {
    if e < 0 {
      Pow2AtMostOne(e + 1);
    }
  }

  lemma RealMulAtMost(x: real, p: real)
    requires x >= 0.0 && p <= 1.0
    ensures x * p <= x
  {
  }

  // ---- Past 2^53 ----

  /** A multiple of a power of two; a function, so that its value can be hidden. */
  function Grid(q: nat, s: nat): nat { q * IntPow2(s) }

  /** Multiples of a power of two, with a significand that fits, are doubles. */
  lemma GridIsDouble(q: nat, s: nat)
    requires s <= 971 && (q < PRECISION || (q == PRECISION && s < 971))
    ensures IsDouble(Grid(q, s) as real)
  {
    var x := Grid(q, s) as real;
    ScaledProduct(q, s);
    if q < PRECISION {
      hide Pow2, IntPow2;
      assert Scaled(x, q, s);
    } else {
      var h: nat := PRECISION / 2;
      assert Pow2(s + 1) == 2.0 * Pow2(s);
      assert PRECISION as real == 2.0 * h as real;
      hide Pow2, IntPow2;
      HalfTwice(h as real, Pow2(s));
      assert Scaled(x, h, s + 1);
    }
  }

  lemma HalfTwice(h: real, p: real)
    ensures (2.0 * h) * p == h * (2.0 * p)
  {
  }

  /** Once the significand is full, no double lies between neighbouring multiples. */
  lemma NoDoubleBetween(x: real, q: nat, s: nat)
    requires IsDouble(x) && q >= PRECISION / 2 && s >= 1
    ensures x <= Grid(q, s) as real || x >= Grid(q + 1, s) as real
  {
    hide Pow2, IntPow2, Grid;
    var m: nat, e: int :| Scaled(x, m, e);
    if e >= s {
      var j := CoarserIsMultiple(m, e, s);
      OutsideTheGap(j, q, s);
    } else if e >= 0 {
      FinerIsSmall(m, e, q, s);
    } else {
      FractionIsSmall(x, m, e);
      IntegerIsSmall(m, q, s);
    }
  }

  lemma FractionIsSmall(x: real, m: nat, e: int)
    requires Scaled(x, m, e) && e <= 0
    ensures x <= m as real
  {
    Pow2AtMostOne(e);
    RealMulAtMost(m as real, Pow2(e));
  }

  lemma IntegerIsSmall(m: nat, q: nat, s: nat)
    requires m < PRECISION && q >= PRECISION / 2 && s >= 1
    ensures m <= Grid(q, s)
  {
    IntPow2Grows(1, s);
    assert IntPow2(1) == 2;
    hide IntPow2;
    SmallProduct(m, 1, q, IntPow2(s));
  }

  lemma OutsideTheGap(j: nat, q: nat, s: nat)
    ensures Grid(j, s) <= Grid(q, s) || Grid(j, s) >= Grid(q + 1, s)
  {
    hide IntPow2;
    if j <= q { MulMonotone(j, q, IntPow2(s)); } else { MulMonotone(q + 1, j, IntPow2(s)); }
  }

  lemma CoarserIsMultiple(m: nat, e: nat, s: nat) returns (j: nat)
    requires s <= e
    ensures m as real * Pow2(e) == Grid(j, s) as real
  {
    j := m * IntPow2(e - s);
    ScaledProduct(m, e);
    IntPow2Add(e - s, s);
    hide Pow2, IntPow2;
    Regroup(m, IntPow2(e - s), IntPow2(s));
  }

  lemma Regroup(x: nat, y: nat, z: nat)
    ensures x * (y * z) == x * y * z
  {
  }

  lemma FinerIsSmall(m: nat, e: nat, q: nat, s: nat)
    requires m < PRECISION && e < s && q >= PRECISION / 2
    ensures m as real * Pow2(e) <= Grid(q, s) as real
  {
    ScaledProduct(m, e);
    IntPow2Grows(e + 1, s);
    assert IntPow2(e + 1) == 2 * IntPow2(e);
    hide Pow2, IntPow2;
    SmallProduct(m, IntPow2(e), q, IntPow2(s));
  }

  lemma SmallProduct(m: nat, p: nat, q: nat, r: nat)
    requires m < PRECISION && q >= PRECISION / 2 && 2 * p <= r
    ensures m * p <= q * r
  {
    MulMonotone(m, PRECISION, p);
    MulMonotone(PRECISION / 2, q, r);
  }

  /** A number goes to the nearer of its neighbours, or to either one from the middle. */
  lemma RoundsToNeighbour(n: nat, q: nat, s: nat, up: bool)
    requires q >= PRECISION / 2 && s >= 1 && Grid(q, s) <= n <= Grid(q + 1, s)
    requires IsDouble(Grid(q, s) as real) && IsDouble(Grid(q + 1, s) as real)
    requires if up then Grid(q + 1, s) - n <= n - Grid(q, s) else n - Grid(q, s) <= Grid(q + 1, s) - n
    ensures Converts(n, (if up then Grid(q + 1, s) else Grid(q, s)) as real)
  {
    hide IsDouble, Grid;
    var r := if up then Grid(q + 1, s) else Grid(q, s);
    forall x | IsDouble(x) ensures Distance(n as real, r as real) <= Distance(n as real, x) {
      NoDoubleBetween(x, q, s);
    }
  }

  /** The scale at which the significand of `n` is full. */
  lemma {:induction false} ScaleOf(n: nat, done: nat) returns (s: nat)
    requires (PRECISION / 2) * IntPow2(done) <= n
    ensures done <= s && (PRECISION / 2) * IntPow2(s) <= n < PRECISION * IntPow2(s)
    decreases n - (PRECISION / 2) * IntPow2(done)
  {
    if n < PRECISION * IntPow2(done) {
      s := done;
    } else {
      assert IntPow2(done + 1) == 2 * IntPow2(done);
      s := ScaleOf(n, done + 1);
    }
  }

  /** The largest double, for the greatest exponent `top`. */
  function Largest(top: nat): nat { (PRECISION - 1) * IntPow2(top) }

  lemma NothingAboveLargest(x: real, top: nat)
    requires IsDouble(x) && top == 971
    ensures x <= Largest(top) as real
  {
    hide Pow2, IntPow2;
    var m: nat, e: int :| Scaled(x, m, e);
    if e >= 0 {
      ScaledProduct(m, e);
      IntPow2Grows(e, top);
      MulMonotone(m, PRECISION - 1, IntPow2(e));
    } else {
      Pow2AtMostOne(e);
      RealMulAtMost(m as real, Pow2(e));
    }
  }

  lemma LargestIsNearest(n: nat, top: nat)
    requires top == 971 && n >= Largest(top)
    ensures Converts(n, Largest(top) as real)
  {
    hide IsDouble, IntPow2;
    GridIsDouble(PRECISION - 1, top);
    forall x | IsDouble(x) ensures Distance(n as real, Largest(top) as real) <= Distance(n as real, x) {
      NothingAboveLargest(x, top);
    }
  }

  /** A double that the integer converts to. */
  ghost predicate Converts(n: nat, x: real) { IsRounded(n as real, x) }

  /** Past 2^53 a number and its successor can convert to the same double. */
  lemma SharedRounding(n: nat, top: nat) returns (x: real)
    requires n >= PRECISION && top == 971
    ensures x > 0.0 && Converts(n, x) && Converts(n + 1, x)
  {
    hide Converts, IntPow2;
    if n >= Largest(top) {
      LargestIsNearest(n, top);
      LargestIsNearest(n + 1, top);
      x := Largest(top) as real;
    } else {
      FirstScale();
      var s := ScaleOf(n, 1);
      SmallerScale(n, s, top);
      x := NearestOfBoth(n, s, n / IntPow2(s));
    }
  }

  lemma FirstScale()
    ensures IntPow2(1) == 2
  {
  }

  lemma SmallerScale(n: nat, s: nat, top: nat)
    requires n < Largest(top) && (PRECISION / 2) * IntPow2(s) <= n
    ensures s <= top && (s == top ==> n / IntPow2(s) + 1 < PRECISION)
  {
    if s > top {
      IntPow2Grows(top + 1, s);
      assert IntPow2(top + 1) == 2 * IntPow2(top);
      hide IntPow2;
      assert false by { Twice(n, IntPow2(top), IntPow2(s)); }
    } else if s == top {
      hide IntPow2;
      QuotientBelow(n, IntPow2(s), PRECISION - 1);
    }
  }

  lemma Twice(n: nat, p: nat, r: nat)
    requires 2 * p <= r && (PRECISION / 2) * r <= n
    ensures n >= (PRECISION - 1) * p
  {
  }

  lemma QuotientBelow(n: nat, p: nat, bound: nat)
    requires p > 0 && n < bound * p
    ensures n / p < bound
  {
    var q := n / p;
    assert q * p <= n;
    CancelFactor(q, bound, p);
  }

  lemma NearestOfBoth(n: nat, s: nat, q: nat) returns (x: real)
    requires 1 <= s <= 971 && q == n / IntPow2(s) && (s == 971 ==> q + 1 < PRECISION)
    requires (PRECISION / 2) * IntPow2(s) <= n < PRECISION * IntPow2(s)
    ensures x > 0.0 && Converts(n, x) && Converts(n + 1, x)
  {
    assert IntPow2(s) == 2 * IntPow2(s - 1);
    hide IntPow2, Converts, IsDouble;
    QuotientBelow(n, IntPow2(s), PRECISION);
    QuotientAtLeast(n, IntPow2(s), PRECISION / 2);
    GridIsDouble(q, s);
    GridIsDouble(q + 1, s);
    var up := 2 * (n % IntPow2(s) + 1) > IntPow2(s);
    GridAround(n, IntPow2(s), q);
    MulMonotone(1, q, IntPow2(s));
    RoundsToNeighbour(n, q, s, up);
    RoundsToNeighbour(n + 1, q, s, up);
    x := (if up then Grid(q + 1, s) else Grid(q, s)) as real;
  }

  lemma GridAround(n: nat, p: nat, q: nat)
    requires p > 0 && q == n / p
    ensures q * p <= n < (q + 1) * p && n - q * p == n % p && (q + 1) * p == q * p + p
  {
    assert n == q * p + n % p;
    assert (q + 1) * p == q * p + p;
  }

  lemma QuotientAtLeast(n: nat, p: nat, bound: nat)
    requires p > 0 && bound * p <= n
    ensures bound <= n / p
  {
    var q := n / p;
    GridAround(n, p, q);
    CancelFactor(bound, q + 1, p);
  }

  /** The result can be computed from conversions of the two numbers and a rounding of their quotient. */
  ghost predicate Computes(a: nat, b: nat, r: real) {
    exists fa, fb :: Converts(a, fa) && Converts(b, fb) && fb != 0.0 && IsRounded(fa / fb, r)
  }

  /** Whatever the divisor, and whichever way ties go, the ceiling is right. */
  ghost predicate ExactFor(a: nat) {
    forall b: nat, r: real :: b > 0 && Computes(a, b, r) ==> Ceil(r) == CeilDiv(a, b)
  }

  /** The computation is exact for a numerator if and only if that is at most 2^53. */
  lemma ExactUpToPrecision(a: nat)
    ensures ExactFor(a) <==> a <= PRECISION
  {
    hide IsRounded, Ceil, CeilDiv;
    if a <= PRECISION {
      forall b: nat, r: real | b > 0 && Computes(a, b, r) ensures Ceil(r) == CeilDiv(a, b) {
        var fa, fb :| Converts(a, fa) && Converts(b, fb) && fb != 0.0 && IsRounded(fa / fb, r);
        CeilingIsExact(a, b, fa, fb, r);
      }
    } else {
      OneShort(a);
    }
  }

  /** Divided by its predecessor, a larger numerator can come out as one. */
  lemma OneShort(a: nat)
    requires a > PRECISION
    ensures Computes(a, a - 1, 1.0) && Ceil(1.0) == 1 && CeilDiv(a, a - 1) == 2
  {
    var x := SharedRounding(a - 1, 971);
    IntegersAreDoubles(1);
    SelfQuotient(x);
    hide IsDouble, Converts;
    assert IsRounded(1.0, 1.0);
    CeilFromInterval(0, 1.0);
    QuotientIsUnique(a + (a - 1) - 1, a - 1, 2, 0);
  }

  lemma SelfQuotient(x: real)
    requires x > 0.0
    ensures x / x == 1.0
  {
  }

  // ---- Numerators that fail whichever way ties go ----

  /** Doubles past 2^53 are even, past 2^54 multiples of four, and so on. */
  lemma LargeDoublesAreCoarse(x: real, s: nat) returns (j: nat)
    requires IsDouble(x) && x >= Grid(PRECISION, s) as real
    ensures x == Grid(j, s + 1) as real
  {
    hide Pow2, IntPow2;
    var m: nat, e: int :| Scaled(x, m, e);
    if e > s {
      j := CoarserIsMultiple(m, e, s + 1);
    } else {
      TooSmall(m, e, s);
      j := 0;
    }
  }

  lemma TooSmall(m: nat, e: int, s: nat)
    requires m < PRECISION && e <= s
    ensures m as real * Pow2(e) < Grid(PRECISION, s) as real
  {
    hide Pow2, IntPow2;
    if e >= 0 {
      ScaledProduct(m, e);
      IntPow2Grows(e, s);
      MulMonotone(IntPow2(e), IntPow2(s), m);
      StrictMul(m, PRECISION, IntPow2(s));
    } else {
      Pow2AtMostOne(e);
      RealMulAtMost(m as real, Pow2(e));
    }
  }

  lemma StrictMul(x: nat, y: nat, k: nat)
    requires x < y && k > 0
    ensures x * k < y * k
  {
    MulMonotone(x + 1, y, k);
    assert (x + 1) * k == x * k + k;
  }

  /** A numerator that is not a double itself, or is past 2^54, has a divisor for which every way of rounding goes
      wrong; between 2^53 and 2^54 it depends on the ties for the even ones. */
  lemma WrongWhicheverWay(a: nat) returns (b: nat)
    requires a > PRECISION && (!IsDouble(a as real) || a > 2 * PRECISION)
    ensures b > 0 && forall r :: Computes(a, b, r) ==> Ceil(r) != CeilDiv(a, b)
  {
    hide Ceil, CeilDiv, IsRounded, IsDouble;
    b := if IsDouble(a as real) then a - 1 else 1;
    forall r | Computes(a, b, r) ensures Ceil(r) != CeilDiv(a, b) {
      var fa, fb :| Converts(a, fa) && Converts(b, fb) && fb != 0.0 && IsRounded(fa / fb, r);
      if IsDouble(a as real) {
        WrongByPredecessor(a, fa, fb, r);
      } else {
        WrongByOne(a, fa, fb, r);
      }
    }
  }

  lemma WrongByOne(a: nat, fa: real, fb: real, r: real)
    requires a > PRECISION && !IsDouble(a as real)
    requires Converts(a, fa) && Converts(1, fb) && fb != 0.0 && IsRounded(fa / fb, r)
    ensures Ceil(r) != CeilDiv(a, 1)
  {
    IntegersAreDoubles(PRECISION);
    IntegersAreDoubles(1);
    RoundedStaysAbove(a as real, fa, PRECISION as real);
    DoublesRoundToThemselves(1.0, fb);
    assert fa / 1.0 == fa;
    DoublesRoundToThemselves(fa, r);
    assert Grid(PRECISION, 0) == PRECISION;
    var j := LargeDoublesAreCoarse(fa, 0);
    hide IsDouble, IsRounded, Grid;
    var n := Grid(j, 1);
    CeilFromInterval(n - 1, r);
    assert n != a;
  }

  lemma WrongByPredecessor(a: nat, fa: real, fb: real, r: real)
    requires a > 2 * PRECISION && IsDouble(a as real)
    requires Converts(a, fa) && Converts(a - 1, fb) && fb != 0.0 && IsRounded(fa / fb, r)
    ensures Ceil(r) != CeilDiv(a, a - 1)
  {
    DoublesRoundToThemselves(a as real, fa);
    assert Distance((a - 1) as real, fb) <= Distance((a - 1) as real, a as real);
    SameDouble(a, fb);
    SelfQuotient(a as real);
    IntegersAreDoubles(1);
    DoublesRoundToThemselves(1.0, r);
    hide IsDouble, IsRounded;
    CeilFromInterval(0, 1.0);
    QuotientIsUnique(a + (a - 1) - 1, a - 1, 2, 0);
  }

  /** Past 2^54, a double two or less below another is that one. */
  lemma SameDouble(a: nat, x: real)
    requires a > 2 * PRECISION && IsDouble(a as real) && IsDouble(x) && a as real - 2.0 <= x <= a as real
    ensures x == a as real
  {
    hide Grid, IsDouble;
    SmallGrids(PRECISION);
    var i := LargeDoublesAreCoarse(a as real, 1);
    SmallGrids(i);
    assert i > PRECISION / 2;
    var j := LargeDoublesAreCoarse(x, 1);
    SmallGrids(j);
    assert 4 * i - 2 <= 4 * j <= 4 * i;
  }

  lemma SmallGrids(q: nat)
    ensures Grid(q, 1) == 2 * q && Grid(q, 2) == 4 * q
  {
    assert IntPow2(1) == 2 && IntPow2(2) == 4;
  }

  /** The bound cannot be raised: 2^53 + 1 converts to 2^53, and the ceiling comes out one short. */
  lemma BoundIsTight()
    ensures IsRounded(PRECISION as real + 1.0, PRECISION as real) && IsRounded(1.0, 1.0)
    ensures IsRounded(PRECISION as real / 1.0, PRECISION as real)
    ensures Ceil(PRECISION as real) != CeilDiv(PRECISION + 1, 1)
  {
    IntegersAreDoubles(PRECISION);
    IntegersAreDoubles(1);
    assert IntPow2(1) == 2;
    forall s | IsDouble(s)
      ensures Distance(PRECISION as real + 1.0, PRECISION as real) <= Distance(PRECISION as real + 1.0, s)
    {
      NoDoubleBetween(s, PRECISION / 2, 1);
    }
    CeilFromInterval(PRECISION - 1, PRECISION as real);
  }
}
