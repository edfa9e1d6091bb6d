/** The percentage arithmetic of RouteMappingsRepo.GetCalculatedWeight. */
module CalculatedWeight {
  import opened Float32

  /** float32(weight) / float32(denominator) * 100, every operation rounded. */
  function Percentage(weight: nat, denominator: nat): (p: real)
    requires denominator > 0
  {
    Round(100.0 * Ratio(weight, denominator))
  }

  function Ratio(weight: nat, denominator: nat): (q: real)
    requires denominator > 0
    ensures q >= 0.0
  {
    Round(Quotient(Round(weight as real), Round(denominator as real)))
  }

  function Quotient(a: real, b: real): (q: real)
    requires a >= 0.0 && b > 0.0
    ensures q >= 0.0 && q * b == a
  {
    var q := a / b;
    assert q * b == a;
    assert q >= 0.0 by { if q < 0.0 { Negative(q, b); } }
    q
  }

  lemma Negative(q: real, b: real)
    requires q < 0.0 && b > 0.0
    ensures q * b < 0.0
  {
  }

  lemma QuotientBelow(a: real, b: real, bound: real)
    requires 0.0 <= a && 0.0 < b && a <= bound * b
    ensures Quotient(a, b) <= bound
  {
    var q := Quotient(a, b);
    if q > bound { assert (q - bound) * b > 0.0; }
  }

  /** The truncation to int32 is the integer part: percentages are not negative. */
  function Truncated(weight: nat, denominator: nat): (c: int)
    requires denominator > 0
  {
    Percentage(weight, denominator).Floor
  }

  /** The truncated percentage c satisfies c <= 100 * weight / denominator <= c + 1. */
  predicate InInterval(weight: nat, denominator: nat)
    requires denominator > 0
  {
    var c := Truncated(weight, denominator);
    c * denominator <= 100 * weight <= (c + 1) * denominator
  }

  /** For every pair of counters a percentage stays within [0, 100]. */
  lemma PercentageRange(weight: nat, denominator: nat)
    requires 0 < denominator && weight <= denominator
    ensures 0.0 <= Ratio(weight, denominator) <= 1.0
    ensures 0.0 <= Percentage(weight, denominator) <= 100.0
    ensures 0 <= Truncated(weight, denominator) <= 100
  {
    var a, b := Round(weight as real), Round(denominator as real);
    RoundMonotone(weight as real, denominator as real);
    QuotientBelow(a, b, 1.0);
    RoundMonotone(Quotient(a, b), 1.0);
    IntegerIsFloat(1.0); FloatIsFixed(1.0);
    RoundMonotone(100.0 * Ratio(weight, denominator), 100.0);
    IntegerIsFloat(100.0); FloatIsFixed(100.0);
  }

  lemma QuotientMonotone(a: real, b: real, c: real)
    requires 0.0 <= a <= b && c > 0.0
    ensures Quotient(a, c) <= Quotient(b, c)
  {
    assert Quotient(b, c) * c == b;
    QuotientBelow(a, c, Quotient(b, c));
  }

  /** A larger weight never gets a smaller percentage. */
  lemma PercentageMonotone(v: nat, w: nat, d: nat)
    requires 0 < d && v <= w
    ensures Truncated(v, d) <= Truncated(w, d)
  {
    var a, b, c := Round(v as real), Round(w as real), Round(d as real);
    RoundMonotone(v as real, w as real);
    QuotientMonotone(a, b, c);
    RoundMonotone(Quotient(a, c), Quotient(b, c));
    RoundMonotone(100.0 * Ratio(v, d), 100.0 * Ratio(w, d));
  }

  lemma QuotientIs(a: real, b: real, q: real)
    requires a >= 0.0 && b > 0.0 && a == q * b
    ensures Quotient(a, b) == q
  {
    assert (Quotient(a, b) - q) * b == 0.0;
  }

  lemma ExactRatioIs(w: nat, d: nat, b: real, q: real)
    requires d > 0 && q >= 0.0 && b > 0.0 && Round(d as real) == b && Round(w as real) == q * b
    requires IsFloat(q)
    ensures Ratio(w, d) == q
  {
    QuotientIs(Round(w as real), b, q);
    FloatIsFixed(q);
  }

  lemma ExactShare(w: nat, d: nat, b: real, q: real, c: nat)
    requires d > 0 && q >= 0.0 && b > 0.0 && Round(d as real) == b && Round(w as real) == q * b
    requires IsFloat(q) && 100.0 * q == c as real && c <= 100
    ensures Truncated(w, d) == c
  {
    ExactRatioIs(w, d, b, q);
    IntegerIsFloat(c as real);
    FloatIsFixed(c as real);
  }

  lemma RoundTwice(w: nat)
    ensures Round((2 * w) as real) == 2.0 * Round(w as real)
  {
    RoundDoubles(w as real);
    assert (2 * w) as real == 2.0 * w as real;
  }

  lemma PowersAreFloats()
    ensures IsFloat(1.0) && IsFloat(0.5) && IsFloat(0.25)
  {
    IntegerIsFloat(1.0);
    FloatDoubles(0.5);
    FloatDoubles(0.25);
  }

  /** The only mapping of a route gets exactly 100 percent, whatever its weight; each of two equal ones
      gets 50 and each of four equal ones 25. */
  lemma EqualShares(w: nat)
    requires w > 0
    ensures Truncated(w, w) == 100 && Truncated(w, 2 * w) == 50 && Truncated(w, 4 * w) == 25
  {
    RoundTwice(w);
    RoundTwice(2 * w);
    PowersAreFloats();
    var a := Round(w as real);
    ExactShare(w, w, a, 1.0, 100);
    ExactShare(w, 2 * w, 2.0 * a, 0.5, 50);
    ExactShare(w, 4 * w, 4.0 * a, 0.25, 25);
  }

  /** Counters below 2^24 convert exactly, so the ratio is the correctly rounded w / d. */
  lemma ExactRatio(w: nat, d: nat) returns (q: real)
    requires 0 < d <= 16777216 && w <= d
    ensures q >= 0.0 && q <= 1.0 && q * d as real == w as real && Ratio(w, d) == Round(q)
  {
    IntegerIsFloat(w as real); FloatIsFixed(w as real);
    IntegerIsFloat(d as real); FloatIsFixed(d as real);
    q := Quotient(w as real, d as real);
    QuotientBelow(w as real, d as real, 1.0);
  }

  /** Rounding moves the ratio by at most 2^-25 and the percentage by at most 2^-18. */
  lemma Errors(q: real)
    requires 0.0 <= q <= 1.0
    ensures -1.0 <= 33554432.0 * (Round(q) - q) <= 1.0
    ensures Round(q) <= 1.0
    ensures -1.0 <= 262144.0 * (Round(100.0 * Round(q)) - 100.0 * Round(q)) <= 1.0
  {
    Scales(1.0);
    Scales(128.0);
    RoundError(q, 1.0, 24);
    RoundMonotone(q, 1.0); IntegerIsFloat(1.0); FloatIsFixed(1.0);
    RoundError(100.0 * Round(q), 128.0, 17);
  }

  /** The lower side of the interval: the percentage never falls more than one short. */
  lemma NotTooSmall(w: nat, d: nat)
    requires 0 < d <= 335544 && w <= d
    ensures 100 * w <= (Truncated(w, d) + 1) * d
  {
    var q := ExactRatio(w, d);
    Errors(q);
    PercentageRange(w, d);
    var j := Truncated(w, d) + 1;
    if 100 * w > j * d {
      assert j <= 101;
      AtLeast(q, w, d, j);
      var y := 100.0 * Round(q);
      assert y >= j as real;
      IntegerIsFloat(j as real); FloatIsFixed(j as real);
      RoundMonotone(j as real, y);
      assert false;
    }
  }

  lemma AtLeast(q: real, w: nat, d: nat, j: int)
    requires 0 < d <= 335544 && q * d as real == w as real && 100 * w >= j * d + 1
    ensures 100.0 * q >= j as real + 100.0 / 33554432.0
  {
    var e := 100.0 * q - j as real;
    assert e * d as real == 100.0 * w as real - (j * d) as real;
    assert e * d as real >= 1.0;
    if e < 100.0 / 33554432.0 {
      assert e > 0.0 by { if e <= 0.0 { NonPositive(e, d as real); } }
      Product(e, d as real, 100.0 / 33554432.0, 335544.0);
    }
  }

  lemma NonPositive(e: real, b: real)
    requires e <= 0.0 && b > 0.0
    ensures e * b <= 0.0
  {
  }

  lemma Product(a: real, b: real, c: real, d: real)
    requires 0.0 < a < c && 0.0 < b <= d
    ensures a * b < c * d
  {
    assert a * b < c * b;
    assert c * b <= c * d;
  }

  /** The largest denominator up to which every weight stays in its interval. */
  const MAX_DENOMINATOR := 147218

  /** The upper side of the interval: rounding never lifts the percentage over an integer. */
  lemma NotTooLarge(w: nat, d: nat)
    requires 0 < d <= MAX_DENOMINATOR && w <= d
    ensures Truncated(w, d) * d <= 100 * w
  {
    var q := ExactRatio(w, d);
    PercentageRange(w, d);
    if q <= 0.5 { LowerHalf(q, w, d); } else { UpperHalf(q, w, d); }
  }

  lemma LowerHalf(q: real, w: nat, d: nat)
    requires 0 < d <= MAX_DENOMINATOR
    requires 0.0 <= q <= 0.5 && q * d as real == w as real
    ensures Round(100.0 * Round(q)).Floor * d <= 100 * w
  {
    var k := Round(100.0 * Round(q)).Floor;
    SmallErrors(q);
    Gap(q, w, d, k, 57.0);
  }

  lemma UpperHalf(q: real, w: nat, d: nat)
    requires 0 < d <= MAX_DENOMINATOR
    requires 0.5 < q <= 1.0 && q * d as real == w as real
    requires 0.0 <= Round(100.0 * Round(q)) <= 100.0
    ensures Round(100.0 * Round(q)).Floor * d <= 100 * w
  {
    var k := Round(100.0 * Round(q)).Floor;
    var r := UpperHalfGap(q, k);
    Gap(q, w, d, k, (r + 50) as real);
    HalfRatio(q, w, d);
    CloseGap(w, d, k, r);
  }

  lemma HalfRatio(q: real, w: nat, d: nat)
    requires d > 0 && q > 0.5 && q * d as real == w as real
    ensures 2 * w > d
  {
    Larger(q, d as real);
    assert w as real > 0.5 * d as real;
  }

  lemma CloseGap(w: nat, d: nat, k: int, r: int)
    requires 0 < d <= MAX_DENOMINATOR && 2 * w > d && k <= 100
    requires r <= 64 && (16777216 * k - r) % 100 == 0
    requires 16777216 * (k * d - 100 * w) <= (r + 50) * d
    ensures k * d <= 100 * w
  {
    var s := k * d - 100 * w;
    if s > 0 {
      MoreThanFifty(w, d, k);
      Unit(d, s, r);
      Residue(w, d, k);
    }
  }

  /** Above one half the rounded ratio is a multiple of 2^-24, which makes the gap an integer. */
  lemma UpperHalfGap(q: real, k: int) returns (r: int)
    requires 0.5 < q <= 1.0
    requires k as real <= Round(100.0 * Round(q))
    ensures r <= 64 && (16777216 * k - r) % 100 == 0
    ensures 16777216.0 * (k as real - 100.0 * q) <= (r + 50) as real
  {
    Errors(q);
    var j := UpperHalfFloat(q, Round(q));
    r := 16777216 * k - 100 * j;
    assert r as real == 16777216.0 * k as real - 100.0 * (16777216.0 * Round(q));
    assert r as real <= 64.0;
  }

  /** When the exact percentage is within gap / 2^24 below the integer k, so is it over the common
      denominator. */
  lemma Gap(q: real, w: nat, d: nat, k: int, gap: real)
    requires d > 0 && q * d as real == w as real
    requires 16777216.0 * (k as real - 100.0 * q) <= gap
    ensures 16777216.0 * (k * d - 100 * w) as real <= gap * d as real
    ensures forall g: int | g as real == gap :: 16777216 * (k * d - 100 * w) <= g * d
  {
    var e := k as real - 100.0 * q;
    assert e * d as real == (k * d) as real - 100.0 * w as real;
    NonPositive(16777216.0 * e - gap, d as real);
  }

  lemma MoreThanFifty(w: nat, d: nat, k: int)
    requires 2 * w > d > 0 && k * d > 100 * w
    ensures k > 50
  {
    PositiveFactor(k - 50, d);
  }

  lemma Larger(q: real, b: real)
    requires q > 0.5 && b > 0.0
    ensures q * b > 0.5 * b
  {
    assert (q - 0.5) * b > 0.0;
  }

  lemma PositiveFactor(a: int, d: nat)
    requires a * d > 0
    ensures a > 0
  {
  }

  lemma Unit(d: nat, s: int, r: int)
    requires 0 < d <= MAX_DENOMINATOR && s >= 1 && r <= 64
    requires 16777216 * s <= (r + 50) * d
    ensures s == 1 && r == 64 && d >= 147169
  {
    Scaled(r + 50, 114, d);
    if r <= 63 { Scaled(r + 50, 113, d); }
  }

  lemma Scaled(a: int, b: int, d: nat)
    requires a <= b
    ensures a * d <= b * d
  {
  }

  /** 2^24 is 16 modulo 100, so a percentage within 114 units of an integer above one half is just
      below 79, and the denominator is 19 modulo 100. */
  lemma Residue(w: nat, d: nat, k: int)
    requires 50 < k <= 100
    requires (16777216 * k - 64) % 100 == 0 && k * d - 100 * w == 1
    ensures d % 100 == 19
  {
    assert k == 54 || k == 79;
  }

  lemma SmallErrors(q: real)
    requires 0.0 <= q <= 0.5
    ensures 67108864.0 * (Round(q) - q) <= 1.0
    ensures Round(q) <= 0.5
    ensures 524288.0 * (Round(100.0 * Round(q)) - 100.0 * Round(q)) <= 1.0
  {
    Scales(0.5);
    Scales(64.0);
    RoundError(q, 0.5, 25);
    Half();
    FloatIsFixed(0.5);
    RoundMonotone(q, 0.5);
    RoundError(100.0 * Round(q), 64.0, 18);
  }

  lemma Half()
    ensures IsFloat(0.5)
  {
    IntegerIsFloat(1.0);
    FloatDoubles(0.5);
  }

  /** Above one half, binary32 values are multiples of 2^-24. */
  lemma UpperHalfFloat(q: real, f: real) returns (j: int)
    requires 0.5 <= q <= 1.0 && f == Round(q)
    ensures j as real == 16777216.0 * f
  {
    RoundIsFloat(q);
    FloatScales(f, 24);
    Scales(f);
    Half();
    FloatIsFixed(0.5);
    RoundMonotone(0.5, q);
    LargeFloatIsInteger(Scale(f, 24));
    j := (16777216.0 * f).Floor;
  }

  /** With the weights the handlers accept, a larger denominator only makes the percentage smaller
      than one. */
  lemma SmallWeight(w: nat, d: nat)
    requires w <= 128 && d > 131072
    ensures Truncated(w, d) == 0
  {
    IntegerIsFloat(w as real); FloatIsFixed(w as real);
    IntegerIsFloat(131072.0); FloatIsFixed(131072.0);
    RoundMonotone(131072.0, d as real);
    var b := Round(d as real);
    QuotientBelow(w as real, b, 1.0 / 1024.0);
    var q := Quotient(w as real, b);
    Scales(1.0);
    RoundError(q, 1.0, 24);
    Half();
    FloatIsFixed(0.5);
    RoundMonotone(100.0 * Round(q), 0.5);
  }

  /** Every weight the handlers accept (at most 128), with any denominator, and every weight at all
      with a denominator up to MAX_DENOMINATOR, has its exact percentage within one above the
      truncated one. */
  lemma WeightInInterval(weight: nat, denominator: nat)
    requires 0 < denominator && weight <= denominator
    requires weight <= 128 || denominator <= MAX_DENOMINATOR
    ensures InInterval(weight, denominator)
  {
    if denominator <= MAX_DENOMINATOR {
      NotTooLarge(weight, denominator);
      NotTooSmall(weight, denominator);
    } else {
      SmallWeight(weight, denominator);
    }
  }

  /** The first denominator for which a percentage is rounded over an integer. */
  lemma FirstOvershoot()
    ensures Truncated(116303, 147219) == 79
    ensures !InInterval(116303, 147219)
  {
    var q := ExactRatio(116303, 147219);
    RoundScales(q, 24);
    Scales(q);
    Scales(Round(q));
    assert RoundHalfEven(16777216.0 * q) == 13254000;
    assert Round(16777216.0 * q) == 13254000.0;
    var y := 100.0 * Round(q);
    RoundScales(y, 17);
    Scales(y);
    Scales(Round(y));
    assert 131072.0 * y == 10354687.5;
    assert RoundHalfEven(10354687.5) == 10354688;
  }

  /** MAX_DENOMINATOR is exact. */
  lemma IntervalHoldsUpTo(bound: nat)
    ensures (forall w: nat, d: nat | 0 < d <= bound && w <= d :: InInterval(w, d))
       <==> bound <= MAX_DENOMINATOR
  {
    if bound <= MAX_DENOMINATOR {
      forall w: nat, d: nat | 0 < d <= bound && w <= d ensures InInterval(w, d) {
        WeightInInterval(w, d);
      }
    } else {
      FirstOvershoot();
    }
  }
}
