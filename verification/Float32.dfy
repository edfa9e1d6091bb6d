/** IEEE 754-2008 binary32 rounding (section 4.3.1, roundTiesToEven) on non-negative reals, and the
    bound it gives for the truncated percentage computed by RouteMappingsRepo.GetCalculatedWeight.
    The exponent is unbounded: every value rounded here is 0.0 or lies in [2^-33, 2^40], far
    inside the normal range of binary32. */
module Float32 {

  const TWO23 := 8388608.0
  const TWO24 := 16777216.0

  /** The integer nearest to x, a tie going to the even neighbour. */
  function RoundHalfEven(x: real): (r: int)
    ensures -0.5 <= r as real - x <= 0.5
  {
    var f := x.Floor;
    var d := x - f as real;
    if d < 0.5 then f else if d > 0.5 then f + 1 else if f % 2 == 0 then f else f + 1
  }

  /** How many halvings or doublings (at most) take x into the binade [2^23, 2^24), where binary32
      has unit spacing. */
  ghost function Distance(x: real): nat
    requires x >= 0.0
  {
    if x == 0.0 then 0
    else if x < TWO23 then Inverse(x)
    else if x < TWO24 then 0
    else x.Floor
  }

  ghost function Inverse(x: real): (n: nat)
    requires 0.0 < x < TWO23
    ensures n > 0
  {
    var y := TWO23 / x;
    assert y * x == TWO23;
    assert (y - 1.0) * x > 0.0;
    assert y > 1.0;
    y.Floor
  }

  lemma InverseHalves(x: real)
    requires 0.0 < x < TWO23
    ensures Distance(2.0 * x) < Distance(x)
  {
    if 2.0 * x < TWO23 {
      var y := TWO23 / x;
      var z := TWO23 / (2.0 * x);
      assert y * x == TWO23;
      assert z * (2.0 * x) == TWO23;
      assert (2.0 * z - y) * x == 0.0;
      assert z == y / 2.0;
      assert (z - 1.0) * (2.0 * x) > 0.0;
      assert z > 1.0;
    }
  }

  /** x rounded to binary32: scaled by powers of two into [2^23, 2^24), rounded to an integer there,
      and scaled back. */
  function Round(x: real): (r: real)
    requires x >= 0.0
    ensures r >= 0.0 && (r == 0.0 <==> x == 0.0)
    decreases Distance(x)
  {
    if x == 0.0 then 0.0
    else if x < TWO23 then (InverseHalves(x); Round(2.0 * x) / 2.0)
    else if x >= TWO24 then 2.0 * Round(x / 2.0)
    else RoundHalfEven(x) as real
  }

  predicate IsInteger(g: real) { g == g.Floor as real }

  /** g is a binary32 value: scaled into [2^23, 2^24) it is an integer. */
  ghost predicate IsFloat(g: real)
    requires g >= 0.0
    decreases Distance(g)
  {
    if g == 0.0 then true
    else if g < TWO23 then (InverseHalves(g); IsFloat(2.0 * g))
    else if g >= TWO24 then IsFloat(g / 2.0)
    else IsInteger(g)
  }

  // ----- scaling

  lemma RoundDoubles(x: real)
    requires x >= 0.0
    ensures Round(2.0 * x) == 2.0 * Round(x)
  {
    if x >= TWO23 { assert (2.0 * x) / 2.0 == x; }
  }

  /** Halfway between two binary32 values the one with the even last bit is taken: so it is in the
      binade [2^23, 2^24), and doubling and halving carry it to every other one. */
  lemma TiesGoToEven(n: nat)
    requires 8388608 <= n < 16777215
    ensures Round(n as real + 0.5) == (if n % 2 == 0 then n else n + 1) as real
    ensures forall x | x >= 0.0 :: Round(2.0 * x) == 2.0 * Round(x)
  {
    var x := n as real + 0.5;
    assert x.Floor == n;
    forall x | x >= 0.0 ensures Round(2.0 * x) == 2.0 * Round(x) { RoundDoubles(x); }
  }

  lemma FloatDoubles(g: real)
    requires g >= 0.0
    ensures IsFloat(2.0 * g) == IsFloat(g)
  {
    if g >= TWO23 { assert (2.0 * g) / 2.0 == g; }
  }

  lemma {:induction false} LargeFloatIsInteger(g: real)
    requires g >= TWO23 && IsFloat(g)
    ensures IsInteger(g)
    decreases Distance(g)
  {
    if g >= TWO24 { LargeFloatIsInteger(g / 2.0); assert g == (2 * (g / 2.0).Floor) as real; }
  }

  // ----- Round is rounding to nearest

  lemma {:induction false} RoundIsFloat(x: real)
    requires x >= 0.0
    ensures Round(x) >= 0.0 && IsFloat(Round(x))
    decreases Distance(x)
  {
    if x == 0.0 {
    } else if x < TWO23 {
      InverseHalves(x);
      RoundIsFloat(2.0 * x);
      FloatDoubles(Round(x));
    } else if x >= TWO24 {
      RoundIsFloat(x / 2.0);
      FloatDoubles(Round(x / 2.0));
    } else {
      var r := RoundHalfEven(x);
      assert TWO23 <= r as real <= TWO24;
      if r as real == TWO24 { assert IsFloat(TWO24 / 2.0); }
    }
  }

  /** No binary32 value is nearer to x than Round(x). */
  lemma {:induction false} RoundIsNearest(x: real, g: real)
    requires x >= 0.0 && g >= 0.0 && IsFloat(g)
    ensures Abs(x - Round(x)) <= Abs(x - g)
    decreases Distance(x)
  {
    if x == 0.0 {
    } else if x < TWO23 {
      InverseHalves(x);
      FloatDoubles(g);
      RoundIsNearest(2.0 * x, 2.0 * g);
    } else if x >= TWO24 {
      FloatDoubles(g / 2.0);
      RoundIsNearest(x / 2.0, g / 2.0);
    } else if g >= TWO23 {
      LargeFloatIsInteger(g);
      NearestInteger(x, g.Floor);
    } else {
      NearestInteger(x, 8388608);
    }
  }

  lemma NearestInteger(x: real, n: int)
    ensures Abs(x - RoundHalfEven(x) as real) <= Abs(x - n as real)
  {
    var f := x.Floor;
    assert n <= f || n >= f + 1;
    assert n as real <= f as real || n as real >= f as real + 1.0;
  }

  function Abs(x: real): real { if x < 0.0 then -x else x }

  /** Rounding leaves a binary32 value alone. */
  lemma FloatIsFixed(g: real)
    requires g >= 0.0 && IsFloat(g)
    ensures Round(g) == g
  {
    RoundIsNearest(g, g);
  }

  lemma {:induction false} IntegerIsFloat(g: real)
    requires 0.0 <= g <= TWO24 && IsInteger(g)
    ensures IsFloat(g)
    decreases Distance(g)
  {
    if g == 0.0 {
    } else if g < TWO23 {
      InverseHalves(g);
      assert 2.0 * g == (2 * g.Floor) as real;
      IntegerIsFloat(2.0 * g);
    } else if g == TWO24 {
      assert IsFloat(TWO24 / 2.0);
    }
  }

  lemma {:induction false} RoundMonotone(x: real, y: real)
    requires 0.0 <= x <= y
    ensures Round(x) <= Round(y)
  {
    // If Round(x) > Round(y), both floats lie on the wrong side of x or of y.
    RoundIsFloat(x);
    RoundIsFloat(y);
    RoundIsNearest(x, Round(y));
    RoundIsNearest(y, Round(x));
    if Round(x) > Round(y) && x == y { assert false; }
  }

  /** x * 2^n. */
  function Scale(x: real, n: nat): (r: real)
    requires x >= 0.0
    ensures r >= 0.0
    decreases n
  {
    if n == 0 then x else Scale(2.0 * x, n - 1)
  }

  /** The rounding error is at most half a unit in the last place, 2^-25 of the binade's end. */
  lemma {:induction false} RoundError(x: real, top: real, n: nat)
    requires 0.0 <= x <= top
    requires Scale(top, n) == TWO24
    ensures Abs(Round(x) - x) <= top / 33554432.0
    decreases n
  {
    if n == 0 {
      if x == TWO24 { IntegerIsFloat(x); FloatIsFixed(x); } else { SmallRoundError(x); }
    } else {
      RoundDoubles(x);
      RoundError(2.0 * x, 2.0 * top, n - 1);
    }
  }

  lemma {:induction false} SmallRoundError(x: real)
    requires 0.0 <= x < TWO24
    ensures Abs(Round(x) - x) <= 0.5
    decreases Distance(x)
  {
    if 0.0 < x < TWO23 { InverseHalves(x); SmallRoundError(2.0 * x); }
  }

  lemma {:induction false} RoundScales(x: real, n: nat)
    requires x >= 0.0
    ensures Round(Scale(x, n)) == Scale(Round(x), n)
    decreases n
  {
    if n > 0 {
      RoundDoubles(x);
      RoundScales(2.0 * x, n - 1);
    }
  }

  lemma {:induction false} FloatScales(g: real, n: nat)
    requires g >= 0.0 && IsFloat(g)
    ensures IsFloat(Scale(g, n))
    decreases n
  {
    if n > 0 {
      FloatDoubles(g);
      FloatScales(2.0 * g, n - 1);
    }
  }

  lemma Scales(x: real)
    requires x >= 0.0
    ensures Scale(x, 17) == 131072.0 * x
    ensures Scale(x, 18) == 262144.0 * x
    ensures Scale(x, 24) == TWO24 * x
    ensures Scale(x, 25) == 33554432.0 * x
  {
    Scale8(x);
    Scale8(256.0 * x);
    Scale8(65536.0 * x);
    ScaleAdds(x, 8, 8);
    ScaleAdds(x, 16, 1);
    ScaleAdds(x, 16, 2);
    ScaleAdds(x, 16, 8);
    ScaleAdds(x, 24, 1);
  }

  lemma Scale8(x: real)
    requires x >= 0.0
    ensures Scale(x, 8) == 256.0 * x
  {
    assert Scale(16.0 * x, 4) == 256.0 * x;
    assert Scale(x, 4) == 16.0 * x;
    ScaleAdds(x, 4, 4);
  }

  lemma {:induction false} ScaleAdds(x: real, m: nat, n: nat)
    requires x >= 0.0
    ensures Scale(Scale(x, m), n) == Scale(x, m + n)
    decreases m
  {
    if m > 0 { ScaleAdds(2.0 * x, m - 1, n); }
  }
}
