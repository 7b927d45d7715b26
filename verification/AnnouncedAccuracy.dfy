/**
  Where the accuracy of 2 LSB that transforms.h announces over [-pi, pi] is met
  (bare_metal_foc/src/transforms.c).
 */
module AnnouncedAccuracy {
  import opened FixedPoint
  import opened Trig
  import opened Accuracy
  import opened SeriesTables

  /** `sin_approx` is within 2 LSB of the sine at `x`. */
  ghost predicate SinMeets(sine: real -> real, x: int) {
    -2.0 < Sin(x) as real - 65536.0 * sine(Radians(x)) < 2.0
  }

  /** `cos_approx` is within 2 LSB of the cosine at `x`. */
  ghost predicate CosMeets(sine: real -> real, pi: real, x: int) {
    -2.0 < Cos(x) as real - 65536.0 * sine(pi / 2.0 - Radians(x)) < 2.0
  }

  // ---------------------------------------------------------------------------------
  // The two series beside a shifted sine
  // ---------------------------------------------------------------------------------

  lemma CosineRange(sine: real -> real, pi: real, u: int)
    requires IsSine(sine, pi) && 0 <= u <= Q16_PI_OVER_4
    ensures 0.69 <= sine(pi / 2.0 - Radians(u)) <= 1.00001
    ensures 0.0 <= sine(Radians(u)) <= 0.751
  {
    hide IsSine, SinPoly, CosPoly;
    SeriesEnclosure(sine, pi, Radians(u));
    PolyRange(Radians(u));
    SinPolyBelow(Radians(u));
  }

  lemma SinPolyBelow(q: real)
    requires 0.0 <= q <= 0.78541
    ensures SinPoly(q) <= 0.75
  {
    hide Times;
    var q2 := Times(q, q);
    var q3, q4 := Times(q2, q), Times(q2, q2);
    var q5 := Times(q3, q2);
    PowerBounds(q, q2, q3, q4, q5, Times(q4, q2), Times(q5, q2));
    if q > 0.74 {
      CubeAbove(q);
    } else {
      ScaledDown(q3, q2, 0.4846, 0.6169);
    }
  }

  lemma CubeAbove(q: real)
    requires q > 0.74
    ensures Times(Times(q, q), q) >= 0.405
  {
    MulMono(0.74, q, 0.74, q);
    MulMono(0.5476, q * q, 0.74, q);
  }

  lemma TimesBetween(d: real, c: real, lo: real, hi: real, least: real, most: real)
    requires 0.0 <= lo <= d <= hi && 0.0 <= least <= c <= most
    ensures lo * least <= Times(d, c) <= hi * most
  {
    MulMono(lo, d, least, c);
    MulMono(d, hi, c, most);
  }

  /** The sine series against the sine of a slightly larger angle. */
  lemma SinShifted(sine: real -> real, pi: real, u: int, t: real, d: real)
    requires IsSine(sine, pi) && 0 <= u <= Q16_PI_OVER_4
    requires 0.41 <= d <= 0.71 && 65536.0 * (t - Radians(u)) == d
    ensures -2.0 < SinRaw(u) as real - 65536.0 * sine(t) < 2.0
  {
    hide IsSine, SinRaw, SinPoly, Times;
    SinRawError(u);
    SeriesEnclosure(sine, pi, Radians(u));
    CosineRange(sine, pi, u);
    Tangent(sine, pi, Radians(u), t, d);
    TimesBetween(d, sine(pi / 2.0 - Radians(u)), 0.41, 0.71, 0.69, 1.00001);
  }

  /** The cosine series against the cosine of an angle smaller by at most one tick. */
  lemma CosShifted(sine: real -> real, pi: real, w: int, t: real, d: real)
    requires IsSine(sine, pi) && 0 <= w <= Q16_PI_OVER_4
    requires 0.0 <= d <= 1.0 && 65536.0 * (t - (pi / 2.0 - Radians(w))) == d
    ensures -2.0 < CosRaw(w) as real - 65536.0 * sine(t) < 2.0
  {
    hide IsSine, CosRaw, CosPoly, Times;
    var s := pi / 2.0 - Radians(w);
    CosErrorBounds(sine, pi, w);
    CosineRange(sine, pi, w);
    assert pi / 2.0 - s == Radians(w);
    Tangent(sine, pi, s, t, d);
    TimesBetween(d, sine(Radians(w)), 0.0, 1.0, 0.0, 0.751);
  }

  /** `cos_raw` against the cosine itself. */
  lemma CosErrorBounds(sine: real -> real, pi: real, w: int)
    requires IsSine(sine, pi) && 0 <= w <= Q16_PI_OVER_4
    ensures -1.24 < CosRaw(w) as real - 65536.0 * sine(pi / 2.0 - Radians(w)) < 1.999
  {
    hide IsSine, CosRaw, CosPoly, Times, Pow;
    var q := Radians(w);
    CosErrorResidues(w);
    CosineBetween(sine, pi, q);
    HighPowers(q);
    if q < 0.47 {
      SixthPower(q);
    } else {
      EighthPower(q);
    }
  }

  lemma CosineBetween(sine: real -> real, pi: real, q: real)
    requires IsSine(sine, pi) && 0.0 <= q <= 0.78541
    ensures CosPoly(q) + Pow(q, 8) / 40320.0 - Pow(q, 10) / 3628800.0 <= sine(pi / 2.0 - q)
            <= CosPoly(q) + Pow(q, 8) / 40320.0
  {
    hide Pow, CosPoly;
    assert q + (pi / 2.0 - q) == pi / 2.0;
  }

  lemma SixthPower(q: real)
    requires 0.0 <= q <= 0.47
    ensures Times(Times(Times(q, q), Times(q, q)), Times(q, q)) <= 0.01078
    ensures q <= 0.45 ==> Times(Times(Times(q, q), Times(q, q)), Times(q, q)) <= 0.00831
  {
    hide Times;
    var q2 := Times(q, q);
    var c := if q <= 0.45 then 0.45 else 0.47;
    ScaledDown(q, q, c, c);
    ScaledDown(q2, q2, c * c, c * c);
    ScaledDown(Times(q2, q2), q2, c * c * c * c, c * c);
  }

  lemma ScaledUp(a: real, b: real, ca: real, cb: real)
    requires 0.0 <= ca <= a && 0.0 <= cb <= b
    ensures ca * cb <= Times(a, b)
  {
    MulMono(ca, a, cb, b);
  }

  lemma EighthPower(q: real)
    requires 0.47 <= q
    ensures Pow(q, 8) >= 0.0023
  {
    hide Times;
    ScaledUp(Pow(q, 0), q, 1.0, 0.47);
    ScaledUp(Pow(q, 1), q, 0.47, 0.47);
    ScaledUp(Pow(q, 2), q, 0.2209, 0.47);
    ScaledUp(Pow(q, 3), q, 0.1038, 0.47);
    ScaledUp(Pow(q, 4), q, 0.0487, 0.47);
    ScaledUp(Pow(q, 5), q, 0.0228, 0.47);
    ScaledUp(Pow(q, 6), q, 0.0107, 0.47);
    ScaledUp(Pow(q, 7), q, 0.005, 0.47);
  }

  // ---------------------------------------------------------------------------------
  // Half a wave
  // ---------------------------------------------------------------------------------

  lemma SinFirstHalf(z: int)
    requires 0 <= z <= Q16_PI
    ensures Sin(z) == if z <= Q16_PI_OVER_2 then Quarter(z) else Quarter(Q16_PI - z)
  {
    hide Quarter;
    assert z % Q16_TWO_PI == z;
    if z == Q16_PI {
      assert Quarter(0) == 0 by { QuarterAtZero(); }
    }
  }

  lemma QuarterAtZero()
    ensures Quarter(0) == 0
  {
    assert MulShift(0, 0) == 0;
  }

  /** What pi/2 is short of its constant, in LSB. */
  function HalfPiDefect(pi: real): real {
    Q16_PI_OVER_2 as real - 32768.0 * pi
  }

  /**
    Beyond pi/4 the sine is within 2 LSB of the angle itself, and also of the angle less the
    defect of pi/2, which is what the cosine asks for.
   */
  lemma BeyondFirstEighth(sine: real -> real, pi: real, z: int, e: real, t: real)
    requires IsSine(sine, pi) && Q16_PI_OVER_4 < z <= Q16_PI
    requires e in {0.0, HalfPiDefect(pi)} && 65536.0 * (Radians(z) - t) == e
    ensures -2.0 < Sin(z) as real - 65536.0 * sine(t) < 2.0
  {
    hide IsSine, SinRaw, CosRaw, Sin;
    PiBounds(sine, pi);
    SinFirstHalf(z);
    Odd(sine, pi, t);
    if z <= Q16_PI_OVER_2 {
      CosShifted(sine, pi, Q16_PI_OVER_2 - z, t, HalfPiDefect(pi) - e);
    } else if z < Q16_PI - Q16_PI_OVER_4 {
      CosShifted(sine, pi, Q16_PI_OVER_2 - (Q16_PI - z), pi - t, 1.0 - HalfPiDefect(pi) + e);
    } else {
      SinShifted(sine, pi, Q16_PI - z, pi - t, 65536.0 * pi - Q16_PI as real + e);
    }
  }

  /** The sine meets the announced accuracy on [0, pi]. */
  lemma SinOnFirstHalf(sine: real -> real, pi: real, x: int)
    requires IsSine(sine, pi) && 0 <= x <= Q16_PI
    ensures SinMeets(sine, x)
  {
    hide IsSine, Sin;
    if x <= Q16_PI_OVER_4 {
      SinFirstHalf(x);
      SinErrorBelowTwo(x);
      SinFirstEighth(sine, pi, x);
    } else {
      BeyondFirstEighth(sine, pi, x, 0.0, Radians(x));
    }
  }

  /** On [0, pi/4] the error of the sine, upwards by the series and downwards by less than 1.05. */
  lemma SinFirstEighth(sine: real -> real, pi: real, u: int)
    requires IsSine(sine, pi) && 0 <= u <= Q16_PI_OVER_4
    ensures -1.05 < SinRaw(u) as real - 65536.0 * sine(Radians(u)) <= SinError(u)
  {
    hide IsSine, SinRaw, SinPoly;
    SinRawError(u);
    SeriesEnclosure(sine, pi, Radians(u));
  }

  // ---------------------------------------------------------------------------------
  // Negative angles
  // ---------------------------------------------------------------------------------

  lemma SinOfNegative(n: int)
    requires 1 <= n <= Q16_PI
    ensures Sin(-n) == -Quarter(if n < Q16_PI_OVER_2 then n - 1 else Q16_PI + 1 - n)
  {
    hide Quarter;
    assert -n % Q16_TWO_PI == Q16_TWO_PI - n;
  }

  lemma CosPolyBelow(q: real)
    requires 0.0 <= q <= 0.78541
    ensures CosPoly(q) <= 1.0 - 0.474 * Times(q, q)
  {
    hide Times;
    var q2 := Times(q, q);
    var q3, q4 := Times(q2, q), Times(q2, q2);
    PowerBounds(q, q2, q3, q4, Times(q3, q2), Times(q4, q2), Times(Times(q3, q2), q2));
    ScaledDown(q2, q2, q2, 0.6169);
  }

  /** The powers below `c`, one of the points where the estimates change. */
  lemma PowersBelow(q: real, c: real)
    requires 0.0 <= q <= c && c in {0.2, 0.4, 0.5, 0.6}
    ensures FifthPower(q) <= if c == 0.2 then 0.00032 else 0.08
    ensures Times(FifthPower(q), Times(q, q)) <= if c == 0.5 then 0.00782 else 0.028
    ensures c == 0.4 ==> 0.0 <= Pow(q, 9) <= 0.0103
  {
    hide Times, Pow;
    var q2 := Times(q, q);
    ScaledDown(q, q, c, c);
    ScaledDown(q2, q, c * c, c);
    ScaledDown(Times(q2, q), q2, c * c * c, c * c);
    ScaledDown(FifthPower(q), q2, c * c * c * (c * c), c * c);
    if c == 0.4 {
      NinthPower(q);
    }
  }

  lemma NinthPower(q: real)
    requires 0.0 <= q <= 0.4
    ensures 0.0 <= Pow(q, 9) <= 0.0103
  {
    hide Times;
    ScaledDown(Pow(q, 0), q, 1.0, 0.4);
    ScaledDown(Pow(q, 1), q, 0.4, 0.4);
    ScaledDown(Pow(q, 2), q, 0.16, 0.4);
    ScaledDown(Pow(q, 3), q, 0.064, 0.4);
    ScaledDown(Pow(q, 4), q, 0.0256, 0.4);
    ScaledDown(Pow(q, 5), q, 0.01024, 1.0);
    ScaledDown(Pow(q, 6), q, 0.01024, 1.0);
    ScaledDown(Pow(q, 7), q, 0.01024, 1.0);
    ScaledDown(Pow(q, 8), q, 0.01024, 1.0);
  }

  /** The series falls short of the sine by less than 2 LSB less the cosine. */
  lemma Shortfall(sine: real -> real, pi: real, u: int)
    requires IsSine(sine, pi) && 0 <= u <= Q16_PI_OVER_4
    ensures 65536.0 * sine(Radians(u)) - SinRaw(u) as real + sine(pi / 2.0 - Radians(u)) < 1.9985
  {
    hide IsSine, SinRaw, SinPoly, CosPoly, Times, Pow, FifthPower, PowersOf;
    var q := Radians(u);
    SinErrorResidues(u);
    SeriesEnclosure(sine, pi, q);
    SineBelow(sine, pi, q);
    CosPolyBelow(q);
    if q < 0.2 {
      PowersBelow(q, 0.2);
      SmallResidue(u);
      CosineRange(sine, pi, u);
    } else if q < 0.4 {
      PowersBelow(q, 0.4);
      ScaledUp(q, q, 0.2, 0.2);
    } else {
      ScaledUp(q, q, 0.4, 0.4);
    }
  }

  lemma SineBelow(sine: real -> real, pi: real, q: real)
    requires IsSine(sine, pi) && 0.0 <= q <= 0.78541
    ensures sine(q) <= SinPoly(q) + Pow(q, 9) / 362880.0
  {
  }

  lemma SmallResidue(u: int)
    requires 0 <= u <= Q16_PI_OVER_4
    ensures 0 <= PowersOf(u).x5 % 120 && (PowersOf(u).x5 >= 0 ==> PowersOf(u).x5 % 120 <= PowersOf(u).x5)
  {
  }

  /** Down to -51473, the sine of the code is the series at one tick less. */
  lemma SinBelowZero(sine: real -> real, pi: real, n: int)
    requires IsSine(sine, pi) && 1 <= n <= Q16_PI_OVER_4 + 1
    ensures SinMeets(sine, -n)
  {
    hide IsSine, SinRaw, Sin, Times;
    var u := n - 1;
    SinOfNegative(n);
    NegatedRadians(n);
    Odd(sine, pi, Radians(n));
    Shortfall(sine, pi, u);
    SinFirstEighth(sine, pi, u);
    SinErrorBelowTwo(u);
    CosineRange(sine, pi, u);
    Tangent(sine, pi, Radians(u), Radians(n), 1.0);
    assert Times(1.0, sine(pi / 2.0 - Radians(u))) == sine(pi / 2.0 - Radians(u)) by {
      TimesOne(sine(pi / 2.0 - Radians(u)));
    }
  }

  lemma TimesOne(c: real)
    ensures Times(1.0, c) == c
  {
  }

  lemma NegatedRadians(n: int)
    ensures Radians(-n) == -Radians(n)
  {
  }

  /** From there down to -51597 it is the cosine series. */
  lemma SinPastEighth(sine: real -> real, pi: real, n: int)
    requires IsSine(sine, pi) && 51474 <= n <= 51597
    ensures SinMeets(sine, -n)
  {
    hide IsSine, CosRaw, Sin, Times, CosPoly, Pow;
    var w := Q16_PI_OVER_2 - (n - 1);
    var s := pi / 2.0 - Radians(w);
    var d := 1.0 + HalfPiDefect(pi);
    SinOfNegative(n);
    NegatedRadians(n);
    Odd(sine, pi, Radians(n));
    PiBounds(sine, pi);
    CosErrorNearTheEnd(w);
    CosErrorBounds(sine, pi, w);
    CosineBetween(sine, pi, Radians(w));
    HighPowers(Radians(w));
    SineNearTheEnd(sine, pi, Radians(w));
    assert pi / 2.0 - s == Radians(w);
    Tangent(sine, pi, s, Radians(n), d);
    TimesBetween(d, sine(Radians(w)), 0.0, 1.2921, 0.0, 0.708);
  }

  lemma SineNearTheEnd(sine: real -> real, pi: real, q: real)
    requires IsSine(sine, pi) && 0.7834 <= q <= 0.78541
    ensures 0.0 <= sine(q) <= 0.708
  {
    hide IsSine, Times;
    var q2 := Times(q, q);
    var q3, q4 := Times(q2, q), Times(q2, q2);
    var q5 := Times(q3, q2);
    SeriesEnclosure(sine, pi, q);
    PolyRange(q);
    PowerBounds(q, q2, q3, q4, q5, Times(q4, q2), Times(q5, q2));
    ScaledUp(q, q, 0.7834, 0.7834);
    ScaledUp(q2, q, 0.6137, 0.7834);
  }

  /** From -57945 to -102943 the cosine series is evaluated far enough below pi/4. */
  lemma SinSecondEighth(sine: real -> real, pi: real, n: int)
    requires IsSine(sine, pi) && 57945 <= n < Q16_PI_OVER_2
    ensures SinMeets(sine, -n)
  {
    hide IsSine, CosRaw, Sin, Times, CosPoly, Pow;
    var w := Q16_PI_OVER_2 - (n - 1);
    var s := pi / 2.0 - Radians(w);
    var d := 1.0 + HalfPiDefect(pi);
    SinOfNegative(n);
    NegatedRadians(n);
    Odd(sine, pi, Radians(n));
    PiBounds(sine, pi);
    CosErrorResidues(w);
    EvenResidueFloor(w);
    CosErrorBounds(sine, pi, w);
    CosineBetween(sine, pi, Radians(w));
    HighPowers(Radians(w));
    EighthPowerBelow(Radians(w));
    CosineRange(sine, pi, w);
    SineBelowAngle(sine, pi, Radians(w));
    assert pi / 2.0 - s == Radians(w);
    Tangent(sine, pi, s, Radians(n), d);
    TimesBetween(d, sine(Radians(w)), 0.0, 1.2921, 0.0, 0.6868);
  }

  lemma EvenResidueFloor(w: int)
    requires 0 <= w <= Q16_PI_OVER_4
    ensures var p := EvenPowersOf(w);
            360 * (p.x2 % 2) - 30 * (p.x4 % 24) + p.x6 % 720 >= -690
  {
  }

  lemma SineBelowAngle(sine: real -> real, pi: real, q: real)
    requires IsSine(sine, pi) && 0.0 <= q
    ensures sine(q) <= q
  {
    assert 0.0 + 0.0 == 0.0;
    assert sine(0.0) == 0.0;
  }

  lemma EighthPowerBelow(q: real)
    requires 0.0 <= q <= 0.6868
    ensures Pow(q, 8) <= 0.0496
  {
    hide Times;
    ScaledDown(Pow(q, 0), q, 1.0, 0.6868);
    ScaledDown(Pow(q, 1), q, 0.6868, 0.6868);
    ScaledDown(Pow(q, 2), q, 0.4717, 0.6868);
    ScaledDown(Pow(q, 3), q, 0.324, 0.6868);
    ScaledDown(Pow(q, 4), q, 0.22253, 0.6868);
    ScaledDown(Pow(q, 5), q, 0.15284, 0.6868);
    ScaledDown(Pow(q, 6), q, 0.10498, 0.6868);
    ScaledDown(Pow(q, 7), q, 0.07211, 0.6868);
  }

  /** From -102944 to -132000 the angle is folded at pi, and the series is short. */
  lemma SinThirdEighth(sine: real -> real, pi: real, n: int)
    requires IsSine(sine, pi) && Q16_PI_OVER_2 <= n <= 132000
    ensures SinMeets(sine, -n)
  {
    hide IsSine, CosRaw, Sin, Times, CosPoly, Pow;
    var w := n - Q16_PI_OVER_2;
    var q := Radians(w);
    var s, d := pi / 2.0 - q, HalfPiDefect(pi);
    SinOfNegative(n);
    NegatedRadians(n);
    Odd(sine, pi, Radians(n));
    PiBounds(sine, pi);
    CosErrorResidues(w);
    EvenResidueCeiling(w);
    SixthPower(q);
    CosErrorBounds(sine, pi, w);
    SeriesEnclosure(sine, pi, q);
    CosineRange(sine, pi, w);
    SineBelowAngle(sine, pi, q);
    assert pi / 2.0 - s == q;
    Tangent(sine, pi, s, pi - Radians(n), -d);
    NegatedTimes(d, sine(q));
    TimesBetween(d, sine(q), 0.0, 0.2921, 0.0, 0.45);
  }

  lemma EvenResidueCeiling(w: int)
    requires 0 <= w <= Q16_PI_OVER_4
    ensures var p := EvenPowersOf(w);
            p.x6 >= 0 ==> 360 * (p.x2 % 2) - 30 * (p.x4 % 24) + p.x6 % 720 <= 360 + p.x6
  {
  }

  /** At the far end, from -pi to -166567, the series is evaluated close to zero again. */
  lemma SinFarLeft(sine: real -> real, pi: real, n: int)
    requires IsSine(sine, pi) && 166567 <= n <= Q16_PI
    ensures SinMeets(sine, -n)
  {
    hide IsSine, SinRaw, Sin, Times;
    var u := Q16_PI + 1 - n;
    var d := 65536.0 * pi - (Q16_PI + 1) as real;
    SinOfNegative(n);
    NegatedRadians(n);
    Odd(sine, pi, Radians(n));
    PiBounds(sine, pi);
    SinFirstEighth(sine, pi, u);
    CosineRange(sine, pi, u);
    Tangent(sine, pi, Radians(u), pi - Radians(n), d);
    NegatedTimes(d, sine(pi / 2.0 - Radians(u)));
    TimesBetween(-d, sine(pi / 2.0 - Radians(u)), 0.0, 0.584, 0.0, sine(pi / 2.0 - Radians(u)));
    Headroom(sine, pi, u);
  }

  lemma Headroom(sine: real -> real, pi: real, u: int)
    requires IsSine(sine, pi) && 0 <= u <= 39321
    ensures SinError(u) + 0.584 * sine(pi / 2.0 - Radians(u)) < 1.99
  {
    hide IsSine, SinError, CosPoly, Times, FifthPower, PowersOf;
    var q := Radians(u);
    SinErrorResidues(u);
    SeventhResidue(u);
    if q < 0.5 {
      PowersBelow(q, 0.5);
      CosineRange(sine, pi, u);
    } else {
      PowersBelow(q, 0.6);
      SeriesEnclosure(sine, pi, q);
      CosPolyBelow(q);
      ScaledUp(q, q, 0.5, 0.5);
    }
  }

  lemma SeventhResidue(u: int)
    requires 0 <= u <= Q16_PI_OVER_4
    ensures PowersOf(u).x7 >= 0 ==> PowersOf(u).x7 % 5040 <= PowersOf(u).x7
    ensures PowersOf(u).x3 % 6 <= 5 && PowersOf(u).x5 % 120 >= 0
  {
  }

  // ---------------------------------------------------------------------------------
  // Exactly how far
  // ---------------------------------------------------------------------------------

  lemma SinAt51598()
    ensures Sin(-51598) == -46428
  {
    assert -51598 % Q16_TWO_PI == 360177;
    assert Fold(360177) == 51597;
    assert MulShift(51347, 51347) == 40230 && MulShift(40230, 40230) == 24695 && MulShift(24695, 40230) == 15159;
    assert CosRaw(51347) == 46428;
  }

  /** Beyond -51597 the announced 2 LSB are exceeded. */
  lemma SinFails(sine: real -> real, pi: real)
    requires IsSine(sine, pi)
    ensures Sin(-51598) as real - 65536.0 * sine(Radians(-51598)) > 2.0
  {
    hide IsSine, Sin, Pow;
    var r := 51345.708 / 65536.0;
    SinAt51598();
    NegatedRadians(51598);
    Odd(sine, pi, Radians(51598));
    PiBounds(sine, pi);
    Lipschitz(sine, pi, pi / 2.0 - r, Radians(51598), 0.001 / 65536.0);
    CosineBetween(sine, pi, r);
    PowersAtWitness();
    HighPowers(r);
  }

  lemma PowersAtWitness()
    ensures var r := 51345.708 / 65536.0;
            65536.0 * CosPoly(r) > 46429.8 && Pow(r, 8) >= 0.1419
  {
    var r := 51345.708 / 65536.0;
    var r2 := Times(r, r);
    assert 0.6138304 < r2 < 0.6138305;
    ScaledUp(Pow(r, 0), r, 1.0, 0.78347);
    ScaledUp(Pow(r, 1), r, 0.78347, 0.78347);
    ScaledUp(Pow(r, 2), r, 0.61382, 0.78347);
    ScaledUp(Pow(r, 3), r, 0.4809, 0.78347);
    ScaledUp(Pow(r, 4), r, 0.37677, 0.78347);
    ScaledUp(Pow(r, 5), r, 0.29518, 0.78347);
    ScaledUp(Pow(r, 6), r, 0.23126, 0.78347);
    ScaledUp(Pow(r, 7), r, 0.18118, 0.78347);
  }

  /** From -51597 to pi, from -132000 to -57945 and from -pi to -166567. */
  predicate SinCovered(x: int) {
    -51597 <= x <= Q16_PI || -132000 <= x <= -57945 || -Q16_PI <= x <= -166567
  }

  /** There the sine is within the announced 2 LSB. */
  lemma SinWithinTwo(sine: real -> real, pi: real, x: int)
    requires IsSine(sine, pi) && SinCovered(x)
    ensures SinMeets(sine, x)
  {
    hide IsSine, SinMeets;
    if x >= 0 {
      SinOnFirstHalf(sine, pi, x);
    } else if x >= -51473 {
      SinBelowZero(sine, pi, -x);
    } else if x >= -51597 {
      SinPastEighth(sine, pi, -x);
    } else if x > -Q16_PI_OVER_2 {
      SinSecondEighth(sine, pi, -x);
    } else if x >= -132000 {
      SinThirdEighth(sine, pi, -x);
    } else {
      SinFarLeft(sine, pi, -x);
    }
  }

  /** The announced accuracy holds on all of [least, pi] exactly if `least` is at least -51597. */
  lemma SinAccuracyExact(sine: real -> real, pi: real, least: int)
    requires IsSine(sine, pi) && least <= Q16_PI
    ensures (forall x :: least <= x <= Q16_PI ==> SinMeets(sine, x)) <==> least >= -51597
  {
    hide IsSine;
    SinFails(sine, pi);
    assert !SinMeets(sine, -51598);
    forall x | -51597 <= x <= Q16_PI
      ensures SinMeets(sine, x)
    {
      SinWithinTwo(sine, pi, x);
    }
  }

  // ---------------------------------------------------------------------------------
  // Cosine
  // ---------------------------------------------------------------------------------

  /** Just below pi/4 the sine series against the cosine of the complement. */
  lemma CosNearTheEnd(sine: real -> real, pi: real, z: int, t: real)
    requires IsSine(sine, pi) && 50143 <= z <= Q16_PI_OVER_4
    requires 65536.0 * (Radians(z) - t) == HalfPiDefect(pi)
    ensures -2.0 < SinRaw(z) as real - 65536.0 * sine(t) < 2.0
  {
    hide IsSine, SinRaw, CosPoly, Times;
    var q, d := Radians(z), HalfPiDefect(pi);
    var c := sine(pi / 2.0 - q);
    PiBounds(sine, pi);
    SinErrorNearTheEnd(z);
    SinFirstEighth(sine, pi, z);
    SeriesEnclosure(sine, pi, q);
    CosPolyBelow(q);
    ScaledUp(q, q, 0.7651, 0.7651);
    CosineRange(sine, pi, z);
    Tangent(sine, pi, q, t, -d);
    NegatedTimes(d, c);
    TimesBetween(d, c, 0.0, 0.292, 0.0, 0.7226);
  }

  /** The cosine is within the announced 2 LSB from -102943 to 52801. */
  lemma CosWithinTwo(sine: real -> real, pi: real, x: int)
    requires IsSine(sine, pi) && -102943 <= x <= 52801
    ensures CosMeets(sine, pi, x)
  {
    hide IsSine, SinRaw, Sin;
    var z, t := Q16_PI_OVER_2 - x, pi / 2.0 - Radians(x);
    if z <= Q16_PI_OVER_4 {
      SinFirstHalf(z);
      CosNearTheEnd(sine, pi, z, t);
    } else {
      BeyondFirstEighth(sine, pi, z, HalfPiDefect(pi), t);
    }
  }

  /** At 52802 the cosine exceeds the announced 2 LSB. */
  lemma CosFails(sine: real -> real, pi: real)
    requires IsSine(sine, pi)
    ensures Cos(52802) as real - 65536.0 * sine(pi / 2.0 - Radians(52802)) > 2.0
  {
    hide IsSine, Sin;
    var r := 50141.708 / 65536.0;
    PiBounds(sine, pi);
    Lipschitz(sine, pi, pi / 2.0 - Radians(52802), r, 0.001 / 65536.0);
    SeriesEnclosure(sine, pi, r);
    CosAt52802();
  }

  lemma CosAt52802()
    ensures Cos(52802) == 45393
    ensures 65536.0 * SinPoly(50141.708 / 65536.0) < 45390.9
  {
    assert 50142 % Q16_TWO_PI == 50142;
    assert Fold(50142) == 50142;
    assert MulShift(50142, 50142) == 38363 && MulShift(38363, 50142) == 29351;
    assert MulShift(29351, 38363) == 17181 && MulShift(17181, 38363) == 10057;
    assert SinRaw(50142) == 45393;
    SinPolyAt52802();
  }

  lemma SinPolyAt52802()
    ensures 65536.0 * SinPoly(50141.708 / 65536.0) < 45390.9
  {
    var r := 50141.708 / 65536.0;
    var r2 := Times(r, r);
    assert 0.5853806 < r2 < 0.5853807;
  }

  /** The announced accuracy of the cosine holds on all of [-102943, most] exactly up to 52801. */
  lemma CosAccuracyExact(sine: real -> real, pi: real, most: int)
    requires IsSine(sine, pi) && most >= -102943
    ensures (forall x :: -102943 <= x <= most ==> CosMeets(sine, pi, x)) <==> most <= 52801
  {
    hide IsSine, Cos;
    CosFails(sine, pi);
    assert !CosMeets(sine, pi, 52802);
    forall x | -102943 <= x <= 52801
      ensures CosMeets(sine, pi, x)
    {
      CosWithinTwo(sine, pi, x);
    }
  }
}
