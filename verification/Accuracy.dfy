/**
  How far `sin_approx` and `cos_approx` (bare_metal_foc/src/transforms.c) are from sine and
  cosine themselves, for every 32-bit angle.

  The real sine enters as a parameter with six textbook facts, `IsSine`; every theorem holds
  for any function that has them.
 */
module Accuracy {
  import opened FixedPoint
  import opened Trig

  function Pow(x: real, n: nat): real {
    if n == 0 then 1.0 else Times(Pow(x, n - 1), x)
  }

  /**
    `sine` is odd and symmetric about pi/2, moves no faster than its argument, follows its tangent
    up to half the squared distance, and on [0, 0.8] it and its complement lie between consecutive
    Maclaurin polynomials.
   */
  ghost predicate IsSine(sine: real -> real, pi: real) {
    && 3.1415926535 < pi < 3.1415926536
    && (forall x, y :: x + y == 0.0 ==> sine(x) == -sine(y))
    && (forall x, y :: x + y == pi ==> sine(x) == sine(y))
    && (forall x, y :: x <= y ==> x - y <= sine(y) - sine(x) <= y - x)
    && (forall x, y, z :: x + z == pi / 2.0 ==> NearTangent(y - x, sine(y) - sine(x), sine(z)))
    && (forall x :: 0.0 <= x <= 0.8 ==> SinPoly(x) <= sine(x) <= SinPoly(x) + Pow(x, 9) / 362880.0)
    && (forall x, y :: 0.0 <= x <= 0.8 && x + y == pi / 2.0
          ==> CosPoly(x) + Pow(x, 8) / 40320.0 - Pow(x, 10) / 3628800.0 <= sine(y)
              <= CosPoly(x) + Pow(x, 8) / 40320.0)
  }

  /** `rise` is what the tangent of slope `slope` gains over `step`, up to half the square of `step`. */
  predicate NearTangent(step: real, rise: real, slope: real) {
    -Times(step, step) <= 2.0 * (rise - Times(step, slope)) <= Times(step, step)
  }

  /** A move of `d` LSB, at most 1.3, changes 65536 times the sine by `d` times the cosine. */
  lemma Tangent(sine: real -> real, pi: real, x: real, y: real, d: real)
    requires IsSine(sine, pi) && -1.3 <= d <= 1.3 && 65536.0 * (y - x) == d
    ensures -0.0001 <= 65536.0 * (sine(y) - sine(x)) - Times(d, sine(pi / 2.0 - x)) <= 0.0001
  {
    var z := pi / 2.0 - x;
    assert x + z == pi / 2.0;
    assert NearTangent(y - x, sine(y) - sine(x), sine(z));
    SmallMove(y - x, d, sine(z));
  }

  lemma SmallMove(step: real, d: real, slope: real)
    requires -1.3 <= d <= 1.3 && 65536.0 * step == d
    ensures 65536.0 * Times(step, slope) == Times(d, slope) && 0.0 <= 65536.0 * Times(step, step) <= 0.0001
  {
    assert 65536.0 * (65536.0 * Times(step, step)) == d * d;
    if d >= 0.0 { MulMono(d, 1.3, d, 1.3); } else { MulMono(-d, 1.3, -d, 1.3); }
  }

  lemma Odd(sine: real -> real, pi: real, x: real)
    requires IsSine(sine, pi)
    ensures sine(-x) == -sine(x) && sine(pi - x) == sine(x) && sine(x + pi) == -sine(x)
  {
    assert x + -x == 0.0 && pi - x + x == pi && x + pi + -x == pi;
  }

  lemma Lipschitz(sine: real -> real, pi: real, x: real, y: real, d: real)
    requires IsSine(sine, pi) && -d <= x - y <= d
    ensures -d <= sine(x) - sine(y) <= d
  {
  }

  lemma PiBounds(sine: real -> real, pi: real)
    requires IsSine(sine, pi)
    ensures 205887.416 < 65536.0 * pi < 205887.4162
  {
  }

  lemma HighPowers(x: real)
    requires 0.0 <= x <= 0.78541
    ensures 0.0 <= Pow(x, 8) <= 0.145 && 0.0 <= Pow(x, 9) <= 0.114
    ensures 0.0 <= Pow(x, 10) <= Pow(x, 9) <= Pow(x, 8)
  {
    hide Times;
    ScaledDown(Pow(x, 0), x, 1.0, 0.78541);
    ScaledDown(Pow(x, 1), x, 0.78541, 0.78541);
    ScaledDown(Pow(x, 2), x, 0.6169, 0.78541);
    ScaledDown(Pow(x, 3), x, 0.48455, 0.78541);
    ScaledDown(Pow(x, 4), x, 0.3806, 0.78541);
    ScaledDown(Pow(x, 5), x, 0.29893, 0.78541);
    ScaledDown(Pow(x, 6), x, 0.23479, 0.78541);
    ScaledDown(Pow(x, 7), x, 0.18441, 0.78541);
    ScaledDown(Pow(x, 8), x, 0.14484, 0.78541);
    ScaledDown(Pow(x, 9), x, 0.114, 0.78541);
  }

  /** On [0, pi/4] the two polynomials are within a quarter of an LSB of sine and cosine. */
  lemma SeriesEnclosure(sine: real -> real, pi: real, x: real)
    requires IsSine(sine, pi) && 0.0 <= x <= 0.78541
    ensures 0.0 <= sine(x) - SinPoly(x) <= 0.00000032
    ensures 0.0 <= sine(pi / 2.0 - x) - CosPoly(x) <= 0.0000036
  {
    hide Pow, SinPoly, CosPoly;
    HighPowers(x);
    var y := pi / 2.0 - x;
    assert x + y == pi / 2.0;
  }

  /** One quarter wave against the sine, in LSB. */
  lemma QuarterSine(sine: real -> real, pi: real, u: int)
    requires IsSine(sine, pi) && 0 <= u <= Q16_PI_OVER_2
    ensures -1.59 < Quarter(u) as real - 65536.0 * sine(Radians(u)) < 2.303
  {
    hide IsSine, SinRaw, CosRaw, SinPoly, CosPoly;
    QuarterError(u);
    if u <= Q16_PI_OVER_4 {
      SeriesEnclosure(sine, pi, Radians(u));
    } else {
      CosRawError(Q16_PI_OVER_2 - u);
      var w := Radians(Q16_PI_OVER_2 - u);
      SeriesEnclosure(sine, pi, w);
      PiBounds(sine, pi);
      Lipschitz(sine, pi, pi / 2.0 - w, Radians(u), 0.2921 / 65536.0);
    }
  }

  /** One turn: the sign and the folding cost what the rounded constants are off. */
  lemma FoldedSine(sine: real -> real, pi: real, y: int)
    requires IsSine(sine, pi) && 0 <= y < Q16_TWO_PI
    ensures -3.15 < (Sign(y) * Quarter(Fold(y))) as real - 65536.0 * sine(Radians(y)) < 3.15
  {
    hide IsSine, Quarter;
    var u, x := Fold(y), Radians(y);
    QuarterSine(sine, pi, u);
    PiBounds(sine, pi);
    Odd(sine, pi, x);
    Odd(sine, pi, x - pi);
    if y < Q16_PI {
      if u != y {
        Lipschitz(sine, pi, pi - x, Radians(u), 0.42 / 65536.0);
      }
    } else if u == y - Q16_PI {
      Lipschitz(sine, pi, x - pi, Radians(u), 0.42 / 65536.0);
    } else {
      Lipschitz(sine, pi, pi - (x - pi), Radians(u), 0.84 / 65536.0);
    }
  }

  lemma OneTurn(sine: real -> real, pi: real, x: real)
    requires IsSine(sine, pi)
    ensures sine(x + 2.0 * pi) == sine(x)
  {
    hide IsSine;
    Odd(sine, pi, x);
    Odd(sine, pi, x + pi);
    assert x + pi + pi == x + 2.0 * pi;
  }

  /** Sine has the period 2 pi. */
  lemma {:induction false} Turns(sine: real -> real, pi: real, x: real, k: int)
    requires IsSine(sine, pi)
    ensures sine(x - Turned(k, pi)) == sine(x)
    decreases if k >= 0 then k else -k
  {
    hide IsSine, Turned;
    TurnedStep(k, pi);
    if k > 0 {
      Turns(sine, pi, x, k - 1);
      OneTurn(sine, pi, x - Turned(k, pi));
      assert x - Turned(k, pi) + 2.0 * pi == x - Turned(k - 1, pi);
    } else if k < 0 {
      Turns(sine, pi, x, k + 1);
      OneTurn(sine, pi, x - Turned(k + 1, pi));
      assert x - Turned(k + 1, pi) + 2.0 * pi == x - Turned(k, pi);
    } else {
      assert x - Turned(k, pi) == x;
    }
  }

  /** The angle of `k` turns. */
  function Turned(k: int, pi: real): real {
    k as real * (2.0 * pi)
  }

  lemma TurnedStep(k: int, pi: real)
    ensures Turned(0, pi) == 0.0
    ensures Turned(k - 1, pi) == Turned(k, pi) - 2.0 * pi && Turned(k + 1, pi) == Turned(k, pi) + 2.0 * pi
  {
  }

  /** The turns between `x` and the first one, counted with `Q16_TWO_PI`. */
  function TurnsOf(x: int): int {
    x / Q16_TWO_PI
  }

  function Distance(k: int): nat {
    if k >= 0 then k else -k
  }

  /**
    For every angle `sin_approx` is within 3.15 LSB of the sine, plus 0.168 LSB for each turn by
    which the angle is reduced, which is what `Q16_TWO_PI` exceeds 2 pi by.
   */
  lemma SinAccuracy(sine: real -> real, pi: real, x: int)
    requires IsSine(sine, pi)
    ensures var bound := 3.15 + 0.168 * Distance(TurnsOf(x)) as real;
            -bound < Sin(x) as real - 65536.0 * sine(Radians(x)) < bound
  {
    hide IsSine, Quarter, Fold, Sign;
    var k, y := TurnsOf(x), x % Q16_TWO_PI;
    assert x == k * Q16_TWO_PI + y;
    FoldedSine(sine, pi, y);
    Turns(sine, pi, Radians(x), k);
    PiBounds(sine, pi);
    var z := Radians(x) - Turned(k, pi);
    Drift(k, Q16_TWO_PI as real - 131072.0 * pi);
    assert 65536.0 * (z - Radians(y)) == k as real * (Q16_TWO_PI as real - 131072.0 * pi);
    Lipschitz(sine, pi, z, Radians(y), 0.168 * Distance(k) as real / 65536.0);
  }

  lemma Drift(k: int, d: real)
    requires -0.168 <= d <= 0.168
    ensures -0.168 * Distance(k) as real <= k as real * d <= 0.168 * Distance(k) as real
  {
  }

  /** `cos_approx` adds the rounding of pi/2. */
  lemma CosAccuracy(sine: real -> real, pi: real, x: int)
    requires IsSine(sine, pi)
    ensures var bound := 3.45 + 0.168 * Distance(TurnsOf(Q16_PI_OVER_2 - x)) as real;
            -bound < Cos(x) as real - 65536.0 * sine(pi / 2.0 - Radians(x)) < bound
  {
    hide IsSine, Sin, Distance;
    SinAccuracy(sine, pi, Q16_PI_OVER_2 - x);
    PiBounds(sine, pi);
    Lipschitz(sine, pi, Radians(Q16_PI_OVER_2 - x), pi / 2.0 - Radians(x), 0.293 / 65536.0);
  }

  /** Over [-pi, pi] the sine is within 3.318 LSB. */
  lemma SinAccuracyOneTurn(sine: real -> real, pi: real, x: int)
    requires IsSine(sine, pi) && -Q16_PI <= x <= Q16_PI
    ensures -3.318 < Sin(x) as real - 65536.0 * sine(Radians(x)) < 3.318
  {
    hide IsSine, Sin;
    SinAccuracy(sine, pi, x);
  }

  /** The announced 2 LSB over [-pi, pi] are exceeded at -160493. */
  lemma AnnouncedAccuracyFails(sine: real -> real, pi: real)
    requires IsSine(sine, pi)
    ensures Sin(-160493) as real - 65536.0 * sine(Radians(-160493)) < -2.0
  {
    hide IsSine;
    var x := Radians(160493);
    var r := 45394.416 / 65536.0;
    assert Radians(-160493) == -x;
    Odd(sine, pi, x);
    PiBounds(sine, pi);
    Lipschitz(sine, pi, pi - x, r, 0.001 / 65536.0);
    SeriesEnclosure(sine, pi, r);
    SinPolyAt();
    SinAt();
  }

  lemma SinAt()
    ensures Sin(-160493) == -41853
  {
    assert -160493 % Q16_TWO_PI == 251282;
    assert Fold(251282) == 45395;
    assert MulShift(45395, 45395) == 31443 && MulShift(31443, 45395) == 21779;
    assert MulShift(21779, 31443) == 10449 && MulShift(10449, 31443) == 5013;
    assert SinRaw(45395) == 41853;
  }

  lemma SinPolyAt()
    ensures 65536.0 * SinPoly(45394.416 / 65536.0) < 41850.6
  {
    var x := 45394.416 / 65536.0;
    var x2 := Times(x, x);
    assert 0.4797831 < x2 < 0.4797832;
  }
}
