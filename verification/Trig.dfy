/**
  Range-reduced Maclaurin sine and cosine (bare_metal_foc/src/transforms.c).

  The series helpers are compared with the exact Maclaurin polynomials over `real`; the
  reduction is compared with arithmetic modulo `Q16_TWO_PI`.
 */
module Trig {
  import opened FixedPoint

  // ---------------------------------------------------------------------------------
  // The series helpers on [0, pi/4]
  // ---------------------------------------------------------------------------------

  /** `sin_raw`; on its domain every power is non-negative, so C's `/` is Dafny's. */
  function SinRaw(x: int): int
    requires 0 <= x <= Q16_PI_OVER_4
  {
    var x2 := MulShift(x, x);
    var x3 := MulShift(x2, x);
    var x5 := MulShift(x3, x2);
    var x7 := MulShift(x5, x2);
    x - x3 / 6 + x5 / 120 - x7 / 5040
  }

  /** `cos_raw`. */
  function CosRaw(x: int): int
    requires 0 <= x <= Q16_PI_OVER_4
  {
    var x2 := MulShift(x, x);
    var x4 := MulShift(x2, x2);
    var x6 := MulShift(x4, x2);
    Q16_ONE - x2 / 2 + x4 / 24 - x6 / 720
  }

  /** The product of two reals, named so that proofs can treat it as a unit. */
  function Times(a: real, b: real): real {
    a * b
  }

  /** The Maclaurin polynomial of sine of degree 7. */
  function SinPoly(x: real): real {
    var x2 := Times(x, x);
    var x3 := Times(x2, x);
    var x5 := Times(x3, x2);
    var x7 := Times(x5, x2);
    x - x3 / 6.0 + x5 / 120.0 - x7 / 5040.0
  }

  /** The Maclaurin polynomial of cosine of degree 6. */
  function CosPoly(x: real): real {
    var x2 := Times(x, x);
    var x4 := Times(x2, x2);
    var x6 := Times(x4, x2);
    1.0 - x2 / 2.0 + x4 / 24.0 - x6 / 720.0
  }

  /** The real number a Q16.16 word stands for. */
  function Radians(x: int): real {
    x as real / 65536.0
  }

  lemma MulMono(a: real, a': real, b: real, b': real)
    requires 0.0 <= a <= a' && 0.0 <= b <= b'
    ensures 0.0 <= a * b <= a' * b'
  {
    assert a * b <= a' * b;
    assert a' * b <= a' * b';
  }

  lemma NegatedTimes(a: real, b: real)
    ensures Times(-a, b) == -Times(a, b) && Times(a, b) == b * a
  {
  }

  lemma ProductError(ra: real, rb: real, du: real, dv: real, ea: real, eb: real, ma: real, mb: real)
    requires 0.0 <= ra && 0.0 <= rb <= mb && ra + du <= ma
    requires 0.0 <= du <= ea && 0.0 <= dv <= eb
    ensures 0.0 <= (ra + du) * (rb + dv) - ra * rb <= ma * eb + ea * mb
  {
    assert (ra + du) * (rb + dv) == ra * rb + (ra + du) * dv + du * rb;
    MulMono(ra + du, ma, dv, eb);
    MulMono(du, ea, rb, mb);
  }

  /**
    One floored product. `a` and `b` are lower approximations, with errors at most `ea` and
    `eb`, of the scaled values `65536 * u` and `65536 * v`.
   */
  lemma ShiftedProductError(a: nat, b: nat, u: real, v: real, ea: real, eb: real, cu: real, cv: real)
    requires 0.0 <= 65536.0 * u - a as real <= ea
    requires 0.0 <= 65536.0 * v - b as real <= eb
    requires u <= cu && v <= cv
    ensures 0.0 <= 65536.0 * Times(u, v) - MulShift(a, b) as real < 1.0 + cu * eb + cv * ea
    ensures MulShift(a, b) >= 0
  {
    var ra, rb := a as real, b as real;
    ProductError(ra, rb, 65536.0 * u - ra, 65536.0 * v - rb, ea, eb, 65536.0 * cu, 65536.0 * cv);
    assert 65536.0 * (65536.0 * Times(u, v)) == (65536.0 * u) * (65536.0 * v);
    assert (a * b) as real == ra * rb;
    var p := MulShift(a, b);
    assert 65536 * p <= a * b < 65536 * p + 65536;
  }

  lemma ScaledDown(a: real, b: real, ca: real, cb: real)
    requires 0.0 <= a <= ca && 0.0 <= b <= cb <= 1.0
    ensures 0.0 <= Times(a, b) <= ca * cb && Times(a, b) <= a
  {
    MulMono(a, ca, b, cb);
    MulMono(a, a, b, 1.0);
  }

  /** The powers of `q` up to the seventh, for `q` in [0, pi/4]. */
  lemma PowerBounds(q: real, q2: real, q3: real, q4: real, q5: real, q6: real, q7: real)
    requires 0.0 <= q <= 0.78541
    requires q2 == Times(q, q) && q3 == Times(q2, q) && q4 == Times(q2, q2)
    requires q5 == Times(q3, q2) && q6 == Times(q4, q2) && q7 == Times(q5, q2)
    ensures 0.0 <= q2 <= 0.6169 && q2 <= q
    ensures 0.0 <= q3 <= 0.4846 && q3 <= q
    ensures 0.0 <= q4 <= 0.3806 && q4 <= q2
    ensures 0.0 <= q5 <= 0.299 && 0.0 <= q6 <= 0.2349 && q6 <= q4
    ensures 0.0 <= q7 <= 0.1845 && q7 <= q5
  {
    hide Times;
    ScaledDown(q, q, 0.78541, 0.78541);
    ScaledDown(q2, q, 0.6169, 0.78541);
    ScaledDown(q2, q2, 0.6169, 0.6169);
    ScaledDown(q3, q2, 0.4846, 0.6169);
    ScaledDown(q4, q2, 0.3806, 0.6169);
    ScaledDown(q5, q2, 0.299, 0.6169);
  }

  /** `sin_raw` is within 3 LSB of the exact polynomial, with the sign of the error bounded too. */
  lemma SinRawError(x: int)
    requires 0 <= x <= Q16_PI_OVER_4
    ensures -1.02 < SinRaw(x) as real - 65536.0 * SinPoly(Radians(x)) < 2.14
  {
    hide Times, MulShift;
    var q := Radians(x);
    var x2, q2 := MulShift(x, x), Times(q, q);
    var x3, q3 := MulShift(x2, x), Times(q2, q);
    var x5, q5 := MulShift(x3, x2), Times(q3, q2);
    var x7, q7 := MulShift(x5, x2), Times(q5, q2);
    PowerBounds(q, q2, q3, Times(q2, q2), q5, Times(Times(q2, q2), q2), q7);
    ShiftedProductError(x, x, q, q, 0.0, 0.0, 0.78541, 0.78541);
    ShiftedProductError(x2, x, q2, q, 1.0, 0.0, 0.6169, 0.78541);
    ShiftedProductError(x3, x2, q3, q2, 1.78541, 1.0, 0.4846, 0.6169);
    ShiftedProductError(x5, x2, q5, q2, 2.6, 1.0, 0.299, 0.6169);
    assert 6 * (x3 / 6) <= x3 <= 6 * (x3 / 6) + 5;
    assert 120 * (x5 / 120) <= x5 <= 120 * (x5 / 120) + 119;
    assert 5040 * (x7 / 5040) <= x7 <= 5040 * (x7 / 5040) + 5039;
  }

  /** `cos_raw` is within 3 LSB of the exact polynomial. */
  lemma CosRawError(x: int)
    requires 0 <= x <= Q16_PI_OVER_4
    ensures -1.06 < CosRaw(x) as real - 65536.0 * CosPoly(Radians(x)) < 2.01
  {
    hide Times, MulShift;
    var q := Radians(x);
    var x2, q2 := MulShift(x, x), Times(q, q);
    var x4, q4 := MulShift(x2, x2), Times(q2, q2);
    var x6, q6 := MulShift(x4, x2), Times(q4, q2);
    PowerBounds(q, q2, Times(q2, q), q4, Times(Times(q2, q), q2), q6, Times(Times(Times(q2, q), q2), q2));
    ShiftedProductError(x, x, q, q, 0.0, 0.0, 0.78541, 0.78541);
    ShiftedProductError(x2, x2, q2, q2, 1.0, 1.0, 0.6169, 0.6169);
    ShiftedProductError(x4, x2, q4, q2, 2.2338, 1.0, 0.3806, 0.6169);
    assert 2 * (x2 / 2) <= x2 <= 2 * (x2 / 2) + 1;
    assert 24 * (x4 / 24) <= x4 <= 24 * (x4 / 24) + 23;
    assert 720 * (x6 / 720) <= x6 <= 720 * (x6 / 720) + 719;
  }

  lemma PolyRange(q: real)
    requires 0.0 <= q <= 0.78541
    ensures 0.0 <= SinPoly(q) <= 0.8 && 0.69 <= CosPoly(q) <= 1.0
  {
    hide Times;
    var q2 := Times(q, q);
    var q3, q4 := Times(q2, q), Times(q2, q2);
    var q5, q6 := Times(q3, q2), Times(q4, q2);
    PowerBounds(q, q2, q3, q4, q5, q6, Times(q5, q2));
  }

  lemma ShrinkingProduct(a: int, b: int)
    requires 0 <= a && 0 <= b <= 65536
    ensures 0 <= MulShift(a, b) <= a
  {
    assert 0 <= a * b <= a * 65536;
  }

  /** Both helpers stay in [0, 1.0]. */
  lemma SeriesRange(x: int)
    requires 0 <= x <= Q16_PI_OVER_4
    ensures 0 <= SinRaw(x) <= Q16_ONE && 0 <= CosRaw(x) <= Q16_ONE
  {
    hide Times, MulShift;
    var x2 := MulShift(x, x);
    ShrinkingProduct(x, x);
    var x3, x4 := MulShift(x2, x), MulShift(x2, x2);
    ShrinkingProduct(x2, x);
    ShrinkingProduct(x2, x2);
    ShrinkingProduct(x3, x2);
    ShrinkingProduct(x4, x2);
    ShrinkingProduct(MulShift(x3, x2), x2);
  }

  // ---------------------------------------------------------------------------------
  // The polynomials: nearly on the unit circle, and Lipschitz
  // ---------------------------------------------------------------------------------

  /** `q` times this polynomial in the square of `q` is `SinPoly(q)`. */
  function OddPart(y: real): real {
    1.0 - y / 6.0 + y * y / 120.0 - y * y * y / 5040.0
  }

  /** This polynomial in the square of `q` is `CosPoly(q)`. */
  function EvenPart(y: real): real {
    1.0 - y / 2.0 + y * y / 24.0 - y * y * y / 720.0
  }

  lemma Parts(q: real)
    ensures SinPoly(q) == q * OddPart(q * q) && CosPoly(q) == EvenPart(q * q)
  {
  }

  lemma SquareOfProduct(a: real, b: real)
    ensures (a * b) * (a * b) == (a * a) * (b * b)
  {
  }

  lemma ExpandParts(y: real)
    ensures y * (OddPart(y) * OddPart(y)) + EvenPart(y) * EvenPart(y)
            == 1.0 - (y * y) * (y * y) * (1.0 / 20160.0 - y / 50400.0 + y * y / 725760.0 - y * y * y / 25401600.0)
  {
  }

  /** The squares of the two polynomials add up to 1 but for the terms from the eighth power on. */
  lemma PythagoreanExpansion(q: real, y: real, y2: real, y3: real)
    requires y == q * q && y2 == y * y && y3 == y2 * y
    ensures SinPoly(q) * SinPoly(q) + CosPoly(q) * CosPoly(q)
            == 1.0 - Times(Times(y2, y2), 1.0 / 20160.0 - y / 50400.0 + y2 / 725760.0 - y3 / 25401600.0)
  {
    hide SinPoly, CosPoly, OddPart, EvenPart;
    Parts(q);
    SquareOfProduct(q, OddPart(y));
    ExpandParts(y);
  }

  /** The truncated series miss the unit circle by an eighth-order term, inwards. */
  lemma PolyNorm(q: real)
    requires 0.0 <= q <= 0.78541
    ensures -0.0000073 <= SinPoly(q) * SinPoly(q) + CosPoly(q) * CosPoly(q) - 1.0 <= 0.0
  {
    hide SinPoly, CosPoly;
    var y := Times(q, q);
    var y2 := Times(y, y);
    PythagoreanExpansion(q, y, y2, Times(y2, y));
    EighthOrderTerm(q);
  }

  lemma EighthOrderTerm(q: real)
    requires 0.0 <= q <= 0.78541
    ensures var y := Times(q, q);
            var y2 := Times(y, y);
            var y3 := Times(y2, y);
            0.0 <= Times(Times(y2, y2), 1.0 / 20160.0 - y / 50400.0 + y2 / 725760.0 - y3 / 25401600.0) <= 0.0000073
  {
    hide Times;
    var y := Times(q, q);
    ScaledDown(q, q, 0.78541, 0.78541);
    var y2 := Times(y, y);
    ScaledDown(y, y, 0.6169, 0.6169);
    ScaledDown(y2, y, 0.3806, 0.6169);
    ScaledDown(y2, y2, 0.3806, 0.3806);
    ScaledDown(Times(y2, y2), 1.0 / 20160.0 - y / 50400.0 + y2 / 725760.0 - Times(y2, y) / 25401600.0,
               0.14486, 0.00005014);
  }

  lemma TimesLipschitz(a: real, a': real, b: real, b': real, ca: real, cb: real, ka: real, kb: real, d: real)
    requires 0.0 <= a <= a' <= ca && 0.0 <= b <= b' <= cb
    requires a' - a <= ka * d && b' - b <= kb * d
    ensures 0.0 <= Times(a', b') - Times(a, b) <= (ca * kb + cb * ka) * d
  {
    assert a' * b' - a * b == a' * (b' - b) + (a' - a) * b;
    MulMono(a', ca, b' - b, kb * d);
    MulMono(a' - a, ka * d, b, cb);
  }

  /** Over [0, pi/4] the sine polynomial moves at most 1.02, the cosine polynomial 0.8, times its argument. */
  lemma PolyLipschitz(p: real, q: real)
    requires 0.0 <= p <= q <= 0.78541
    ensures -1.02 * (q - p) <= SinPoly(q) - SinPoly(p) <= 1.02 * (q - p)
    ensures -0.8 * (q - p) <= CosPoly(q) - CosPoly(p) <= 0.8 * (q - p)
  {
    hide Times;
    var d := q - p;
    var p2, q2 := Times(p, p), Times(q, q);
    var p3, q3 := Times(p2, p), Times(q2, q);
    var p4, q4 := Times(p2, p2), Times(q2, q2);
    var p5, q5 := Times(p3, p2), Times(q3, q2);
    var p6, q6 := Times(p4, p2), Times(q4, q2);
    var p7, q7 := Times(p5, p2), Times(q5, q2);
    PowerBounds(p, p2, p3, p4, p5, p6, p7);
    PowerBounds(q, q2, q3, q4, q5, q6, q7);
    TimesLipschitz(p, q, p, q, 0.78541, 0.78541, 1.0, 1.0, d);
    TimesLipschitz(p2, q2, p, q, 0.6169, 0.78541, 1.6, 1.0, d);
    TimesLipschitz(p2, q2, p2, q2, 0.6169, 0.6169, 1.6, 1.6, d);
    TimesLipschitz(p3, q3, p2, q2, 0.4846, 0.6169, 1.9, 1.6, d);
    TimesLipschitz(p4, q4, p2, q2, 0.3806, 0.6169, 2.0, 1.6, d);
    TimesLipschitz(p5, q5, p2, q2, 0.299, 0.6169, 2.0, 1.6, d);
  }

  // ---------------------------------------------------------------------------------
  // One quarter wave
  // ---------------------------------------------------------------------------------

  /** The branch of `sin_approx` on [0, pi/2]. */
  function Quarter(u: int): int
    requires 0 <= u <= Q16_PI_OVER_2
  {
    if u <= Q16_PI_OVER_4 then SinRaw(u) else CosRaw(Q16_PI_OVER_2 - u)
  }

  /** The exact polynomial curve that `Quarter` approximates. */
  function QuarterPoly(u: int): real {
    if u <= Q16_PI_OVER_4 then SinPoly(Radians(u)) else CosPoly(Radians(Q16_PI_OVER_2 - u))
  }

  lemma QuarterError(u: int)
    requires 0 <= u <= Q16_PI_OVER_2
    ensures -1.06 < Quarter(u) as real - 65536.0 * QuarterPoly(u) < 2.14
    ensures 0 <= Quarter(u) <= Q16_ONE
    ensures 0.0 <= QuarterPoly(u) <= 1.0
  {
    hide SinRaw, CosRaw, SinPoly, CosPoly;
    if u <= Q16_PI_OVER_4 {
      SinRawError(u);
      SeriesRange(u);
      PolyRange(Radians(u));
    } else {
      CosRawError(Q16_PI_OVER_2 - u);
      SeriesRange(Q16_PI_OVER_2 - u);
      PolyRange(Radians(Q16_PI_OVER_2 - u));
    }
  }

  /** The two series meet at pi/4 within half an LSB. */
  lemma SeriesJoin()
    ensures 0.0 <= SinPoly(Radians(Q16_PI_OVER_4)) - CosPoly(Radians(Q16_PI_OVER_4)) < 0.5 / 65536.0
  {
  }

  lemma QuarterLipschitz(u: int, v: int)
    requires 0 <= u <= v <= Q16_PI_OVER_2
    ensures -1.02 * (v - u) as real - 0.5 <= 65536.0 * (QuarterPoly(v) - QuarterPoly(u))
                                         <= 1.02 * (v - u) as real + 0.5
  {
    hide SinPoly, CosPoly;
    var h := Q16_PI_OVER_4;
    if v <= h {
      PolyLipschitz(Radians(u), Radians(v));
    } else if h < u {
      PolyLipschitz(Radians(Q16_PI_OVER_2 - v), Radians(Q16_PI_OVER_2 - u));
    } else {
      PolyLipschitz(Radians(u), Radians(h));
      SeriesJoin();
      PolyLipschitz(Radians(Q16_PI_OVER_2 - v), Radians(h));
    }
  }

  /** Complementary arguments give a point within 2^-16 of the unit circle. */
  lemma QuarterPolyNorm(u: int)
    requires 0 <= u <= Q16_PI_OVER_2
    ensures var s, c := QuarterPoly(u), QuarterPoly(Q16_PI_OVER_2 - u);
            -0.000008 <= s * s + c * c - 1.0 <= 0.000016
  {
    hide SinPoly, CosPoly;
    var s, c := QuarterPoly(u), QuarterPoly(Q16_PI_OVER_2 - u);
    if u == Q16_PI_OVER_4 {
      var q := Radians(u);
      PolyNorm(q);
      PolyRange(q);
      SeriesJoin();
      JoinNorm(SinPoly(q), CosPoly(q));
    } else if u < Q16_PI_OVER_4 {
      PolyNorm(Radians(u));
    } else {
      PolyNorm(Radians(Q16_PI_OVER_2 - u));
    }
  }

  lemma JoinNorm(s: real, c: real)
    requires 0.0 <= c <= s <= 0.8 && s - c < 0.5 / 65536.0
    requires -0.0000073 <= s * s + c * c - 1.0 <= 0.0
    ensures -0.000008 <= s * s + s * s - 1.0 <= 0.000016
  {
    assert s * s - c * c == (s - c) * (s + c);
    MulMono(s - c, 0.5 / 65536.0, s + c, 1.6);
  }

  /** Two integers close to `65536` times a point near the unit circle have nearly the right norm. */
  lemma NormDefect(a: int, b: int, s: real, c: real)
    requires 0.0 <= s <= 1.0 && 0.0 <= c <= 1.0 && -0.000008 <= s * s + c * c - 1.0 <= 0.000016
    requires -1.06 < a as real - 65536.0 * s < 2.14
    requires -3.61 < b as real - 65536.0 * c < 4.69
    ensures -0x10_0000 <= a * a + b * b - 0x1_0000_0000 <= 0x10_0000
  {
    SquareDefect(a, s, -1.06, 2.14);
    SquareDefect(b, c, -3.61, 4.69);
  }

  lemma SquareDefect(a: int, s: real, lo: real, hi: real)
    requires 0.0 <= s <= 1.0 && lo <= a as real - 65536.0 * s <= hi && -5.0 < lo < 0.0 < hi < 5.0
    ensures 131072.0 * lo <= (a * a) as real - 4294967296.0 * (s * s) <= 131072.0 * hi + 25.0
  {
    var e := a as real - 65536.0 * s;
    assert (a * a) as real == a as real * a as real;
    ExpandSquare(s, e);
    Scaled(s, e, lo, hi);
    SmallSquare(e);
  }

  lemma ExpandSquare(s: real, e: real)
    ensures (65536.0 * s + e) * (65536.0 * s + e) == 4294967296.0 * (s * s) + 131072.0 * (s * e) + e * e
  {
  }

  lemma SmallSquare(e: real)
    requires -5.0 < e < 5.0
    ensures 0.0 <= e * e <= 25.0
  {
    if e >= 0.0 { MulMono(e, 5.0, e, 5.0); } else { MulMono(-e, 5.0, -e, 5.0); }
  }

  lemma Scaled(s: real, e: real, lo: real, hi: real)
    requires 0.0 <= s <= 1.0 && lo <= e <= hi && lo <= 0.0 <= hi
    ensures lo <= s * e <= hi
  {
    if e >= 0.0 { MulMono(s, 1.0, e, hi); } else { MulMono(s, 1.0, -e, -lo); }
  }

  // ---------------------------------------------------------------------------------
  // Range reduction
  // ---------------------------------------------------------------------------------

  /** The argument of the quarter wave for a reduced angle. */
  function Fold(y: int): (u: int)
    requires 0 <= y < Q16_TWO_PI
    ensures 0 <= u <= Q16_PI_OVER_2
  {
    var a := if y >= Q16_PI then y - Q16_PI else y;
    if a > Q16_PI_OVER_2 then Q16_PI - a else a
  }

  function Sign(y: int): int {
    if y >= Q16_PI then -1 else 1
  }

  /** The value of `sin_approx`, for angles of any size. */
  function Sin(x: int): (r: q16)
    ensures -Q16_ONE <= r <= Q16_ONE
  {
    var y := x % Q16_TWO_PI;
    QuarterError(Fold(y));
    Sign(y) * Quarter(Fold(y))
  }

  /** The value of `cos_approx`. */
  function Cos(x: int): (r: q16)
    ensures -Q16_ONE <= r <= Q16_ONE
  {
    Sin(Q16_PI_OVER_2 - x)
  }

  lemma ModShift(x: int, k: int)
    ensures (x + k * Q16_TWO_PI) % Q16_TWO_PI == x % Q16_TWO_PI
  {
    var q, r := x / Q16_TWO_PI, x % Q16_TWO_PI;
    assert x + k * Q16_TWO_PI == (q + k) * Q16_TWO_PI + r;
  }

  /** The two reduction loops of `sin_approx`: no update of `x` leaves 32 bits. */
  method Reduce(angle: q16) returns (x: q16)
    ensures x == angle % Q16_TWO_PI
  {
    x := angle;
    while x < 0
      invariant x % Q16_TWO_PI == angle % Q16_TWO_PI
      decreases 0 - x
    {
      ModShift(x, 1);
      x := x + Q16_TWO_PI;
    }
    while x >= Q16_TWO_PI
      invariant 0 <= x && x % Q16_TWO_PI == angle % Q16_TWO_PI
    {
      ModShift(x, -1);
      x := x - Q16_TWO_PI;
    }
  }

  /**
    `sin_approx`, for every 32-bit argument; every series call has its argument in
    [0, pi/4], and every intermediate value is a 32-bit value.
   */
  method SinApprox(angle: q16) returns (r: q16)
    ensures r == Sin(angle)
    ensures -Q16_ONE <= r <= Q16_ONE
  {
    hide SinRaw, CosRaw, QuarterPoly;
    var x := Reduce(angle);
    var neg := false;
    if x >= Q16_PI {
      neg := true;
      x := x - Q16_PI;
    }
    if x > Q16_PI_OVER_2 {
      x := Q16_PI - x;
    }
    QuarterError(x);
    var result: q16;
    if x <= Q16_PI_OVER_4 {
      result := SinRaw(x);
    } else {
      result := CosRaw(Q16_PI_OVER_2 - x);
    }
    r := if neg then -result else result;
  }

  /** `cos_approx`: the difference must not overflow. */
  method CosApprox(angle: q16) returns (r: q16)
    requires InInt32(Q16_PI_OVER_2 - angle)
    ensures r == Cos(angle)
    ensures -Q16_ONE <= r <= Q16_ONE
  {
    r := SinApprox(Q16_PI_OVER_2 - angle);
  }

  /** The result is exactly periodic with period `Q16_TWO_PI`. */
  lemma SinPeriodic(x: int, k: int)
    ensures Sin(x + k * Q16_TWO_PI) == Sin(x)
    ensures Cos(x + k * Q16_TWO_PI) == Cos(x)
  {
    ModShift(x, k);
    ModShift(Q16_PI_OVER_2 - x, -k);
  }

  /** A half turn, in either direction of the rounded constants, flips the sign exactly. */
  lemma SinHalfTurn(x: int)
    requires 0 <= x < Q16_PI
    ensures Sin(x + Q16_PI) == -Sin(x)
  {
    hide Quarter;
  }

  /**
    The rounded constants disagree: `2 * Q16_PI_OVER_2 == Q16_PI + 1` and
    `Q16_TWO_PI == 2 * Q16_PI + 1`. The quarter-wave arguments of sine and cosine are still
    complementary to within two ticks.
   */
  lemma FoldsComplementary(x: int)
    ensures var u, v := Fold(x % Q16_TWO_PI), Fold((Q16_PI_OVER_2 - x) % Q16_TWO_PI);
            u + v - Q16_PI_OVER_2 in {-2, 0, 1}
  {
    var y := x % Q16_TWO_PI;
    var k := x / Q16_TWO_PI;
    var z := Q16_PI_OVER_2 - y;
    ModShift(z, -k);
    assert Q16_PI_OVER_2 - x == z + -k * Q16_TWO_PI;
    if z < 0 {
      ModShift(z, 1);
      assert z % Q16_TWO_PI == z + Q16_TWO_PI;
    }
  }

  lemma SinSquared(x: int)
    ensures var q := Quarter(Fold(x % Q16_TWO_PI));
            Sin(x) * Sin(x) == q * q
  {
    hide Quarter, Fold;
    SignSquared(x % Q16_TWO_PI, Quarter(Fold(x % Q16_TWO_PI)));
  }

  /** Sine and cosine of every angle form a point within 2^-12 of the unit circle. */
  lemma SinCosNorm(x: int)
    ensures -0x10_0000 <= Sin(x) * Sin(x) + Cos(x) * Cos(x) - 0x1_0000_0000 <= 0x10_0000
  {
    hide Quarter, QuarterPoly, Fold, Sin;
    var u, v := Fold(x % Q16_TWO_PI), Fold((Q16_PI_OVER_2 - x) % Q16_TWO_PI);
    FoldsComplementary(x);
    SinSquared(x);
    SinSquared(Q16_PI_OVER_2 - x);
    QuarterNorm(u, v);
  }

  /** Nearly complementary arguments of the quarter wave. */
  lemma QuarterNorm(u: int, v: int)
    requires 0 <= u <= Q16_PI_OVER_2 && 0 <= v <= Q16_PI_OVER_2 && u + v - Q16_PI_OVER_2 in {-2, 0, 1}
    ensures var a, b := Quarter(u), Quarter(v);
            -0x10_0000 <= a * a + b * b - 0x1_0000_0000 <= 0x10_0000
  {
    hide Quarter, QuarterPoly;
    var w := Q16_PI_OVER_2 - u;
    QuarterError(u);
    QuarterError(v);
    QuarterError(w);
    if w <= v { QuarterLipschitz(w, v); } else { QuarterLipschitz(v, w); }
    QuarterPolyNorm(u);
    NormDefect(Quarter(u), Quarter(v), QuarterPoly(u), QuarterPoly(w));
  }

  lemma SignSquared(y: int, q: int)
    ensures (Sign(y) * q) * (Sign(y) * q) == q * q
  {
  }
}
