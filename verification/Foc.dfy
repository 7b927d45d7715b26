/**
  Clarke and Park transforms and their inverses (bare_metal_foc/src/transforms.c).

  A cast from 64 to 32 bits wraps (`Wrap32`, inside `Q16Mul` and `ClarkeBeta`). Signed
  overflow of a 32-bit addition is undefined in C, so the methods require that their own
  additions fit; `RoundTrip` shows that they do for currents up to 2^28.
 */
module Foc {
  import opened FixedPoint
  import opened Trig
  import opened Accuracy

  // ---------------------------------------------------------------------------------
  // What the transforms compute
  // ---------------------------------------------------------------------------------

  type ticks = t: int | 0 <= t < 65536

  function Theta(t: ticks): (theta: q16)
    ensures 0 <= theta < Q16_TWO_PI
  {
    t * Q16_TWO_PI / 65536
  }

  function ClarkeBeta(ia: q16, ib: q16): q16 {
    Wrap32(TruncDiv((ia + 2 * ib) * Q16_ONE, Q16_SQRT3))
  }

  function ParkD(c: q16, s: q16, a: q16, b: q16): int {
    Q16Mul(c, a) + Q16Mul(s, b)
  }

  function ParkQ(c: q16, s: q16, a: q16, b: q16): int
    requires InInt32(0 - s)
  {
    Q16Mul(-s, a) + Q16Mul(c, b)
  }

  function InvParkAlpha(c: q16, s: q16, d: q16, q: q16): int {
    Q16Mul(c, d) - Q16Mul(s, q)
  }

  function InvParkBeta(c: q16, s: q16, d: q16, q: q16): int {
    Q16Mul(s, d) + Q16Mul(c, q)
  }

  /** Twice the phase-b voltage, before the shift. */
  function InvClarkeTmp(alpha: q16, beta: q16): int {
    0 - alpha + Q16Mul(Q16_SQRT3, beta)
  }

  function InvClarkeC(alpha: q16, beta: q16): int {
    0 - alpha - InvClarkeTmp(alpha, beta) / 2
  }

  function Abs(x: int): nat {
    if x < 0 then -x else x
  }

  // ---------------------------------------------------------------------------------
  // Clarke followed by inverse Clarke
  // ---------------------------------------------------------------------------------

  const MAX_CURRENT := 0x1000_0000  // 2^28, the bound on the phase currents

  /** The quotient stays within 32 bits and is the exact quotient truncated toward zero. */
  lemma ClarkeBetaBound(ia: q16, ib: q16)
    requires Abs(ia) <= MAX_CURRENT && Abs(ib) <= MAX_CURRENT
    ensures var sum, beta := ia + 2 * ib, ClarkeBeta(ia, ib);
            && Abs(beta) * Q16_SQRT3 <= Abs(sum) * Q16_ONE < Abs(beta) * Q16_SQRT3 + Q16_SQRT3
            && (sum > 0 ==> beta >= 0) && (sum < 0 ==> beta <= 0)
            && Abs(beta) <= 464943849
  {
  }

  /**
    Without rotation the pair of transforms is tight: the truncating division, the floored
    product and the arithmetic shift together cost at most one LSB on phase c.
   */
  lemma ClarkeInvClarke(ia: q16, ib: q16)
    requires Abs(ia) <= MAX_CURRENT && Abs(ib) <= MAX_CURRENT
    ensures var vc := InvClarkeC(ia, ClarkeBeta(ia, ib));
            InInt32(vc) && (vc == -(ia + ib) || vc == -(ia + ib) + 1)
  {
    ClarkeBetaBound(ia, ib);
  }

  // ---------------------------------------------------------------------------------
  // Clarke against the analytical reference
  // ---------------------------------------------------------------------------------

  predicate IsRootOfThree(root: real) {
    root > 0.0 && root * root == 3.0
  }

  /** The exact beta current less the one computed, in LSB. */
  function ClarkeError(root: real, ia: q16, ib: q16): real
    requires IsRootOfThree(root)
  {
    (ia + 2 * ib) as real / root - ClarkeBeta(ia, ib) as real
  }

  lemma InverseRoot(root: real)
    requires IsRootOfThree(root)
    ensures 0.577350269189625 < 1.0 / root < 0.577350269189626
  {
    if root <= 1.732050807568877 { MulMono(root, 1.732050807568877, root, 1.732050807568877); }
    if root >= 1.732050807568878 { MulMono(1.732050807568878, root, 1.732050807568878, root); }
    var x := 1.0 / root;
    assert x * root == 1.0;
    if x <= 0.577350269189625 { MulMono(x, 0.577350269189625, root, 1.732050807568878); }
    if x >= 0.577350269189626 { MulMono(0.577350269189626, x, 1.732050807568877, root); }
  }

  lemma Quotient(n: int, root: real)
    requires IsRootOfThree(root)
    ensures n as real / root == Times(n as real, 1.0 / root)
  {
    var q := n as real / root;
    assert q * root == n as real;
    var x := 1.0 / root;
    assert x * root == 1.0;
    assert q == q * (x * root) == q * root * x;
  }

  /** The reference for a non-negative sum, against multiples of rational bounds. */
  lemma ReferenceBetween(root: real, s: int)
    requires IsRootOfThree(root) && s >= 0
    ensures 0.577350269189625 * s as real <= s as real / root <= 0.577350269189626 * s as real
    ensures (0 - s) as real / root == -(s as real / root)
  {
    var x := 1.0 / root;
    InverseRoot(root);
    Quotient(s, root);
    Quotient(0 - s, root);
    hide IsRootOfThree;
    MulMono(0.577350269189625, x, s as real, s as real);
    MulMono(x, 0.577350269189626, s as real, s as real);
    NegatedTimes(s as real, x);
  }

  /**
    The constant for the root of three is too large: besides the truncation, the beta current
    loses 1.6 parts in a million of the sum.
   */
  lemma ClarkeAccuracy(root: real, ia: q16, ib: q16)
    requires IsRootOfThree(root) && Abs(ia) <= MAX_CURRENT && Abs(ib) <= MAX_CURRENT
    ensures var s := Abs(ia + 2 * ib) as real;
            var lost := if ia + 2 * ib >= 0 then ClarkeError(root, ia, ib) else -ClarkeError(root, ia, ib);
            0.00000161881 * s <= lost < 1.0 + 0.00000161884 * s
  {
    ClarkeBetaBound(ia, ib);
    hide ClarkeBeta;
    ReferenceBetween(root, Abs(ia + 2 * ib));
  }

  /** The beta current is within `tolerance` LSB of the reference. */
  ghost predicate ClarkeMeets(root: real, ia: q16, ib: q16, tolerance: real)
    requires IsRootOfThree(root)
  {
    -tolerance <= ClarkeError(root, ia, ib) <= tolerance
  }

  /** Where the lost part first matters, the remainder of the division is too small to add up to 2 LSB. */
  lemma RemainderGap(s: int, b: int)
    requires 617700 <= s <= 618258 && 0 <= 8192 * s - 14189 * b < 14189
    ensures 8192 * s - 14189 * b <= 14176
  {
    var rest, m := 8192 * s - 14189 * b, 9580 * b - 5531 * s;
    assert s == 9580 * rest + 14189 * m;
    assert rest !in {14177, 14178, 14179} && rest !in {14180, 14181, 14182};
    assert rest !in {14183, 14184, 14185} && rest !in {14186, 14187, 14188};
  }

  /** Nor to a thousandth of an ampere, which is 65.536 LSB. */
  lemma RemainderGapMilliampere(s: int, b: int)
    requires 39865600 <= s <= 39866118 && 0 <= 8192 * s - 14189 * b < 14189
    ensures 8192 * s - 14189 * b <= 14184
  {
    var rest, m := 8192 * s - 14189 * b, 9580 * b - 5531 * s;
    assert s == 9580 * rest + 14189 * m;
    assert rest !in {14185, 14186} && rest !in {14187, 14188};
  }

  /** The largest sum up to which a tolerance of REQ-001 is met: 2 LSB, or a thousandth of an ampere. */
  function LargestSum(tolerance: real): nat {
    if tolerance == 2.0 then 618258 else 39866118
  }

  lemma ClarkeMeetsUpTo(root: real, ia: q16, ib: q16, tolerance: real)
    requires IsRootOfThree(root) && tolerance in {2.0, 65.536} && Abs(ia + 2 * ib) <= LargestSum(tolerance)
    requires Abs(ia) <= MAX_CURRENT && Abs(ib) <= MAX_CURRENT
    ensures ClarkeMeets(root, ia, ib, tolerance)
  {
    var s, b := Abs(ia + 2 * ib), Abs(ClarkeBeta(ia, ib));
    ClarkeAccuracy(root, ia, ib);
    ClarkeBetaBound(ia, ib);
    ReferenceBetween(root, s);
    hide ClarkeBeta;
    if tolerance == 2.0 && s >= 617700 {
      RemainderGap(s, b);
    }
    if tolerance != 2.0 && s >= 39865600 {
      RemainderGapMilliampere(s, b);
    }
  }

  lemma ClarkeFails(root: real)
    requires IsRootOfThree(root)
    ensures ClarkeError(root, 618259, 0) > 2.0
    ensures ClarkeError(root, 39866119, 0) > 65.536
  {
    ClarkeBetaBound(618259, 0);
    ReferenceBetween(root, 618259);
    assert ClarkeBeta(618259, 0) == 356950;
    ClarkeBetaBound(39866119, 0);
    ReferenceBetween(root, 39866119);
    assert ClarkeBeta(39866119, 0) == 23016649;
  }

  /**
    The 2 LSB of REQ-001 hold for all currents whose sum `ia + 2 * ib` is at most `most` exactly
    if that is at most 618258, and its thousandth of an ampere exactly up to 39866118.
   */
  lemma ClarkeAccuracyExact(root: real, most: nat, tolerance: real)
    requires IsRootOfThree(root) && tolerance in {2.0, 65.536}
    ensures (forall ia: q16, ib: q16 ::
               Abs(ia) <= MAX_CURRENT && Abs(ib) <= MAX_CURRENT && Abs(ia + 2 * ib) <= most ==>
                 ClarkeMeets(root, ia, ib, tolerance))
            <==> most <= LargestSum(tolerance)
  {
    if most <= LargestSum(tolerance) {
      forall ia: q16, ib: q16 | Abs(ia) <= MAX_CURRENT && Abs(ib) <= MAX_CURRENT && Abs(ia + 2 * ib) <= most
        ensures ClarkeMeets(root, ia, ib, tolerance)
      {
        ClarkeMeetsUpTo(root, ia, ib, tolerance);
      }
    } else {
      ClarkeFails(root);
      var ia: q16, ib: q16 := LargestSum(tolerance) + 1, 0;
      assert Abs(ia + 2 * ib) <= most && !ClarkeMeets(root, ia, ib, tolerance);
    }
  }

  // ---------------------------------------------------------------------------------
  // Park followed by inverse Park
  // ---------------------------------------------------------------------------------

  predicate UnitVector(c: int, s: int) {
    && Abs(c) <= Q16_ONE && Abs(s) <= Q16_ONE
    && Abs(c * c + s * s - 0x1_0000_0000) <= 0x10_0000
  }

  /** Multiplying by a factor in [-1, 1] does not grow a value, so nothing wraps. */
  lemma Q16MulByUnit(c: q16, a: q16)
    requires Abs(c) <= Q16_ONE && Abs(a) < 0x8000_0000
    ensures Q16Mul(c, a) == MulShift(c, a)
    ensures 65536 * Q16Mul(c, a) <= c * a < 65536 * Q16Mul(c, a) + 65536
    ensures Abs(Q16Mul(c, a)) <= Abs(a)
  {
    ScaleAbs(c, a, 65536, Abs(a));
    ShiftBounds(c * a, Abs(a));
  }

  lemma ShiftBounds(p: int, m: nat)
    requires Abs(p) <= 65536 * m
    ensures 65536 * Shr16(p) <= p < 65536 * Shr16(p) + 65536
    ensures Abs(Shr16(p)) <= m
  {
  }

  lemma ParkBound(c: q16, s: q16, a: q16, b: q16)
    requires Abs(c) <= Q16_ONE && Abs(s) <= Q16_ONE && Abs(a) + Abs(b) < 0x8000_0000
    ensures Abs(ParkD(c, s, a, b)) <= Abs(a) + Abs(b)
    ensures Abs(ParkQ(c, s, a, b)) <= Abs(a) + Abs(b)
  {
    Q16MulByUnit(c, a);
    Q16MulByUnit(s, b);
    Q16MulByUnit(-s, a);
    Q16MulByUnit(c, b);
  }

  lemma ScaleAbs(k: int, e: int, m: nat, n: nat)
    requires Abs(k) <= m && Abs(e) <= n
    ensures Abs(k * e) <= m * n
  {
    AbsOfProduct(k, e);
    hide Abs;
    NatProduct(Abs(k), m, Abs(e));
    NatProduct(Abs(e), n, m);
  }

  lemma AbsOfProduct(k: int, e: int)
    ensures Abs(k * e) == Abs(k) * Abs(e)
  {
  }

  lemma NatProduct(a: nat, b: nat, c: nat)
    requires a <= b
    ensures a * c <= b * c
  {
  }

  /**
    Inverse Park undoes Park at the same angle up to the rounding of the six products and
    the norm defect of the sine and cosine: `4096 * (error)` is at most `|input|` plus 5 (6) LSB.
   */
  lemma InvParkOfPark(c: q16, s: q16, a: q16, b: q16)
    requires UnitVector(c, s) && Abs(a) + Abs(b) < 0x8000_0000
    ensures InInt32(ParkD(c, s, a, b)) && InInt32(ParkQ(c, s, a, b))
    ensures var d, q := ParkD(c, s, a, b), ParkQ(c, s, a, b);
            && 4096 * Abs(InvParkAlpha(c, s, d, q) - a) <= 5 * 4096 + Abs(a)
            && 4096 * Abs(InvParkBeta(c, s, d, q) - b) <= 6 * 4096 + Abs(b)
  {
    hide Q16Mul, MulShift;
    ParkBound(c, s, a, b);
    var d, q := ParkD(c, s, a, b), ParkQ(c, s, a, b);
    Q16MulByUnit(c, a);
    Q16MulByUnit(s, b);
    Q16MulByUnit(-s, a);
    Q16MulByUnit(c, b);
    Q16MulByUnit(c, d);
    Q16MulByUnit(s, q);
    Q16MulByUnit(s, d);
    Q16MulByUnit(c, q);
    RotateBack(c, s, a, b, d, q);
    ReconstructionError(InvParkAlpha(c, s, d, q), a, c * d - s * q, 65535, 5);
    ReconstructionError(InvParkBeta(c, s, d, q), b, s * d + c * q, 131070, 6);
  }

  /** Rotating the rounded rotated vector back, before the last rounding. */
  lemma RotateBack(c: int, s: int, a: int, b: int, d: int, q: int)
    requires UnitVector(c, s)
    requires 0 <= c * a + s * b - 65536 * d <= 131070 && 0 <= -s * a + c * b - 65536 * q <= 131070
    ensures Abs(65536 * (c * d - s * q) - 0x1_0000_0000 * a) <= 0x10_0000 * Abs(a) + 2 * 65536 * 131070
    ensures Abs(65536 * (s * d + c * q) - 0x1_0000_0000 * b) <= 0x10_0000 * Abs(b) + 2 * 65536 * 131070
  {
    var e1, e2 := c * a + s * b - 65536 * d, -s * a + c * b - 65536 * q;
    Recombine(c, s, a, b, d, q, e1, e2);
    ScaleAbs(c, e1, 65536, 131070);
    ScaleAbs(s, e2, 65536, 131070);
    ScaleAbs(s, e1, 65536, 131070);
    ScaleAbs(c, e2, 65536, 131070);
    ScaleAbs(c * c + s * s - 0x1_0000_0000, a, 0x10_0000, Abs(a));
    ScaleAbs(c * c + s * s - 0x1_0000_0000, b, 0x10_0000, Abs(b));
  }

  lemma ReconstructionError(result: int, a: int, x: int, last: nat, lsb: nat)
    requires Abs(65536 * x - 0x1_0000_0000 * a) <= 0x10_0000 * Abs(a) + 2 * 65536 * 131070
    requires Abs(65536 * result - x) <= last && 4 * 65536 + last <= lsb * 65536
    ensures 4096 * Abs(result - a) <= lsb * 4096 + Abs(a)
  {
  }

  lemma Recombine(c: int, s: int, a: int, b: int, d: int, q: int, e1: int, e2: int)
    requires 65536 * d == c * a + s * b - e1 && 65536 * q == -s * a + c * b - e2
    ensures 65536 * (c * d - s * q)
            == 0x1_0000_0000 * a + (c * c + s * s - 0x1_0000_0000) * a - (c * e1) + s * e2
    ensures 65536 * (s * d + c * q)
            == 0x1_0000_0000 * b + (c * c + s * s - 0x1_0000_0000) * b - (s * e1) - c * e2
  {
    assert 65536 * (c * d) == c * (c * a + s * b - e1);
    assert 65536 * (s * q) == s * (-s * a + c * b - e2);
    assert 65536 * (s * d) == s * (c * a + s * b - e1);
    assert 65536 * (c * q) == c * (-s * a + c * b - e2);
  }

  // ---------------------------------------------------------------------------------
  // The whole chain
  // ---------------------------------------------------------------------------------

  /** What an error on the alpha and beta voltages does to phase c. */
  lemma InvClarkeOfPerturbed(ia: q16, ib: q16, alpha: q16, beta: q16)
    requires Abs(ia) <= MAX_CURRENT && Abs(ib) <= MAX_CURRENT
    requires 4096 * Abs(alpha - ia) <= 5 * 4096 + Abs(ia)
    requires 4096 * Abs(beta - ClarkeBeta(ia, ib)) <= 6 * 4096 + Abs(ClarkeBeta(ia, ib))
    ensures InInt32(0 - alpha) && InInt32(InvClarkeTmp(alpha, beta)) && InInt32(InvClarkeC(alpha, beta))
    ensures 4096 * Abs(InvClarkeC(alpha, beta) + (ia + ib)) <= 10 * 4096 + Abs(ia) + Abs(ib)
  {
    hide ClarkeBeta, Wrap32;
    ClarkeBetaBound(ia, ib);
    Wrap32Exact(MulShift(Q16_SQRT3, beta));
    var b := ClarkeBeta(ia, ib);
    BetaTracksSum(ia + 2 * ib, b);
    PhaseCError(ia, ib, b, alpha, beta, MulShift(Q16_SQRT3, beta), Abs(ia), Abs(ib), Abs(b));
  }

  lemma Wrap32Exact(x: int)
    ensures InInt32(x) ==> Wrap32(x) == x
  {
  }

  lemma BetaTracksSum(sum: int, b: int)
    requires Abs(b) * Q16_SQRT3 <= Abs(sum) * Q16_ONE < Abs(b) * Q16_SQRT3 + Q16_SQRT3
    requires (sum > 0 ==> b >= 0) && (sum < 0 ==> b <= 0)
    ensures -Q16_SQRT3 < sum * Q16_ONE - b * Q16_SQRT3 < Q16_SQRT3
  {
  }

  /** The same with the magnitudes of the inputs as separate numbers, so that all is linear. */
  lemma PhaseCError(ia: int, ib: int, b: int, alpha: int, beta: int, m: int, pa: int, pb: int, pBeta: int)
    requires -pa <= ia <= pa <= MAX_CURRENT && -pb <= ib <= pb <= MAX_CURRENT
    requires -pBeta <= b <= pBeta && pBeta * Q16_SQRT3 <= (pa + 2 * pb) * Q16_ONE
    requires -Q16_SQRT3 < (ia + 2 * ib) * Q16_ONE - b * Q16_SQRT3 < Q16_SQRT3
    requires -5 * 4096 - pa <= 4096 * (alpha - ia) <= 5 * 4096 + pa
    requires -6 * 4096 - pBeta <= 4096 * (beta - b) <= 6 * 4096 + pBeta
    requires 65536 * m <= Q16_SQRT3 * beta < 65536 * m + 65536
    ensures InInt32(0 - alpha) && InInt32(m) && InInt32(-alpha + m) && InInt32(-alpha - (-alpha + m) / 2)
    ensures -10 * 4096 - pa - pb <= 4096 * (-alpha - (-alpha + m) / 2 + (ia + ib)) <= 10 * 4096 + pa + pb
  {
  }

  lemma AngleIsUnit(t: ticks)
    ensures UnitVector(Cos(Theta(t)), Sin(Theta(t)))
  {
    hide Sin, Cos;
    SinCosNorm(Theta(t));
  }

  // ---------------------------------------------------------------------------------
  // The rotation itself
  // ---------------------------------------------------------------------------------

  /** The electrical angle of an encoder position: 65536 positions make a full turn. */
  function Turn(pi: real, t: ticks): real {
    2.0 * pi * t as real / 65536.0
  }

  /** The reduced constant and the floor put the C angle less than a tick below the true one. */
  lemma ThetaNearTurn(sine: real -> real, pi: real, t: ticks)
    requires IsSine(sine, pi)
    ensures -1.0 < 65536.0 * (Radians(Theta(t)) - Turn(pi, t)) < 0.168
  {
    PiBounds(sine, pi);
    hide IsSine;
    var d := Q16_TWO_PI as real - 131072.0 * pi;
    FractionOf(t, d);
    assert 65536.0 * (Q16_TWO_PI as real * t as real / 65536.0 - 65536.0 * Turn(pi, t)) == d * t as real;
  }

  lemma FractionOf(t: ticks, d: real)
    requires 0.0 <= d < 0.168
    ensures 0.0 <= d * t as real <= 65536.0 * d
  {
    MulMono(d, d, t as real, 65536.0);
  }

  lemma AngleAccuracy(sine: real -> real, pi: real, t: ticks)
    requires IsSine(sine, pi)
    ensures -5.0 < Sin(Theta(t)) as real - 65536.0 * sine(Turn(pi, t)) < 5.0
    ensures -5.0 < Cos(Theta(t)) as real - 65536.0 * sine(pi / 2.0 - Turn(pi, t)) < 5.0
  {
    hide IsSine, Sin, Cos, Theta, Turn;
    var theta, turn := Theta(t), Turn(pi, t);
    ThetaNearTurn(sine, pi, t);
    SinAccuracy(sine, pi, theta);
    CosAccuracy(sine, pi, theta);
    assert TurnsOf(theta) == 0 && TurnsOf(Q16_PI_OVER_2 - theta) in {0, -1};
    Lipschitz(sine, pi, Radians(theta), turn, 1.0 / 65536.0);
    Lipschitz(sine, pi, pi / 2.0 - Radians(theta), pi / 2.0 - turn, 1.0 / 65536.0);
  }

  /** `x` differs from `y` by at most two floors and 5 LSB of the factors of `a` and `b`. */
  predicate Near(x: int, y: real, a: q16, b: q16) {
    var slack := (131072 + 5 * (Abs(a) + Abs(b))) as real;
    -slack <= 65536.0 * (x as real - y) <= slack
  }

  /** (d, q) is (a, b) turned back by the angle of the encoder position. */
  ghost predicate TurnedBack(sine: real -> real, pi: real, t: ticks, a: q16, b: q16, d: int, q: int) {
    var s, c := sine(Turn(pi, t)), sine(pi / 2.0 - Turn(pi, t));
    Near(d, Times(c, a as real) + Times(s, b as real), a, b) && Near(q, Times(c, b as real) - Times(s, a as real), a, b)
  }

  /** (x, y) is (d, q) turned forward by the angle of the encoder position. */
  ghost predicate TurnedForward(sine: real -> real, pi: real, t: ticks, d: q16, q: q16, x: int, y: int) {
    var s, c := sine(Turn(pi, t)), sine(pi / 2.0 - Turn(pi, t));
    Near(x, Times(c, d as real) - Times(s, q as real), d, q) && Near(y, Times(s, d as real) + Times(c, q as real), d, q)
  }

  /** One floored product by a factor that is known to 5 LSB. */
  lemma ProductNear(c: q16, a: q16, factor: real)
    requires Abs(c) <= Q16_ONE && -5.0 < c as real - 65536.0 * factor < 5.0
    requires Abs(a) < 0x8000_0000
    ensures var e := 65536.0 * (Q16Mul(c, a) as real - Times(factor, a as real));
            -65536.0 - 5.0 * Abs(a) as real <= e <= 5.0 * Abs(a) as real
  {
    Q16MulByUnit(c, a);
    hide Q16Mul;
    var e := c as real - 65536.0 * factor;
    assert (c * a) as real == 65536.0 * Times(factor, a as real) + e * a as real;
    Scaling(e, a);
  }

  lemma Scaling(e: real, a: int)
    requires -5.0 < e < 5.0
    ensures -5.0 * Abs(a) as real <= e * a as real <= 5.0 * Abs(a) as real
  {
    if e >= 0.0 { MulMono(e, 5.0, Abs(a) as real, Abs(a) as real); }
    else { MulMono(-e, 5.0, Abs(a) as real, Abs(a) as real); }
  }

  lemma ParkTurnsBack(sine: real -> real, pi: real, t: ticks, a: q16, b: q16)
    requires IsSine(sine, pi) && Abs(a) < 0x8000_0000 && Abs(b) < 0x8000_0000
    ensures var c, s := Cos(Theta(t)), Sin(Theta(t));
            TurnedBack(sine, pi, t, a, b, ParkD(c, s, a, b), ParkQ(c, s, a, b))
  {
    hide IsSine, Sin, Cos, Theta, Turn, Times, Q16Mul;
    var c, s := Cos(Theta(t)), Sin(Theta(t));
    var cosine, sin := sine(pi / 2.0 - Turn(pi, t)), sine(Turn(pi, t));
    AngleAccuracy(sine, pi, t);
    ProductNear(c, a, cosine);
    ProductNear(s, b, sin);
    ProductNear(-s, a, -sin);
    ProductNear(c, b, cosine);
    NegatedTimes(sin, a as real);
  }

  lemma InvParkTurnsForward(sine: real -> real, pi: real, t: ticks, d: q16, q: q16)
    requires IsSine(sine, pi) && Abs(d) < 0x8000_0000 && Abs(q) < 0x8000_0000
    ensures var c, s := Cos(Theta(t)), Sin(Theta(t));
            TurnedForward(sine, pi, t, d, q, InvParkAlpha(c, s, d, q), InvParkBeta(c, s, d, q))
  {
    hide IsSine, Sin, Cos, Theta, Turn, Times, Q16Mul;
    var c, s := Cos(Theta(t)), Sin(Theta(t));
    var cosine, sin := sine(pi / 2.0 - Turn(pi, t)), sine(Turn(pi, t));
    AngleAccuracy(sine, pi, t);
    ProductNear(c, d, cosine);
    ProductNear(s, q, sin);
    ProductNear(s, d, sin);
    ProductNear(c, q, cosine);
  }

  // ---------------------------------------------------------------------------------
  // The C functions
  // ---------------------------------------------------------------------------------

  /** `FocState_t`: all fields in Q16.16. The input and output of a transform may be one object. */
  class FocState {
    var ia: q16
    var ib: q16
    var iAlpha: q16
    var iBeta: q16
    var id: q16
    var iq: q16
    var vd: q16
    var vq: q16
    var vAlpha: q16
    var vBeta: q16
    var va: q16

    /** `FOC_reset`. */
    constructor ()
      ensures ia == ib == iAlpha == iBeta == id == iq == vd == vq == vAlpha == vBeta == va == 0
    {
      ia, ib, iAlpha, iBeta, id, iq := 0, 0, 0, 0, 0, 0;
      vd, vq, vAlpha, vBeta, va := 0, 0, 0, 0, 0;
    }
  }

  /** `FOC_clarke`. */
  method Clarke(input: FocState, output: FocState)
    modifies output`iAlpha, output`iBeta
    ensures output.iAlpha == old(input.ia)
    ensures output.iBeta == ClarkeBeta(old(input.ia), old(input.ib))
  {
    output.iAlpha := input.ia;
    var sum := input.ia + input.ib * 2;
    output.iBeta := Wrap32(TruncDiv(sum * Q16_ONE, Q16_SQRT3));
  }

  /** `FOC_park`. */
  method Park(input: FocState, angle: ticks, output: FocState)
    requires InInt32(ParkD(Cos(Theta(angle)), Sin(Theta(angle)), input.iAlpha, input.iBeta))
    requires InInt32(ParkQ(Cos(Theta(angle)), Sin(Theta(angle)), input.iAlpha, input.iBeta))
    modifies output`id, output`iq
    ensures output.id == ParkD(Cos(Theta(angle)), Sin(Theta(angle)), old(input.iAlpha), old(input.iBeta))
    ensures output.iq == ParkQ(Cos(Theta(angle)), Sin(Theta(angle)), old(input.iAlpha), old(input.iBeta))
    ensures Abs(old(input.iAlpha)) < 0x8000_0000 && Abs(old(input.iBeta)) < 0x8000_0000 ==>
              forall sine: real -> real, pi: real :: IsSine(sine, pi) ==>
                TurnedBack(sine, pi, angle, old(input.iAlpha), old(input.iBeta), output.id, output.iq)
  {
    hide Sin, Cos, Theta, Q16Mul, IsSine, TurnedBack;
    ghost var a, b := input.iAlpha, input.iBeta;
    var theta := Theta(angle);
    var c := CosApprox(theta);
    var s := SinApprox(theta);
    output.id := Q16Mul(c, input.iAlpha) + Q16Mul(s, input.iBeta);
    output.iq := Q16Mul(-s, input.iAlpha) + Q16Mul(c, input.iBeta);
    forall sine: real -> real, pi: real | IsSine(sine, pi) && Abs(a) < 0x8000_0000 && Abs(b) < 0x8000_0000
      ensures TurnedBack(sine, pi, angle, a, b, output.id, output.iq)
    {
      ParkTurnsBack(sine, pi, angle, a, b);
    }
  }

  /** `FOC_inv_park`. */
  method InvPark(input: FocState, angle: ticks, output: FocState)
    requires InInt32(InvParkAlpha(Cos(Theta(angle)), Sin(Theta(angle)), input.vd, input.vq))
    requires InInt32(InvParkBeta(Cos(Theta(angle)), Sin(Theta(angle)), input.vd, input.vq))
    modifies output`vAlpha, output`vBeta
    ensures output.vAlpha == InvParkAlpha(Cos(Theta(angle)), Sin(Theta(angle)), old(input.vd), old(input.vq))
    ensures output.vBeta == InvParkBeta(Cos(Theta(angle)), Sin(Theta(angle)), old(input.vd), old(input.vq))
    ensures Abs(old(input.vd)) < 0x8000_0000 && Abs(old(input.vq)) < 0x8000_0000 ==>
              forall sine: real -> real, pi: real :: IsSine(sine, pi) ==>
                TurnedForward(sine, pi, angle, old(input.vd), old(input.vq), output.vAlpha, output.vBeta)
  {
    hide Sin, Cos, Theta, Q16Mul, IsSine, TurnedForward;
    ghost var d, q := input.vd, input.vq;
    var theta := Theta(angle);
    var c := CosApprox(theta);
    var s := SinApprox(theta);
    output.vAlpha := Q16Mul(c, input.vd) - Q16Mul(s, input.vq);
    output.vBeta := Q16Mul(s, input.vd) + Q16Mul(c, input.vq);
    forall sine: real -> real, pi: real | IsSine(sine, pi) && Abs(d) < 0x8000_0000 && Abs(q) < 0x8000_0000
      ensures TurnedForward(sine, pi, angle, d, q, output.vAlpha, output.vBeta)
    {
      InvParkTurnsForward(sine, pi, angle, d, q);
    }
  }

  /** `FOC_inv_clarke`; phase b is computed but, as in the C code, stored nowhere. */
  method InvClarke(input: FocState, output: FocState) returns (vc: q16)
    requires InInt32(0 - input.vAlpha) && InInt32(InvClarkeTmp(input.vAlpha, input.vBeta))
    requires InInt32(InvClarkeC(input.vAlpha, input.vBeta))
    modifies output`va
    ensures output.va == old(input.vAlpha)
    ensures vc == InvClarkeC(old(input.vAlpha), old(input.vBeta))
  {
    output.va := input.vAlpha;
    var tmp: q16 := -input.vAlpha + Q16Mul(Q16_SQRT3, input.vBeta);
    var vb: q16 := tmp / 2;
    vc := -output.va - vb;
  }

  /**
    One pass of measured currents through all four transforms, with the rotated currents
    fed straight back as voltages. For every encoder position and all phase currents up to
    2^28 the phases come back within an explicit linear bound, and no addition on the way
    leaves 32 bits (each transform's own precondition).
   */
  method RoundTrip(s: FocState, angle: ticks) returns (vc: q16)
    requires Abs(s.ia) <= MAX_CURRENT && Abs(s.ib) <= MAX_CURRENT
    modifies s
    ensures s.ia == old(s.ia) && s.ib == old(s.ib)
    ensures 4096 * Abs(s.va - s.ia) <= 5 * 4096 + Abs(s.ia)
    ensures 4096 * Abs(vc + (s.ia + s.ib)) <= 10 * 4096 + Abs(s.ia) + Abs(s.ib)
  {
    hide Sin, Cos, Q16Mul, ClarkeBeta;
    Clarke(s, s);
    ghost var c, sn := Cos(Theta(angle)), Sin(Theta(angle));
    AngleIsUnit(angle);
    ClarkeBetaBound(s.ia, s.ib);
    ParkBound(c, sn, s.iAlpha, s.iBeta);
    Park(s, angle, s);
    s.vd := s.id;
    s.vq := s.iq;
    InvParkOfPark(c, sn, s.iAlpha, s.iBeta);
    InvPark(s, angle, s);
    InvClarkeOfPerturbed(s.ia, s.ib, s.vAlpha, s.vBeta);
    vc := InvClarke(s, s);
  }
}
