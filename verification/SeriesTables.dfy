/**
  The floored sine series of `sin_raw` (bare_metal_foc/src/transforms.c) stays below its exact
  polynomial plus 2 LSB on the whole of [0, pi/4], which bounds on the single floors do not give.

  Most of the interval follows from residues: the error is large only if the cube is just below
  a multiple of 6, the fifth power just above one of 120, and the seventh just below one of 5040.
  What is left is cut into pieces, and each piece is judged by the powers at its two ends.
 */
module SeriesTables {
  import opened FixedPoint
  import opened Trig

  /** The floored powers of an angle, as `sin_raw` computes them. */
  datatype Powers = Powers(x: int, x2: int, x3: int, x5: int, x7: int) {
    predicate Exact() {
      && 65536 * x2 <= x * x < 65536 * x2 + 65536
      && 65536 * x3 <= x2 * x < 65536 * x3 + 65536
      && 65536 * x5 <= x3 * x2 < 65536 * x5 + 65536
      && 65536 * x7 <= x5 * x2 < 65536 * x7 + 65536
    }
  }

  function PowersOf(x: int): Powers {
    var x2 := MulShift(x, x);
    var x3 := MulShift(x2, x);
    var x5 := MulShift(x3, x2);
    Powers(x, x2, x3, x5, MulShift(x5, x2))
  }

  /** What `sin_raw` exceeds the exact polynomial by, in LSB. */
  function SinError(x: int): real
    requires 0 <= x <= Q16_PI_OVER_4
  {
    SinRaw(x) as real - 65536.0 * SinPoly(Radians(x))
  }

  // ---------------------------------------------------------------------------------
  // Two bounds on the error
  // ---------------------------------------------------------------------------------

  function FifthPower(q: real): real {
    Times(Times(Times(q, q), q), Times(q, q))
  }

  /** The error is bounded by the residues of the powers. */
  lemma SinErrorResidues(x: int)
    requires 0 <= x <= Q16_PI_OVER_4
    ensures var p := PowersOf(x);
            && p.x2 >= 0 && p.x3 >= 0 && p.x5 >= 0 && p.x7 >= 0
            && 5040.0 * SinError(x) < (840 * (p.x3 % 6 + 1) - 42 * (p.x5 % 120) + p.x7 % 5040 + 3) as real
                                      + 840.0 * Radians(x)
            && 120.0 * SinError(x) > -((p.x5 % 120) as real + 2.6)
            && p.x5 as real <= 65536.0 * FifthPower(Radians(x))
            && p.x7 as real <= 65536.0 * Times(FifthPower(Radians(x)), Times(Radians(x), Radians(x)))
  {
    hide Times, MulShift;
    var q := Radians(x);
    var x2, q2 := MulShift(x, x), Times(q, q);
    var x3, q3 := MulShift(x2, x), Times(q2, q);
    var x5, q5 := MulShift(x3, x2), Times(q3, q2);
    var x7, q7 := MulShift(x5, x2), Times(q5, q2);
    PowerBounds(q, q2, q3, Times(q2, q2), q5, Times(Times(q2, q2), q2), q7);
    ShiftedProductError(x, x, q, q, 0.0, 0.0, 0.78541, 0.78541);
    ShiftedProductError(x2, x, q2, q, 1.0, 0.0, 0.6169, q);
    ShiftedProductError(x3, x2, q3, q2, 1.78541, 1.0, 0.4846, 0.6169);
    ShiftedProductError(x5, x2, q5, q2, 2.6, 1.0, 0.299, 0.6169);
    assert x3 == 6 * (x3 / 6) + x3 % 6 && x5 == 120 * (x5 / 120) + x5 % 120 && x7 == 5040 * (x7 / 5040) + x7 % 5040;
  }

  lemma MulShiftMono(a: int, b: int, c: int, d: int)
    requires 0 <= a <= b && 0 <= c <= d
    ensures 0 <= MulShift(a, c) <= MulShift(b, d)
  {
    assert a * c <= b * c <= b * d;
  }

  lemma PowersMono(x: int, y: int)
    requires 0 <= x <= y
    ensures var p, r := PowersOf(x), PowersOf(y);
            0 <= p.x2 <= r.x2 && 0 <= p.x3 <= r.x3 && 0 <= p.x5 <= r.x5 && 0 <= p.x7 <= r.x7
  {
    hide MulShift;
    var p, r := PowersOf(x), PowersOf(y);
    MulShiftMono(x, y, x, y);
    MulShiftMono(p.x2, r.x2, x, y);
    MulShiftMono(p.x3, r.x3, p.x2, r.x2);
    MulShiftMono(p.x5, r.x5, p.x2, r.x2);
  }

  lemma ExactPowers(p: Powers)
    requires p.Exact()
    ensures p == PowersOf(p.x)
  {
    hide PowersOf;
    FloorOf(p.x * p.x, p.x2);
    FloorOf(p.x2 * p.x, p.x3);
    FloorOf(p.x3 * p.x2, p.x5);
    FloorOf(p.x5 * p.x2, p.x7);
    assert PowersOf(p.x) == p by { PowersFrom(p); }
  }

  lemma PowersFrom(p: Powers)
    requires MulShift(p.x, p.x) == p.x2 && MulShift(p.x2, p.x) == p.x3
    requires MulShift(p.x3, p.x2) == p.x5 && MulShift(p.x5, p.x2) == p.x7
    ensures PowersOf(p.x) == p
  {
  }

  lemma FloorOf(product: int, floor: int)
    requires 65536 * floor <= product < 65536 * floor + 65536
    ensures Shr16(product) == floor
  {
  }

  /** Bounds the residues on [l.x, h.x]; `budget` is in LSB / 5040. */
  predicate ByResidues(l: Powers, h: Powers, budget: int) {
    var a := if l.x3 / 6 == h.x3 / 6 then h.x3 % 6 else 5;
    var b := if l.x5 / 120 == h.x5 / 120 then l.x5 % 120 else 0;
    var c := if l.x7 / 5040 == h.x7 / 5040 then h.x7 % 5040 else 5039;
    65536 * (840 * (a + 1) - 42 * b + c + 3) + 840 * h.x <= 65536 * budget
  }

  const TWO_TO_32 := 0x1_0000_0000
  const TWO_TO_64 := TWO_TO_32 * TWO_TO_32
  const TWO_TO_96 := TWO_TO_64 * TWO_TO_32

  /** Compares the largest value of the code on [l.x, h.x] with the polynomial at `h.x`. */
  predicate ByValue(l: Powers, h: Powers, budget: int) {
    var n, n2 := h.x, h.x * h.x;
    var n3 := n2 * n;
    var n5 := n3 * n2;
    840 * TWO_TO_64 * n3 - 42 * TWO_TO_32 * n5 + n5 * n2
    + TWO_TO_96 * (5040 * (h.x5 / 120 - l.x3 / 6 - l.x7 / 5040) + 101 * (h.x - l.x)) < TWO_TO_96 * budget
  }

  lemma Residues(l: Powers, h: Powers, budget: int, x: int)
    requires l == PowersOf(l.x) && h == PowersOf(h.x) && 0 <= l.x <= x <= h.x <= Q16_PI_OVER_4
    requires ByResidues(l, h, budget)
    ensures 5040.0 * SinError(x) < budget as real
  {
    hide PowersOf, SinError;
    var p := PowersOf(x);
    SinErrorResidues(x);
    PowersMono(l.x, x);
    PowersMono(x, h.x);
    BlockResidue(l.x3, p.x3, h.x3, 6);
    BlockResidue(l.x5, p.x5, h.x5, 120);
    BlockResidue(l.x7, p.x7, h.x7, 5040);
  }

  /** Within one block of a modulus the residue is monotone. */
  lemma BlockResidue(l: int, p: int, h: int, m: int)
    requires 0 <= l <= p <= h && m in {6, 120, 5040}
    ensures l / m == h / m ==> l % m <= p % m <= h % m
    ensures 0 <= p % m <= m - 1
  {
    QuotientMono(l, p, m);
    QuotientMono(p, h, m);
  }

  lemma QuotientMono(a: int, b: int, m: int)
    requires 0 <= a <= b && m in {6, 120, 5040}
    ensures a / m <= b / m
    ensures a / m == b / m ==> a % m <= b % m
  {
    assert a / 6 <= b / 6 && a / 120 <= b / 120 && a / 5040 <= b / 5040;
    if m == 6 {
    } else if m == 120 {
    } else {
    }
  }

  lemma ScaledProduct(a: int, b: int, s: real, r: real, u: real, v: real)
    requires a as real == s * u && b as real == r * v
    ensures (a * b) as real == s * r * Times(u, v)
  {
  }

  /** `SinPoly` at an integer angle, without denominators. */
  lemma SinPolyAsInteger(n: int)
    ensures var n2 := n * n;
            var n3 := n2 * n;
            var n5 := n3 * n2;
            (840 * TWO_TO_64 * n3 - 42 * TWO_TO_32 * n5 + n5 * n2) as real
            == TWO_TO_96 as real * 5040.0 * (n as real - 65536.0 * SinPoly(Radians(n)))
  {
    hide Times;
    var q := Radians(n);
    var n2, q2 := n * n, Times(q, q);
    var n3, q3 := n2 * n, Times(q2, q);
    var n5, q5 := n3 * n2, Times(q3, q2);
    var s2, s3, s5 := 65536.0 * 65536.0, 65536.0 * 65536.0 * 65536.0, TWO_TO_64 as real * 65536.0;
    ScaledProduct(n, n, 65536.0, 65536.0, q, q);
    ScaledProduct(n2, n, s2, 65536.0, q2, q);
    ScaledProduct(n3, n2, s3, s2, q3, q2);
    ScaledProduct(n5, n2, s5, s2, q5, q2);
    assert (n5 * n2) as real == TWO_TO_96 as real * 65536.0 * Times(q5, q2);
    assert (TWO_TO_32 * n5) as real == TWO_TO_96 as real * 65536.0 * q5;
    assert (TWO_TO_64 * n3) as real == TWO_TO_96 as real * 65536.0 * q3;
  }

  lemma Values(l: Powers, h: Powers, budget: int, x: int)
    requires l == PowersOf(l.x) && h == PowersOf(h.x) && 0 <= l.x <= x <= h.x <= Q16_PI_OVER_4
    requires ByValue(l, h, budget)
    ensures 5040.0 * SinError(x) < budget as real
  {
    hide SinPoly, PowersOf, ByValue;
    var p := PowersOf(x);
    SinRawOf(x);
    hide SinRaw;
    PowersMono(l.x, x);
    PowersMono(x, h.x);
    QuotientMono(l.x3, p.x3, 6);
    QuotientMono(p.x5, h.x5, 120);
    QuotientMono(l.x7, p.x7, 5040);
    ByValueBound(l, h, budget);
    PolyLipschitz(Radians(x), Radians(h.x));
    SlackOfPiece(x, h.x, SinRaw(x), h.x5 / 120 - l.x3 / 6 - l.x7 / 5040,
                 SinPoly(Radians(x)), SinPoly(Radians(h.x)), budget);
  }

  lemma SlackOfPiece(x: int, hi: int, raw: int, floors: int, poly: real, polyHi: real, budget: int)
    requires raw <= x + floors
    requires 65536.0 * (polyHi - poly) <= 1.02 * (hi - x) as real
    requires 5040.0 * (hi as real - 65536.0 * polyHi) + (5040 * floors) as real + 100.8 * (hi - x) as real
             < budget as real
    ensures 5040.0 * (raw as real - 65536.0 * poly) < budget as real
  {
  }

  lemma SinRawOf(x: int)
    requires 0 <= x <= Q16_PI_OVER_4
    ensures var p := PowersOf(x);
            SinRaw(x) == x - p.x3 / 6 + p.x5 / 120 - p.x7 / 5040
  {
  }

  lemma ByValueBound(l: Powers, h: Powers, budget: int)
    requires ByValue(l, h, budget)
    ensures 5040.0 * (h.x as real - 65536.0 * SinPoly(Radians(h.x)))
            + (5040 * (h.x5 / 120 - l.x3 / 6 - l.x7 / 5040) + 101 * (h.x - l.x)) as real < budget as real
  {
    hide SinPoly;
    var n, n2 := h.x, h.x * h.x;
    var n3 := n2 * n;
    var n5 := n3 * n2;
    SinPolyAsInteger(n);
    CancelFactor(840 * TWO_TO_64 * n3 - 42 * TWO_TO_32 * n5 + n5 * n2,
                 5040 * (h.x5 / 120 - l.x3 / 6 - l.x7 / 5040) + 101 * (h.x - l.x), budget, TWO_TO_96,
                 5040.0 * (n as real - 65536.0 * SinPoly(Radians(n))));
  }

  lemma CancelFactor(i: int, j: int, budget: int, factor: int, r: real)
    requires factor > 0 && i + factor * j < factor * budget && i as real == factor as real * r
    ensures r + j as real < budget as real
  {
    var f := factor as real;
    assert (factor * j) as real == f * j as real && (factor * budget) as real == f * budget as real;
    ProductSign(f, r + j as real - budget as real);
  }

  lemma ProductSign(a: real, b: real)
    requires a > 0.0
    ensures a * b < 0.0 <==> b < 0.0
  {
  }

  /** The error at `x` is below `budget / 5040` LSB. */
  ghost predicate Below(x: int, budget: int) {
    0 <= x <= Q16_PI_OVER_4 && 5040.0 * SinError(x) < budget as real
  }

  lemma Piece(l: Powers, h: Powers, budget: int)
    requires l.Exact() && h.Exact() && 0 <= l.x <= h.x <= Q16_PI_OVER_4
    requires ByResidues(l, h, budget) || ByValue(l, h, budget)
    ensures forall x :: l.x <= x <= h.x ==> Below(x, budget)
  {
    hide PowersOf, SinError, ByResidues, ByValue;
    ExactPowers(l);
    ExactPowers(h);
    forall x | l.x <= x <= h.x
      ensures Below(x, budget)
    {
      if ByResidues(l, h, budget) {
        Residues(l, h, budget, x);
      } else {
        Values(l, h, budget, x);
      }
    }
  }

  // ---------------------------------------------------------------------------------
  // The pieces
  // ---------------------------------------------------------------------------------

  /** Below 2 LSB, part 1. */
  lemma Pieces1()
    ensures forall x :: 0 <= x <= 44970 ==> Below(x, 10080)
  {
    hide Below;
    Piece(Powers(0, 0, 0, 0, 0), Powers(44650, 30420, 20725, 9619, 4464), 10080);
    Piece(Powers(44651, 30421, 20726, 9620, 4465), Powers(44742, 30545, 20853, 9719, 4529), 10080);
    Piece(Powers(44743, 30547, 20855, 9720, 4530), Powers(44743, 30547, 20855, 9720, 4530), 10080);
    Piece(Powers(44744, 30548, 20856, 9721, 4531), Powers(44748, 30553, 20861, 9725, 4533), 10080);
    Piece(Powers(44749, 30555, 20863, 9727, 4535), Powers(44852, 30696, 21007, 9839, 4608), 10080);
    Piece(Powers(44853, 30697, 21009, 9840, 4609), Powers(44855, 30700, 21012, 9842, 4610), 10080);
    Piece(Powers(44856, 30701, 21013, 9843, 4611), Powers(44859, 30705, 21017, 9846, 4613), 10080);
    Piece(Powers(44860, 30707, 21019, 9848, 4614), Powers(44961, 30845, 21161, 9959, 4687), 10080);
    Piece(Powers(44962, 30846, 21162, 9960, 4687), Powers(44965, 30851, 21167, 9964, 4690), 10080);
    Piece(Powers(44966, 30852, 21168, 9965, 4691), Powers(44970, 30857, 21173, 9969, 4693), 10080);
  }

  /** Below 2 LSB, part 2. */
  lemma Pieces2()
    ensures forall x :: 44971 <= x <= 45282 ==> Below(x, 10080)
  {
    hide Below;
    Piece(Powers(44971, 30859, 21175, 9970, 4694), Powers(45069, 30993, 21313, 10079, 4766), 10080);
    Piece(Powers(45070, 30995, 21315, 10080, 4767), Powers(45071, 30996, 21316, 10081, 4767), 10080);
    Piece(Powers(45072, 30998, 21318, 10083, 4769), Powers(45075, 31002, 21322, 10086, 4771), 10080);
    Piece(Powers(45076, 31003, 21324, 10087, 4771), Powers(45080, 31009, 21330, 10092, 4775), 10080);
    Piece(Powers(45081, 31010, 21331, 10093, 4775), Powers(45175, 31139, 21464, 10198, 4845), 10080);
    Piece(Powers(45176, 31141, 21466, 10200, 4846), Powers(45177, 31142, 21467, 10200, 4846), 10080);
    Piece(Powers(45178, 31143, 21468, 10201, 4847), Powers(45181, 31148, 21473, 10205, 4850), 10080);
    Piece(Powers(45182, 31149, 21474, 10206, 4850), Powers(45185, 31153, 21479, 10210, 4853), 10080);
    Piece(Powers(45186, 31155, 21480, 10211, 4854), Powers(45272, 31273, 21603, 10308, 4918), 10080);
    Piece(Powers(45273, 31275, 21605, 10310, 4920), Powers(45282, 31287, 21617, 10319, 4926), 10080);
  }

  /** Below 2 LSB, part 3. */
  lemma Pieces3()
    ensures forall x :: 45283 <= x <= 49691 ==> Below(x, 10080)
  {
    hide Below;
    Piece(Powers(45283, 31288, 21618, 10320, 4926), Powers(45286, 31293, 21623, 10324, 4929), 10080);
    Piece(Powers(45287, 31294, 21624, 10325, 4930), Powers(45290, 31298, 21629, 10329, 4932), 10080);
    Piece(Powers(45291, 31299, 21630, 10330, 4933), Powers(45294, 31304, 21635, 10334, 4936), 10080);
    Piece(Powers(45295, 31305, 21636, 10335, 4936), Powers(45386, 31431, 21767, 10439, 5006), 10080);
    Piece(Powers(45387, 31432, 21768, 10440, 5007), Powers(45390, 31436, 21772, 10443, 5009), 10080);
    Piece(Powers(45391, 31438, 21774, 10445, 5010), Powers(45394, 31442, 21778, 10448, 5012), 10080);
    Piece(Powers(45395, 31443, 21779, 10449, 5013), Powers(45395, 31443, 21779, 10449, 5013), 10080);
    Piece(Powers(45396, 31445, 21781, 10450, 5014), Powers(45399, 31449, 21785, 10454, 5016), 10080);
    Piece(Powers(45400, 31450, 21786, 10454, 5016), Powers(45490, 31575, 21916, 10559, 5087), 10080);
    Piece(Powers(45491, 31577, 21918, 10560, 5088), Powers(49691, 37676, 28566, 16422, 9440), 10080);
  }

  /** Below 2 LSB, part 4. */
  lemma Pieces4()
    ensures forall x :: 49692 <= x <= 49918 ==> Below(x, 10080)
  {
    hide Below;
    Piece(Powers(49692, 37678, 28568, 16424, 9442), Powers(49701, 37692, 28584, 16439, 9454), 10080);
    Piece(Powers(49702, 37693, 28586, 16441, 9456), Powers(49722, 37723, 28620, 16473, 9481), 10080);
    Piece(Powers(49723, 37725, 28622, 16475, 9483), Powers(49773, 37801, 28708, 16558, 9550), 10080);
    Piece(Powers(49774, 37802, 28710, 16560, 9552), Powers(49777, 37807, 28715, 16565, 9556), 10080);
    Piece(Powers(49778, 37808, 28717, 16566, 9556), Powers(49845, 37910, 28833, 16678, 9647), 10080);
    Piece(Powers(49846, 37912, 28835, 16680, 9649), Powers(49846, 37912, 28835, 16680, 9649), 10080);
    Piece(Powers(49847, 37913, 28836, 16681, 9650), Powers(49849, 37916, 28840, 16685, 9653), 10080);
    Piece(Powers(49850, 37918, 28842, 16687, 9654), Powers(49906, 38003, 28939, 16781, 9730), 10080);
    Piece(Powers(49907, 38005, 28941, 16783, 9732), Powers(49917, 38020, 28958, 16799, 9745), 10080);
    Piece(Powers(49918, 38021, 28960, 16801, 9747), Powers(49918, 38021, 28960, 16801, 9747), 10080);
  }

  /** Below 2 LSB, part 5. */
  lemma Pieces5()
    ensures forall x :: 49919 <= x <= 50087 ==> Below(x, 10080)
  {
    hide Below;
    Piece(Powers(49919, 38023, 28962, 16803, 9748), Powers(49922, 38028, 28967, 16808, 9753), 10080);
    Piece(Powers(49923, 38029, 28969, 16810, 9754), Powers(49988, 38128, 29082, 16919, 9843), 10080);
    Piece(Powers(49989, 38130, 29084, 16921, 9844), Powers(49991, 38133, 29087, 16924, 9847), 10080);
    Piece(Powers(49992, 38134, 29089, 16926, 9848), Powers(49994, 38137, 29092, 16929, 9851), 10080);
    Piece(Powers(49995, 38139, 29094, 16931, 9853), Powers(50027, 38188, 29150, 16985, 9897), 10080);
    Piece(Powers(50028, 38189, 29152, 16987, 9898), Powers(50058, 38235, 29204, 17038, 9940), 10080);
    Piece(Powers(50059, 38237, 29206, 17040, 9941), Powers(50059, 38237, 29206, 17040, 9941), 10080);
    Piece(Powers(50060, 38238, 29208, 17041, 9942), Powers(50063, 38243, 29213, 17047, 9947), 10080);
    Piece(Powers(50064, 38244, 29215, 17048, 9948), Powers(50066, 38247, 29218, 17051, 9951), 10080);
    Piece(Powers(50067, 38249, 29220, 17053, 9952), Powers(50087, 38279, 29255, 17087, 9980), 10080);
  }

  /** Below 2 LSB, part 6. */
  lemma Pieces6()
    ensures forall x :: 50088 <= x <= 51472 ==> Below(x, 10080)
  {
    hide Below;
    Piece(Powers(50088, 38281, 29257, 17089, 9982), Powers(50129, 38344, 29329, 17159, 10039), 10080);
    Piece(Powers(50130, 38345, 29330, 17160, 10040), Powers(50131, 38347, 29333, 17163, 10042), 10080);
    Piece(Powers(50132, 38348, 29334, 17164, 10043), Powers(50134, 38351, 29337, 17167, 10045), 10080);
    Piece(Powers(50135, 38353, 29340, 17170, 10048), Powers(50138, 38357, 29344, 17174, 10051), 10080);
    Piece(Powers(50139, 38359, 29346, 17176, 10053), Powers(50199, 38451, 29452, 17279, 10137), 10080);
    Piece(Powers(50200, 38452, 29453, 17280, 10138), Powers(51472, 40426, 31750, 19585, 12081), 10080);
  }

  /** Before the end of the interval, the error leaves room for another 0.212 LSB. */
  lemma LastPieces()
    ensures forall x :: 50143 <= x <= 51472 ==> Below(x, 9010)
  {
    hide Below;
    Piece(Powers(50143, 38365, 29353, 17183, 10058), Powers(50145, 38368, 29357, 17187, 10062), 9010);
    Piece(Powers(50146, 38370, 29359, 17189, 10063), Powers(50148, 38373, 29362, 17192, 10066), 9010);
    Piece(Powers(50149, 38374, 29364, 17193, 10067), Powers(50152, 38379, 29369, 17198, 10071), 9010);
    Piece(Powers(50153, 38380, 29371, 17200, 10072), Powers(50155, 38383, 29374, 17203, 10075), 9010);
    Piece(Powers(50156, 38385, 29376, 17205, 10077), Powers(50199, 38451, 29452, 17279, 10137), 9010);
    Piece(Powers(50200, 38452, 29453, 17280, 10138), Powers(51472, 40426, 31750, 19585, 12081), 9010);
  }

  /** The floored sine series exceeds its polynomial by less than 2 LSB. */
  lemma SinErrorBelowTwo(x: int)
    requires 0 <= x <= Q16_PI_OVER_4
    ensures SinError(x) < 2.0
  {
    hide SinError;
    Pieces1();
    Pieces2();
    Pieces3();
    Pieces4();
    Pieces5();
    Pieces6();
    assert Below(x, 10080);
  }

  lemma SinErrorNearTheEnd(x: int)
    requires 50143 <= x <= Q16_PI_OVER_4
    ensures SinError(x) < 1.788
  {
    hide SinError;
    LastPieces();
    assert Below(x, 9010);
  }

  // ---------------------------------------------------------------------------------
  // The cosine series
  // ---------------------------------------------------------------------------------

  /** The floored powers of an angle, as `cos_raw` computes them. */
  datatype EvenPowers = EvenPowers(x: int, x2: int, x4: int, x6: int) {
    predicate Exact() {
      && 65536 * x2 <= x * x < 65536 * x2 + 65536
      && 65536 * x4 <= x2 * x2 < 65536 * x4 + 65536
      && 65536 * x6 <= x4 * x2 < 65536 * x6 + 65536
    }
  }

  function EvenPowersOf(x: int): EvenPowers {
    var x2 := MulShift(x, x);
    var x4 := MulShift(x2, x2);
    EvenPowers(x, x2, x4, MulShift(x4, x2))
  }

  /** What `cos_raw` exceeds the exact polynomial by, in LSB. */
  function CosError(x: int): real
    requires 0 <= x <= Q16_PI_OVER_4
  {
    CosRaw(x) as real - 65536.0 * CosPoly(Radians(x))
  }

  lemma CosErrorResidues(x: int)
    requires 0 <= x <= Q16_PI_OVER_4
    ensures var p, q := EvenPowersOf(x), Radians(x);
            var fixed := 360 * (p.x2 % 2) - 30 * (p.x4 % 24) + p.x6 % 720;
            && p.x2 >= 0 && p.x4 >= 0 && 0 <= p.x6
            && p.x6 as real <= 65536.0 * Times(Times(Times(q, q), Times(q, q)), Times(q, q))
            && (fixed - 30) as real < 720.0 * CosError(x) < fixed as real + 362.76
  {
    hide Times, MulShift;
    var q := Radians(x);
    var x2, q2 := MulShift(x, x), Times(q, q);
    var x4, q4 := MulShift(x2, x2), Times(q2, q2);
    var x6, q6 := MulShift(x4, x2), Times(q4, q2);
    PowerBounds(q, q2, Times(q2, q), q4, Times(Times(q2, q), q2), q6, Times(Times(Times(q2, q), q2), q2));
    ShiftedProductError(x, x, q, q, 0.0, 0.0, 0.78541, 0.78541);
    var e2 := 65536.0 * q2 - x2 as real;
    ShiftedProductError(x2, x2, q2, q2, e2, e2, 0.6169, 0.6169);
    ShiftedProductError(x4, x2, q4, q2, 2.2338, 1.0, 0.3806, 0.6169);
    assert x2 == 2 * (x2 / 2) + x2 % 2 && x4 == 24 * (x4 / 24) + x4 % 24 && x6 == 720 * (x6 / 720) + x6 % 720;
  }

  /** Bounds the residues on [l.x, h.x] from the other side. */
  predicate ByEvenResidues(l: EvenPowers, h: EvenPowers, floor: int) {
    var a := if l.x2 == h.x2 then l.x2 % 2 else 0;
    var b := if l.x4 / 24 == h.x4 / 24 then h.x4 % 24 else 23;
    var c := if l.x6 / 720 == h.x6 / 720 then l.x6 % 720 else 0;
    360 * a - 30 * (b + 1) + c >= floor
  }

  ghost predicate Above(x: int, floor: int) {
    0 <= x <= Q16_PI_OVER_4 && 720.0 * CosError(x) > floor as real
  }

  lemma EvenPiece(l: EvenPowers, h: EvenPowers, floor: int)
    requires l.Exact() && h.Exact() && 0 <= l.x <= h.x <= Q16_PI_OVER_4 && ByEvenResidues(l, h, floor)
    ensures forall x :: l.x <= x <= h.x ==> Above(x, floor)
  {
    ExactEvenPowers(l);
    ExactEvenPowers(h);
    hide EvenPowersOf, CosError;
    forall x | l.x <= x <= h.x
      ensures Above(x, floor)
    {
      var p := EvenPowersOf(x);
      CosErrorResidues(x);
      EvenPowersMono(l.x, x);
      EvenPowersMono(x, h.x);
      EvenBlocks(l, p, h);
    }
  }

  lemma EvenBlocks(l: EvenPowers, p: EvenPowers, h: EvenPowers)
    requires 0 <= l.x4 <= p.x4 <= h.x4 && 0 <= l.x6 <= p.x6 <= h.x6
    ensures 0 <= p.x4 % 24 <= 23 && (l.x4 / 24 == h.x4 / 24 ==> p.x4 % 24 <= h.x4 % 24)
    ensures 0 <= p.x6 % 720 && (l.x6 / 720 == h.x6 / 720 ==> l.x6 % 720 <= p.x6 % 720)
  {
  }

  lemma EvenPowersMono(x: int, y: int)
    requires 0 <= x <= y
    ensures var p, r := EvenPowersOf(x), EvenPowersOf(y);
            0 <= p.x2 <= r.x2 && 0 <= p.x4 <= r.x4 && 0 <= p.x6 <= r.x6
  {
    hide MulShift;
    var p, r := EvenPowersOf(x), EvenPowersOf(y);
    MulShiftMono(x, y, x, y);
    MulShiftMono(p.x2, r.x2, p.x2, r.x2);
    MulShiftMono(p.x4, r.x4, p.x2, r.x2);
  }

  lemma ExactEvenPowers(p: EvenPowers)
    requires p.Exact()
    ensures p == EvenPowersOf(p.x)
  {
    FloorOf(p.x * p.x, p.x2);
    FloorOf(p.x2 * p.x2, p.x4);
    FloorOf(p.x4 * p.x2, p.x6);
  }

  lemma EvenPieces()
    ensures forall x :: 51348 <= x <= 51471 ==> Above(x, -601)
  {
    hide Above;
    EvenPiece(EvenPowers(51348, 40231, 24696, 15160), EvenPowers(51358, 40247, 24716, 15178), -601);
    EvenPiece(EvenPowers(51359, 40248, 24717, 15179), EvenPowers(51359, 40248, 24717, 15179), -601);
    EvenPiece(EvenPowers(51360, 40250, 24720, 15182), EvenPowers(51371, 40267, 24741, 15201), -601);
    EvenPiece(EvenPowers(51372, 40269, 24743, 15203), EvenPowers(51372, 40269, 24743, 15203), -601);
    EvenPiece(EvenPowers(51373, 40270, 24744, 15204), EvenPowers(51383, 40286, 24764, 15222), -601);
    EvenPiece(EvenPowers(51384, 40288, 24766, 15224), EvenPowers(51384, 40288, 24766, 15224), -601);
    EvenPiece(EvenPowers(51385, 40289, 24768, 15226), EvenPowers(51396, 40306, 24789, 15245), -601);
    EvenPiece(EvenPowers(51397, 40308, 24791, 15247), EvenPowers(51471, 40424, 24934, 15379), -601);
  }

  /** Just below pi/4 the floored cosine series is less than 0.835 LSB under its polynomial. */
  lemma CosErrorNearTheEnd(x: int)
    requires 51348 <= x <= 51471
    ensures CosError(x) > -0.835
  {
    hide CosError;
    EvenPieces();
    assert Above(x, -601);
  }
}
