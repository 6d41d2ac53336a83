/** The BMP180 compensation: integers only, floor shifts, two divisions, one branch at 2^31.

    A right shift of a signed 64-bit word floors, and so does Dafny's `/` on a positive
    literal divisor, so `x >> k` is written `x / 2^k`.  Machine width is a theorem here
    (`WidthIsExactlyTheSquare`), not an assumption. */
module Baro {
  import opened Arith
  import opened Options

  /** The eleven calibration words (mb is read off the chip and never used). */
  datatype Cal = Cal(ac1: int, ac2: int, ac3: int, ac4: int, ac5: int, ac6: int,
                     b1: int, b2: int, mc: int, md: int)

  /** Temperature in tenths of a degree, pressure in Pa. */
  datatype Reading = Reading(tenths: int, pa: int)

  const I64_MAX: int := 0x7FFF_FFFF_FFFF_FFFF
  const BRANCH: int := 0x8000_0000
  /** The highest and the lowest product of 50000 on either side of the branch. */
  const BELOW_BRANCH: int := 42949 * 50000
  const AT_BRANCH: int := 42950 * 50000
  /** From here up the final quadratic correction never turns a rise into a fall. */
  const TURN: int := -48128

  predicate Signed16(x: int) { -0x8000 <= x < 0x8000 }

  predicate Unsigned16(x: int) { 0 <= x < 0x1_0000 }

  /** What 22 bytes off the chip can say: ac4, ac5 and ac6 unsigned, the rest signed. */
  predicate Words(c: Cal) {
    && Signed16(c.ac1) && Signed16(c.ac2) && Signed16(c.ac3)
    && Unsigned16(c.ac4) && Unsigned16(c.ac5) && Unsigned16(c.ac6)
    && Signed16(c.b1) && Signed16(c.b2) && Signed16(c.mc) && Signed16(c.md)
  }

  predicate InI64(x: int) { -I64_MAX - 1 <= x <= I64_MAX }

  // ----- the arithmetic ------------------------------------------------------

  /** `i64::div_euclid`: Dafny's own division. */
  function FDiv(a: int, b: int): int
    requires b != 0
  {
    a / b
  }

  /** Python's `//`: the floor of the quotient, whatever the sign of the divisor. */
  function FloorDiv(a: int, b: int): int
    requires b != 0
  {
    if b > 0 then a / b else (-a) / (-b)
  }

  function X1(c: Cal, ut: int): int { ((ut - c.ac6) * c.ac5) / 32768 }

  function X3ForB3(c: Cal, b6: int): int {
    (c.b2 * ((b6 * b6) / 4096)) / 2048 + (c.ac2 * b6) / 2048
  }

  function B3(c: Cal, b6: int): int { ((c.ac1 * 4 + X3ForB3(c, b6)) + 2) / 4 }

  function X3ForB4(c: Cal, b6: int): int {
    (((c.ac3 * b6) / 8192 + (c.b1 * ((b6 * b6) / 4096)) / 65536) + 2) / 4
  }

  function B4(c: Cal, b6: int): int { (c.ac4 * (X3ForB4(c, b6) + 32768)) / 32768 }

  function B7(c: Cal, b6: int, up: int): int { (up - B3(c, b6)) * 50000 }

  function Uncorrected(b7: int, b4: int): int
    requires b4 != 0
  {
    if b7 < BRANCH then FDiv(b7 * 2, b4) else FDiv(b7, b4) * 2
  }

  function Corrected(p: int): int {
    p + (((p / 256) * (p / 256) * 3038) / 65536 + (-7357 * p) / 65536 + 3791) / 16
  }

  function B5(c: Cal, ut: int): int
    requires X1(c, ut) + c.md != 0
  {
    X1(c, ut) + FDiv(c.mc * 2048, X1(c, ut) + c.md)
  }

  function B6(c: Cal, ut: int): int
    requires X1(c, ut) + c.md != 0
  {
    B5(c, ut) - 4000
  }

  /** None is the division by zero, which panics in Rust and raises in Python. */
  function Compensate(c: Cal, ut: int, up: int): Option<Reading> {
    if X1(c, ut) + c.md == 0 then None else
    var b5 := B5(c, ut);
    var b6 := b5 - 4000;
    var b4 := B4(c, b6);
    if b4 == 0 then None else
    Some(Reading((b5 + 8) / 16, Corrected(Uncorrected(B7(c, b6, up), b4))))
  }

  // The Python driver's form of the same datasheet section, line by line, with floor division on
  // bignums.  It shares no stage with `Compensate`.

  function ReferenceB3(c: Cal, b6: int): int {
    var x1 := (c.b2 * ((b6 * b6) / 4096)) / 2048;
    var x2 := (c.ac2 * b6) / 2048;
    var x3 := x1 + x2;
    ((c.ac1 * 4 + x3) + 2) / 4
  }

  function ReferenceB4(c: Cal, b6: int): int {
    var x1 := (c.ac3 * b6) / 8192;
    var x2 := (c.b1 * ((b6 * b6) / 4096)) / 65536;
    var x3 := ((x1 + x2) + 2) / 4;
    (c.ac4 * (x3 + 32768)) / 32768
  }

  function ReferencePressure(b7: int, b4: int): int
    requires b4 != 0
  {
    var p := if b7 < 0x80000000 then FloorDiv(b7 * 2, b4) else FloorDiv(b7, b4) * 2;
    var x1 := (p / 256) * (p / 256);
    var x1' := (x1 * 3038) / 65536;
    var x2 := (-7357 * p) / 65536;
    p + (x1' + x2 + 3791) / 16
  }

  function Reference(c: Cal, ut: int, up: int): Option<Reading> {
    var x1 := ((ut - c.ac6) * c.ac5) / 32768;
    if x1 + c.md == 0 then None else
    var x2 := FloorDiv(c.mc * 2048, x1 + c.md);
    var b5 := x1 + x2;
    var b6 := b5 - 4000;
    var b4 := ReferenceB4(c, b6);
    if b4 == 0 then None else
    Some(Reading((b5 + 8) / 16, ReferencePressure((up - ReferenceB3(c, b6)) * 50000, b4)))
  }

  // ----- div_euclid against the floor -----------------------------------------

  /** The greatest integer not above the quotient. */
  lemma FloorDivIsTheFloor(a: int, b: int)
    requires b != 0
    ensures b > 0 ==> FloorDiv(a, b) * b <= a < (FloorDiv(a, b) + 1) * b
    ensures b < 0 ==> FloorDiv(a, b) * b >= a > (FloorDiv(a, b) + 1) * b
  {
    var d, n := if b > 0 then b else -b, if b > 0 then a else -a;
    var q := n / d;
    assert n == q * d + n % d;
    assert (q + 1) * d == q * d + d;
    if b < 0 {
      assert q * b == -(q * d) && (q + 1) * b == -((q + 1) * d);
    }
  }

  lemma EuclidIsFloor(a: int, b: int)
    requires b != 0
    ensures FDiv(a, b) == FloorDiv(a, b) <==> b > 0 || a % b == 0
    ensures b < 0 && a % b != 0 ==> FDiv(a, b) == FloorDiv(a, b) + 1
  {
    if b < 0 {
      var d, q, r := -b, a / b, a % b;
      assert a == b * q + r && 0 <= r < d;
      assert -a == d * q - r;
      if r == 0 {
        assert (-a) / d == q by { DivUnique(-a, d, q, 0); }
      } else {
        assert (-a) / d == q - 1 by {
          assert -a == d * (q - 1) + (d - r);
          DivUnique(-a, d, q - 1, d - r);
        }
      }
    }
  }

  // ----- the chip's domain ------------------------------------------------------

  predicate InDomain(c: Cal, ut: int) {
    && Words(c) && Unsigned16(ut)
    && X1(c, ut) + c.md > 0
    && -0x4000 <= B6(c, ut) <= 0x4000
    && c.ac4 >= 8192
  }

  lemma QuotientWithin(a: int, b: int, bound: int)
    requires b != 0 && -bound <= a <= bound
    ensures -bound <= a / b <= bound
  {
    if b > 0 {
      PositiveQuotientWithin(a, b, bound);
    } else {
      PositiveQuotientWithin(a, -b, bound);
      EuclidNegates(a, b);
    }
  }

  lemma EuclidNegates(a: int, b: int)
    requires b < 0
    ensures a / b == -(a / -b)
  {
    assert a == (-b) * (-(a / b)) + a % b;
    DivUnique(a, -b, -(a / b), a % b);
  }

  lemma PositiveQuotientWithin(a: int, d: int, bound: int)
    requires d > 0 && -bound <= a <= bound
    ensures -bound <= a / d <= bound
  {
    DivAtMost(a, d, bound);
    MulLe(1, d, bound + 1);
    DivAtMost(a, d, -bound - 1);
    MulLe(1, d, bound);
  }

  /** On the chip's domain both divisors are positive, with 2048 to spare. */
  lemma DivisorsArePositive(c: Cal, ut: int)
    requires InDomain(c, ut)
    ensures 2048 <= B4(c, B6(c, ut))
  {
    var b6 := B6(c, ut);
    SquareWithin(b6, 0x4000);
    MulWithin(c.ac3, b6, 0x8000, 0x4000);
    MulWithin(c.b1, (b6 * b6) / 4096, 0x8000, 0x1_0000);
    var x3 := X3ForB4(c, b6);
    assert x3 + 32768 >= 8192;
    MulLe(8192, x3 + 32768, c.ac4);
    MulLe(8192, c.ac4, 8192);
  }

  lemma SameB3(c: Cal, b6: int)
    ensures ReferenceB3(c, b6) == B3(c, b6)
  {
  }

  lemma SameB4(c: Cal, b6: int)
    ensures ReferenceB4(c, b6) == B4(c, b6)
  {
  }

  lemma SamePressure(b7: int, b4: int)
    requires b4 > 0
    ensures ReferencePressure(b7, b4) == Corrected(Uncorrected(b7, b4))
  {
  }

  /** Rust's answer is the Python reference's wherever both divisors are positive, whatever the
      words and the raw readings. */
  lemma SameOnPositiveDivisors(c: Cal, ut: int, up: int)
    requires X1(c, ut) + c.md > 0 && B4(c, B6(c, ut)) > 0
    ensures Compensate(c, ut, up) == Reference(c, ut, up)
    ensures Compensate(c, ut, up).Some?
  {
    var b6 := B6(c, ut);
    EuclidIsFloor(c.mc * 2048, X1(c, ut) + c.md);
    ReferenceFromStages(c, ut, up, b6 + 4000, b6, B4(c, b6), B7(c, b6, up));
  }

  /** So it is for every reading on the chip's domain. */
  lemma CompensateIsTheReference(c: Cal, ut: int, up: int)
    requires InDomain(c, ut)
    ensures Compensate(c, ut, up) == Reference(c, ut, up)
    ensures Compensate(c, ut, up).Some?
  {
    DivisorsArePositive(c, ut);
    SameOnPositiveDivisors(c, ut, up);
  }

  /** Legal chip words whose first divisor is negative and does not divide. */
  const PARTING := Cal(0, 0, 0, 32768, 32768, 32768, 0, 0, 129, 0)

  /** Off the domain the two part company at b5, exactly when the first divisor is negative
      and does not divide; with these words the readings differ. */
  lemma ReferencePartsOffDomain()
    ensures Words(PARTING) && X1(PARTING, 0) + PARTING.md < 0
    ensures Compensate(PARTING, 0, 50000) == Some(Reading(-2048, 152781))
    ensures Reference(PARTING, 0, 50000) == Some(Reading(-2049, 152781))
  {
    PartingStages(PARTING);
    RustParts(PARTING);
    ReferenceParts(PARTING);
  }

  predicate Parting(c: Cal) {
    c.ac1 == c.ac2 == c.ac3 == c.b1 == c.b2 == c.md == 0 && c.ac4 == 32768 && c.mc == 129 && X1(c, 0) == -32768
  }

  lemma PartingStages(c: Cal)
    requires c == PARTING
    ensures Parting(c)
  {
  }

  lemma RustParts(c: Cal)
    requires Parting(c)
    ensures Compensate(c, 0, 50000) == Some(Reading(-2048, 152781))
  {
    assert FDiv(264192, -32768) == -8;
    FlatCalibration(c, 0, -8);
    assert Uncorrected(2500000000, 32768) == 152586;
    CorrectedIs(152586, 596, 16466, -17130);
    FromStages(c, 0, 50000, -32776, -36776, 32768, 2500000000, 152586);
  }

  lemma ReferenceParts(c: Cal)
    requires Parting(c)
    ensures Reference(c, 0, 50000) == Some(Reading(-2049, 152781))
  {
    assert FloorDiv(264192, -32768) == -9;
    FlatCalibration(c, 0, -9);
    assert Uncorrected(2500000000, 32768) == 152586;
    CorrectedIs(152586, 596, 16466, -17130);
    ReferenceFromStages(c, 0, 50000, -32777, -36777, 32768, 2500000000);
  }

  lemma ReferenceFromStages(c: Cal, ut: int, up: int, b5: int, b6: int, b4: int, b7: int)
    requires X1(c, ut) + c.md != 0 && b5 == X1(c, ut) + FloorDiv(c.mc * 2048, X1(c, ut) + c.md)
    requires b6 == b5 - 4000 && B4(c, b6) == b4 && b4 > 0 && B7(c, b6, up) == b7
    ensures Reference(c, ut, up) == Some(Reading((b5 + 8) / 16, Corrected(Uncorrected(b7, b4))))
  {
    SameB3(c, b6);
    SameB4(c, b6);
    SamePressure(b7, b4);
  }

  /** With these coefficients zero the pressure does not depend on the temperature. */
  lemma FlatCalibration(c: Cal, ut: int, q: int)
    requires c.ac1 == c.ac2 == c.ac3 == c.b1 == c.b2 == 0 && c.ac4 == 32768
    requires X1(c, ut) == -32768
    ensures var b6 := -32768 + q - 4000; B4(c, b6) == 32768 && B7(c, b6, 50000) == 2500000000
  {
    var b6 := -32768 + q - 4000;
    assert X3ForB4(c, b6) == 0 && X3ForB3(c, b6) == 0;
  }

  // ----- 64-bit width ------------------------------------------------------------

  /** Every intermediate value of `compensate`, in order. */
  function Intermediates(c: Cal, ut: int, up: int): seq<int>
    requires X1(c, ut) + c.md != 0 && B4(c, B6(c, ut)) != 0
  {
    var x1 := X1(c, ut);
    var b6 := B6(c, ut);
    var s := (b6 * b6) / 4096;
    var b4 := B4(c, b6);
    var b7 := B7(c, b6, up);
    var p := Uncorrected(b7, b4);
    [ (ut - c.ac6) * c.ac5, c.mc * 2048, x1 + c.md, b6 + 4000, b6, b6 * b6,
      c.b2 * s, c.ac2 * b6, X3ForB3(c, b6), c.ac1 * 4 + X3ForB3(c, b6) + 2,
      c.ac3 * b6, c.b1 * s, X3ForB4(c, b6), c.ac4 * (X3ForB4(c, b6) + 32768), b4,
      up - B3(c, b6), b7, b7 * 2, p,
      (p / 256) * (p / 256), (p / 256) * (p / 256) * 3038, -7357 * p, Corrected(p) ]
  }

  predicate AllFit(xs: seq<int>) { forall i :: 0 <= i < |xs| ==> InI64(xs[i]) }

  /** How far each stage reaches over every chip word, with no limit on b6. */
  lemma StageBounds(c: Cal, ut: int, up: int)
    requires Words(c) && Unsigned16(ut) && Unsigned16(up)
    requires X1(c, ut) + c.md != 0 && B4(c, B6(c, ut)) != 0
    ensures AllFit(Intermediates(c, ut, up)[..19])
  {
    EarlyStages(c, ut);
    LateStages(c, ut, up);
  }

  predicate Within(x: int, bound: int) { -bound <= x <= bound }

  /** Up to b6, and everything made from b6 and the calibration words alone. */
  lemma EarlyStages(c: Cal, ut: int)
    requires Words(c) && Unsigned16(ut) && X1(c, ut) + c.md != 0
    ensures var b6 := B6(c, ut);
            var s := (b6 * b6) / 4096;
            && Within((ut - c.ac6) * c.ac5, 0xFFFE_0001) && Within(c.mc * 2048, 0x400_0000)
            && Within(b6, 0x800_0000) && 0 <= b6 * b6 <= 0x40_0000_0000_0000
            && Within(c.b2 * s, 0x200_0000_0000_0000) && Within(c.ac2 * b6, 0x400_0000_0000)
            && Within(c.ac3 * b6, 0x400_0000_0000) && Within(c.b1 * s, 0x200_0000_0000_0000)
            && Within(X3ForB4(c, b6), 0x100_0000_0000)
            && Within(c.ac4 * (X3ForB4(c, b6) + 32768), 0x200_0000_0000_0000)
            && Within(B3(c, b6), 0x4001_0000_0000)
  {
    var b6 := B6(c, ut);
    MulWithin(ut - c.ac6, c.ac5, 0xFFFF, 0xFFFF);
    QuotientWithin(c.mc * 2048, X1(c, ut) + c.md, 0x400_0000);
    assert Within(b6, 0x800_0000);
    SquareWithin(b6, 0x800_0000);
    var s := (b6 * b6) / 4096;
    assert 0 <= s <= 0x400_0000_0000;
    MulWithin(c.b2, s, 0x8000, 0x400_0000_0000);
    MulWithin(c.ac2, b6, 0x8000, 0x800_0000);
    MulWithin(c.ac3, b6, 0x8000, 0x800_0000);
    MulWithin(c.b1, s, 0x8000, 0x400_0000_0000);
    assert Within(X3ForB4(c, b6), 0x100_0000_0000);
    MulWithin(c.ac4, X3ForB4(c, b6) + 32768, 0x1_0000, 0x200_0000_0000);
  }

  /** From b3 and b4 to the uncorrected pressure. */
  lemma LateStages(c: Cal, ut: int, up: int)
    requires Unsigned16(up) && X1(c, ut) + c.md != 0
    requires B4(c, B6(c, ut)) != 0 && Within(B3(c, B6(c, ut)), 0x4001_0000_0000)
    ensures var b7 := B7(c, B6(c, ut), up);
            && Within(b7, 0x4002_0000_0000 * 50000)
            && Within(Uncorrected(b7, B4(c, B6(c, ut))), 0x4002_0000_0000 * 100000)
  {
    var b4, b7 := B4(c, B6(c, ut)), B7(c, B6(c, ut), up);
    QuotientWithin(b7 * 2, b4, 0x4002_0000_0000 * 100000);
    QuotientWithin(b7, b4, 0x4002_0000_0000 * 50000);
  }

  /** Over all 16-bit words the whole computation stays inside an i64 exactly when one product
      does: the square of the shifted pressure times 3038. */
  lemma WidthIsExactlyTheSquare(c: Cal, ut: int, up: int)
    requires Words(c) && Unsigned16(ut) && Unsigned16(up)
    requires X1(c, ut) + c.md != 0 && B4(c, B6(c, ut)) != 0
    ensures var p := Uncorrected(B7(c, B6(c, ut), up), B4(c, B6(c, ut)));
            AllFit(Intermediates(c, ut, up)) <==> (p / 256) * (p / 256) * 3038 <= I64_MAX
  {
    StageBounds(c, ut, up);
    var xs := Intermediates(c, ut, up);
    var h := xs[18] / 256;
    forall i | 0 <= i < 19 ensures InI64(xs[i]) { assert xs[i] == xs[..19][i]; }
    assert xs[20] == h * h * 3038;
    if h * h * 3038 <= I64_MAX {
      LastFourFit(xs[18]);
      forall i | 19 <= i < |xs| ensures InI64(xs[i]) {
        assert i == 19 || i == 20 || i == 21 || i == 22;
      }
    }
  }

  lemma LastFourFit(p: int)
    requires (p / 256) * (p / 256) * 3038 <= I64_MAX
    ensures InI64((p / 256) * (p / 256)) && InI64((p / 256) * (p / 256) * 3038)
    ensures InI64(-7357 * p) && InI64(Corrected(p))
  {
    var h := p / 256;
    var hh := h * h;
    assert hh >= 0 by { SquareWithin(h, if h < 0 then -h else h); }
    if h > 60_000_000 || h < -60_000_000 {
      SquareBeyond(h, 60_000_000);
    }
  }

  /** And on the chip's domain it always does. */
  lemma DomainFitsI64(c: Cal, ut: int, up: int)
    requires InDomain(c, ut) && Unsigned16(up)
    ensures B4(c, B6(c, ut)) != 0 && AllFit(Intermediates(c, ut, up))
  {
    DivisorsArePositive(c, ut);
    var b6 := B6(c, ut);
    var b4, b7 := B4(c, b6), B7(c, b6, up);
    SquareWithin(b6, 0x4000);
    MulWithin(c.b2, (b6 * b6) / 4096, 0x8000, 0x1_0000);
    MulWithin(c.ac2, b6, 0x8000, 0x4000);
    assert -0x8_0000 <= B3(c, b6) <= 0x8_0000;
    assert -0x9_0000 * 50000 <= b7 <= 0x9_0000 * 50000;
    QuotientWithin(b7 * 2, b4, 0x9_0000 * 100000);
    QuotientWithin(b7, b4, 0x9_0000 * 50000);
    var p := Uncorrected(b7, b4);
    SmallQuotient(b7 * 2, b4);
    SmallQuotient(b7, b4);
    assert -60_000_000 <= p <= 60_000_000;
    SquareWithin(p / 256, 240_000);
    WidthIsExactlyTheSquare(c, ut, up);
  }

  lemma SmallQuotient(a: int, b: int)
    requires b >= 2048 && -0x9_0000 * 100000 <= a <= 0x9_0000 * 100000
    ensures -30_000_000 <= a / b <= 30_000_000
  {
    DivAtMost(a, b, 30_000_000);
    MulLe(2048, b, 30_000_001);
    DivAtMost(a, b, -30_000_001);
    MulLe(2048, b, 30_000_000);
  }

  // ----- monotonicity ---------------------------------------------------------------

  /** At equal b7 the two forms of the branch differ by at most one Pa. */
  lemma BranchFormsWithinOne(b7: int, b4: int)
    requires b4 > 0
    ensures 0 <= FDiv(b7 * 2, b4) - FDiv(b7, b4) * 2 <= 1
  {
    var q, r := b7 / b4, b7 % b4;
    assert b7 * 2 == b4 * (2 * q) + 2 * r;
    if 2 * r < b4 {
      DivUnique(b7 * 2, b4, 2 * q, 2 * r);
    } else {
      assert b7 * 2 == b4 * (2 * q + 1) + (2 * r - b4);
      DivUnique(b7 * 2, b4, 2 * q + 1, 2 * r - b4);
    }
  }

  /** The pressures on either side of the branch are in order. */
  predicate BranchInOrder(b4: int)
    requires b4 > 0
  {
    (2 * BELOW_BRANCH) / b4 <= 2 * (AT_BRANCH / b4)
  }

  /** Whether the uncorrected pressure ever drops as the raw reading climbs, for a given b4. */
  ghost predicate Climbs(b4: int)
    requires b4 > 0
  {
    forall d: int, d': int :: d <= d' ==> Uncorrected(d * 50000, b4) <= Uncorrected(d' * 50000, b4)
  }

  /** It never drops if and only if it does not drop at the one step over the branch. */
  lemma ClimbsExactlyWhen(b4: int)
    requires b4 > 0
    ensures Climbs(b4) <==> BranchInOrder(b4)
  {
    if Climbs(b4) {
      assert Uncorrected(42949 * 50000, b4) <= Uncorrected(42950 * 50000, b4);
    }
    if BranchInOrder(b4) {
      forall d: int, d': int | d <= d'
        ensures Uncorrected(d * 50000, b4) <= Uncorrected(d' * 50000, b4)
      {
        UncorrectedStep(d, d', b4);
      }
    }
  }

  lemma UncorrectedStep(d: int, d': int, b4: int)
    requires b4 > 0 && d <= d'
    requires BranchInOrder(b4)
    ensures Uncorrected(d * 50000, b4) <= Uncorrected(d' * 50000, b4)
  {
    var b7, b7' := d * 50000, d' * 50000;
    if b7' < BRANCH {
      DivMonotone(b7 * 2, b7' * 2, b4);
    } else if b7 < BRANCH {
      DivMonotone(b7 * 2, 2 * BELOW_BRANCH, b4);
      DivMonotone(AT_BRANCH, b7', b4);
    } else {
      DivMonotone(b7, b7', b4);
    }
  }

  /** A divisor up to 100000 never drops: half the step over the branch is less than it. */
  lemma SmallDivisorsClimb(b4: int)
    requires 0 < b4 <= 100000
    ensures BranchInOrder(b4) && Climbs(b4)
  {
    var q := AT_BRANCH / b4;
    assert AT_BRANCH < b4 * (q + 1);
    assert 2 * BELOW_BRANCH == 2 * AT_BRANCH - 100000;
    assert 2 * BELOW_BRANCH < b4 * (2 * q + 1);
    DivAtMost(2 * BELOW_BRANCH, b4, 2 * q);
    ClimbsExactlyWhen(b4);
  }

  /** A larger one may. */
  lemma ALargerDivisorDrops()
    ensures !BranchInOrder(100388) && !Climbs(100388)
  {
    ClimbsExactlyWhen(100388);
  }

  /** Legal chip words, on the domain, whose divisor, 103965, does too. */
  const DROPPING := Cal(0, 0, 31751, 64203, 32768, 3692, 32235, 0, 0, 1)

  /** All that the reading depends on, but for the raw pressure. */
  predicate Dropping(c: Cal) {
    && c.md == 1 && X1(c, 22155) == 18463 && B5(c, 22155) == 18463
    && B3(c, 14463) == 0 && B4(c, 14463) == 103965
  }

  lemma DroppingStages(c: Cal)
    requires c == DROPPING
    ensures Dropping(c)
  {
    assert X1(c, 22155) == 18463;
    assert FDiv(0, 18464) == 0;
    var b6 := 14463;
    assert (b6 * b6) / 4096 == 51068;
    assert (c.ac3 * b6) / 8192 == 56056 && (c.b1 * 51068) / 65536 == 25118;
    assert (c.ac4 * 53062) / 32768 == 103965;
  }

  /** At those words the pressure drops by one Pa as the raw reading climbs by one. */
  lemma PressureDropsOverTheBranch()
    ensures InDomain(DROPPING, 22155)
    ensures Compensate(DROPPING, 22155, 42949) == Some(Reading(1154, 41333))
    ensures Compensate(DROPPING, 22155, 42950) == Some(Reading(1154, 41332))
  {
    DroppingStages(DROPPING);
    LastBelowTheBranch(DROPPING);
    FirstAboveTheBranch(DROPPING);
  }

  lemma LastBelowTheBranch(c: Cal)
    requires Dropping(c)
    ensures Compensate(c, 22155, 42949) == Some(Reading(1154, 41333))
  {
    assert Uncorrected(2147450000, 103965) == 41311;
    CorrectedIs(41311, 161, 1201, -4638);
    FromStages(c, 22155, 42949, 18463, 14463, 103965, 2147450000, 41311);
  }

  lemma FirstAboveTheBranch(c: Cal)
    requires Dropping(c)
    ensures Compensate(c, 22155, 42950) == Some(Reading(1154, 41332))
  {
    assert Uncorrected(2147500000, 103965) == 41310;
    CorrectedIs(41310, 161, 1201, -4638);
    FromStages(c, 22155, 42950, 18463, 14463, 103965, 2147500000, 41310);
  }

  lemma {:induction false} CorrectedMonotone(p: int, p': int)
    requires TURN <= p <= p'
    ensures Corrected(p) <= Corrected(p')
    decreases p' - p
  {
    if p < p' {
      CorrectedMonotone(p, p' - 1);
      CorrectedStep(p' - 1);
    }
  }

  lemma CorrectedStep(p: int)
    requires TURN <= p
    ensures Corrected(p) <= Corrected(p + 1)
  {
    var h := p / 256;
    if (p + 1) / 256 != h {
      assert (p + 1) / 256 == h + 1;
      if h >= -162 {
        SquareStep(h);
      } else {
        assert p == 256 * h + 255;
        if h <= -182 { CornersTo182(h); } else if h <= -175 { CornersTo175(h); }
        else if h <= -169 { CornersTo169(h); } else { CornersTo163(h); }
      }
    }
  }

  /** The scaled square climbs, or drops by at most 15, from one step of 256 Pa to the next. */
  lemma SquareStep(h: int)
    requires -162 <= h
    ensures (h * h * 3038) / 65536 - 15 <= ((h + 1) * (h + 1) * 3038) / 65536
  {
    var a, b := h * h * 3038, (h + 1) * (h + 1) * 3038;
    assert b - a == (2 * h + 1) * 3038;
    assert a - b <= 323 * 3038;
  }

  /** From the last pressure of one step of 256 Pa to the first of the next. */
  predicate CornerClimbs(h: int) { Corrected(256 * h + 255) <= Corrected(256 * h + 256) }

  predicate Quotient(a: int, d: int, q: int) { d * q <= a < d * (q + 1) }

  /** Below that it drops by more, and the corner's own numbers decide: the scaled squares and the
      linear terms on either side of it. */
  lemma CornerIs(h: int, x1: int, x2: int, y1: int, y2: int)
    requires Quotient(3038 * (h * h), 65536, x1) && Quotient(-7357 * (256 * h + 255), 65536, x2)
    requires Quotient(3038 * ((h + 1) * (h + 1)), 65536, y1) && Quotient(-7357 * (256 * h + 256), 65536, y2)
    requires (x1 + x2 + 3791) / 16 <= 1 + (y1 + y2 + 3791) / 16
    ensures CornerClimbs(h)
  {
    var p, p' := 256 * h + 255, 256 * h + 256;
    assert p / 256 == h && p' / 256 == h + 1;
    CorrectedIs(p, h, x1, x2);
    CorrectedIs(p', h + 1, y1, y2);
  }

  lemma CornersTo182(h: int)
    requires -188 <= h <= -182
    ensures CornerClimbs(h)
  {
    match h {
      case -188 => CornerIs(h, 1638, 5374, 1621, 5374);
      case -187 => CornerIs(h, 1621, 5345, 1603, 5345);
      case -186 => CornerIs(h, 1603, 5316, 1586, 5316);
      case -185 => CornerIs(h, 1586, 5287, 1569, 5287);
      case -184 => CornerIs(h, 1569, 5259, 1552, 5259);
      case -183 => CornerIs(h, 1552, 5230, 1535, 5230);
      case -182 => CornerIs(h, 1535, 5201, 1518, 5201);
    }
  }

  lemma CornersTo175(h: int)
    requires -181 <= h <= -175
    ensures CornerClimbs(h)
  {
    match h {
      case -181 => CornerIs(h, 1518, 5173, 1501, 5172);
      case -180 => CornerIs(h, 1501, 5144, 1485, 5144);
      case -179 => CornerIs(h, 1485, 5115, 1468, 5115);
      case -178 => CornerIs(h, 1468, 5086, 1452, 5086);
      case -177 => CornerIs(h, 1452, 5058, 1435, 5057);
      case -176 => CornerIs(h, 1435, 5029, 1419, 5029);
      case -175 => CornerIs(h, 1419, 5000, 1403, 5000);
    }
  }

  lemma CornersTo169(h: int)
    requires -174 <= h <= -169
    ensures CornerClimbs(h)
  {
    match h {
      case -174 => CornerIs(h, 1403, 4971, 1387, 4971);
      case -173 => CornerIs(h, 1387, 4943, 1371, 4942);
      case -172 => CornerIs(h, 1371, 4914, 1355, 4914);
      case -171 => CornerIs(h, 1355, 4885, 1339, 4885);
      case -170 => CornerIs(h, 1339, 4856, 1323, 4856);
      case -169 => CornerIs(h, 1323, 4828, 1308, 4828);
    }
  }

  lemma CornersTo163(h: int)
    requires -168 <= h <= -163
    ensures CornerClimbs(h)
  {
    match h {
      case -168 => CornerIs(h, 1308, 4799, 1292, 4799);
      case -167 => CornerIs(h, 1292, 4770, 1277, 4770);
      case -166 => CornerIs(h, 1277, 4741, 1262, 4741);
      case -165 => CornerIs(h, 1262, 4713, 1246, 4713);
      case -164 => CornerIs(h, 1246, 4684, 1231, 4684);
      case -163 => CornerIs(h, 1231, 4655, 1216, 4655);
    }
  }

  ghost predicate KeepsOrderFrom(t: int) {
    forall p: int, p': int :: t <= p <= p' ==> Corrected(p) <= Corrected(p')
  }

  /** The correction keeps order from t up if and only if t is at least -48128: one Pa lower, and
      the first pair is out of order. */
  lemma KeepsOrderExactlyFromTheTurn(t: int)
    ensures KeepsOrderFrom(t) <==> t >= TURN
  {
    if t >= TURN {
      forall p: int, p': int | t <= p <= p' ensures Corrected(p) <= Corrected(p') { CorrectedMonotone(p, p'); }
    } else {
      CorrectionDropsBelowTheTurn();
      assert TURN - 1 >= t;
    }
  }

  lemma CorrectionDropsBelowTheTurn()
    ensures Corrected(TURN - 1) > Corrected(TURN)
  {
    CorrectedIs(-48129, -189, 1655, 5402);
    CorrectedIs(-48128, -188, 1638, 5402);
  }

  /** The correction, from its three quotients. */
  lemma CorrectedIs(p: int, h: int, x1: int, x2: int)
    requires p / 256 == h && (h * h * 3038) / 65536 == x1 && (-7357 * p) / 65536 == x2
    ensures Corrected(p) == p + (x1 + x2 + 3791) / 16
  {
  }

  // The pressure itself, over the branch.

  /** The corrected pressure, from the raw reading less b3. */
  function PressureAt(d: int, b4: int): int
    requires b4 != 0
  {
    Corrected(Uncorrected(d * 50000, b4))
  }

  /** The last pressure below the branch and the first above it are in order. */
  predicate PressureInOrder(b4: int)
    requires b4 > 0
  {
    Corrected((2 * BELOW_BRANCH) / b4) <= Corrected(2 * (AT_BRANCH / b4))
  }

  /** The raw readings less b3 on either side of the branch. */
  const LAST_BELOW := 42949
  const FIRST_ABOVE := 42950

  lemma EitherSide(b4: int)
    requires b4 > 0
    ensures Uncorrected(LAST_BELOW * 50000, b4) == (2 * BELOW_BRANCH) / b4 >= 0
    ensures Uncorrected(FIRST_ABOVE * 50000, b4) == 2 * (AT_BRANCH / b4) >= 0
  {
    DivMonotone(0, 2 * BELOW_BRANCH, b4);
    DivMonotone(0, AT_BRANCH, b4);
    DivUnique(0, b4, 0, 0);
  }

  /** On one side of the branch. */
  lemma SameSide(d: int, d': int, b4: int)
    requires b4 > 0 && d <= d' && (d' <= LAST_BELOW || FIRST_ABOVE <= d)
    requires TURN <= Uncorrected(d * 50000, b4)
    ensures Uncorrected(d * 50000, b4) <= Uncorrected(d' * 50000, b4)
    ensures PressureAt(d, b4) <= PressureAt(d', b4)
  {
    if d' <= LAST_BELOW {
      DivMonotone(d * 50000 * 2, d' * 50000 * 2, b4);
    } else {
      DivMonotone(d * 50000, d' * 50000, b4);
    }
    CorrectedMonotone(Uncorrected(d * 50000, b4), Uncorrected(d' * 50000, b4));
  }

  lemma PressureStep(d: int, d': int, b4: int)
    requires b4 > 0 && d <= d' && TURN <= Uncorrected(d * 50000, b4)
    requires d <= LAST_BELOW && FIRST_ABOVE <= d' ==> PressureInOrder(b4)
    ensures PressureAt(d, b4) <= PressureAt(d', b4)
  {
    if d <= LAST_BELOW && FIRST_ABOVE <= d' {
      EitherSide(b4);
      SameSide(d, LAST_BELOW, b4);
      SameSide(FIRST_ABOVE, d', b4);
    } else {
      SameSide(d, d', b4);
    }
  }

  predicate Divides(c: Cal, ut: int) {
    X1(c, ut) + c.md != 0 && B4(c, B6(c, ut)) > 0
  }

  /** The pressure a raw reading gives. */
  function Pa(c: Cal, ut: int, up: int): int
    requires Divides(c, ut)
  {
    Compensate(c, ut, up).value.pa
  }

  /** The uncorrected pressure is where the correction keeps order. */
  predicate AboveTheTurn(c: Cal, ut: int, up: int)
    requires Divides(c, ut)
  {
    TURN <= Uncorrected(B7(c, B6(c, ut), up), B4(c, B6(c, ut)))
  }

  /** The chip's 16 bits reach both sides of the branch. */
  predicate ReachesBranch(c: Cal, ut: int)
    requires X1(c, ut) + c.md != 0
  {
    Unsigned16(LAST_BELOW + B3(c, B6(c, ut))) && Unsigned16(FIRST_ABOVE + B3(c, B6(c, ut)))
  }

  /** A higher raw reading never reads as a lower pressure, through the branch and the final
      correction, for one calibration and one temperature, unless the two readings straddle a
      branch whose sides are out of order. */
  lemma PressureClimbs(c: Cal, ut: int, up: int, up': int)
    requires Divides(c, ut) && up <= up' && AboveTheTurn(c, ut, up)
    requires var b3 := B3(c, B6(c, ut));
             up - b3 <= LAST_BELOW && FIRST_ABOVE <= up' - b3 ==> PressureInOrder(B4(c, B6(c, ut)))
    ensures Compensate(c, ut, up).Some? && Compensate(c, ut, up').Some?
    ensures Pa(c, ut, up) <= Pa(c, ut, up')
    ensures Compensate(c, ut, up).value.tenths == Compensate(c, ut, up').value.tenths
  {
    PressureStep(up - B3(c, B6(c, ut)), up' - B3(c, B6(c, ut)), B4(c, B6(c, ut)));
  }

  ghost predicate NeverDrops(c: Cal, ut: int)
    requires Divides(c, ut)
  {
    forall up: int, up': int :: Unsigned16(up) && Unsigned16(up') && up <= up' && AboveTheTurn(c, ut, up) ==>
      Pa(c, ut, up) <= Pa(c, ut, up')
  }

  /** Over all that a chip can say, for one calibration and one temperature: the pressure never
      drops as the raw reading climbs if and only if the two sides of the branch are in order, or
      the 16 bits do not reach both. */
  lemma PressureClimbsExactlyWhen(c: Cal, ut: int)
    requires Divides(c, ut)
    ensures NeverDrops(c, ut) <==> PressureInOrder(B4(c, B6(c, ut))) || !ReachesBranch(c, ut)
  {
    var b3, b4 := B3(c, B6(c, ut)), B4(c, B6(c, ut));
    if PressureInOrder(b4) || !ReachesBranch(c, ut) {
      forall up: int, up': int | Unsigned16(up) && Unsigned16(up') && up <= up' && AboveTheTurn(c, ut, up)
        ensures Pa(c, ut, up) <= Pa(c, ut, up')
      {
        PressureClimbs(c, ut, up, up');
      }
    } else {
      Straddle(c, ut);
    }
  }

  lemma Straddle(c: Cal, ut: int)
    requires Divides(c, ut) && ReachesBranch(c, ut) && !PressureInOrder(B4(c, B6(c, ut)))
    ensures !NeverDrops(c, ut)
  {
    var b3, b4 := B3(c, B6(c, ut)), B4(c, B6(c, ut));
    EitherSide(b4);
    var up, up' := LAST_BELOW + b3, FIRST_ABOVE + b3;
    assert Pa(c, ut, up) == PressureAt(LAST_BELOW, b4) && Pa(c, ut, up') == PressureAt(FIRST_ABOVE, b4);
    assert AboveTheTurn(c, ut, up);
  }

  /** Where the uncorrected pressure climbs the pressure does; the correction can also hide a drop. */
  lemma ClimbingIsInOrder(b4: int)
    requires b4 > 0 && BranchInOrder(b4)
    ensures PressureInOrder(b4)
  {
    EitherSide(b4);
    CorrectedMonotone((2 * BELOW_BRANCH) / b4, 2 * (AT_BRANCH / b4));
  }

  /** Legal chip words, on the domain, at which it does. */
  const HIDING := Cal(0, 0, 32767, 65440, 32768, 3692, 32767, 0, 0, 1)

  lemma HidingStages(c: Cal)
    requires c == HIDING
    ensures X1(c, 22155) == 18463 && B5(c, 22155) == 18463 && B4(c, 14463) == 107070
  {
    assert X1(c, 22155) == 18463;
    assert FDiv(0, 18464) == 0;
    var b6 := 14463;
    assert (b6 * b6) / 4096 == 51068;
    assert (c.ac3 * b6) / 8192 == 57850 && (c.b1 * 51068) / 65536 == 25533;
    assert (c.ac4 * 53614) / 32768 == 107070;
  }

  lemma HiddenDrop()
    ensures !BranchInOrder(107070) && PressureInOrder(107070)
  {
    assert (2 * BELOW_BRANCH) / 107070 == 40113 && 2 * (AT_BRANCH / 107070) == 40112;
    CorrectedIs(40113, 156, 1128, -4504);
    CorrectedIs(40112, 156, 1128, -4503);
  }

  /** At these words the uncorrected pressure drops over the branch and the pressure never does. */
  lemma CorrectionHidesADrop()
    ensures InDomain(HIDING, 22155) && !BranchInOrder(B4(HIDING, B6(HIDING, 22155)))
    ensures NeverDrops(HIDING, 22155)
  {
    HidingStages(HIDING);
    HiddenDrop();
    PressureClimbsExactlyWhen(HIDING, 22155);
  }

  /** The vectors the driver is pinned to: a room, and a reading below freezing where a
      truncating division would be 2 Pa off. */
  lemma PinnedRoom()
    ensures var c := Cal(8687, -1183, -14304, 33899, 25081, 20813, 6515, 47, -11786, 2771);
            Compensate(c, 29065, 43571) == Some(Reading(229, 102276))
  {
    var c := Cal(8687, -1183, -14304, 33899, 25081, 20813, 6515, 47, -11786, 2771);
    assert X1(c, 29065) == 6316 && B5(c, 29065) == 3659;
    assert B3(c, -341) == 8736 && B4(c, -341) == 34053;
    CorrectedIs(102296, 399, 7379, -11484);
    FromStages(c, 29065, 43571, 3659, -341, 34053, 1741750000, 102296);
  }

  /** A reading, from its stages. */
  lemma FromStages(c: Cal, ut: int, up: int, b5: int, b6: int, b4: int, b7: int, p: int)
    requires X1(c, ut) + c.md != 0 && B5(c, ut) == b5 && b6 == b5 - 4000
    requires B4(c, b6) == b4 && b4 != 0 && B7(c, b6, up) == b7 && Uncorrected(b7, b4) == p
    ensures Compensate(c, ut, up) == Some(Reading((b5 + 8) / 16, Corrected(p)))
  {
  }

  /** And the shape of the arithmetic: a reading where the rounding of b3 shows. */
  lemma PinnedWarm()
    ensures var c := Cal(8687, -1183, -14304, 33899, 25081, 20813, 6515, 47, -11786, 2771);
            Compensate(c, 27000, 40000) == Some(Reading(95, 88233))
  {
    var c := Cal(8687, -1183, -14304, 33899, 25081, 20813, 6515, 47, -11786, 2771);
    WarmStages(c);
    assert Uncorrected(1547300000, 35057) == 88273;
    CorrectedIs(88273, 344, 5485, -9910);
    FromStages(c, 27000, 40000, 1519, -2481, 35057, 1547300000, 88273);
  }

  lemma WarmStages(c: Cal)
    requires c == Cal(8687, -1183, -14304, 33899, 25081, 20813, 6515, 47, -11786, 2771)
    ensures X1(c, 27000) == 4735 && B5(c, 27000) == 1519
    ensures B3(c, -2481) == 9054 && B4(c, -2481) == 35057
  {
    assert X1(c, 27000) == 4735;
    assert FDiv(-11786 * 2048, 7506) == -3216;
    var b6 := -2481;
    assert (b6 * b6) / 4096 == 1502;
    assert (c.b2 * 1502) / 2048 == 34 && (c.ac2 * b6) / 2048 == 1433;
    assert (c.ac3 * b6) / 8192 == 4332 && (c.b1 * 1502) / 65536 == 149;
  }

  lemma ColdStages(c: Cal)
    requires c == Cal(8687, -1183, -14304, 33899, 25081, 20813, 6515, 47, -11786, 2771)
    ensures X1(c, 25000) == 3204 && B5(c, 25000) == -836
    ensures B3(c, -4836) == 9418 && B4(c, -4836) == 36229
  {
    assert X1(c, 25000) == 3204;
    assert FDiv(-11786 * 2048, 5975) == -4040;
    var b6 := -4836;
    assert (b6 * b6) / 4096 == 5709;
    assert (c.b2 * 5709) / 2048 == 131 && (c.ac2 * b6) / 2048 == 2793;
    assert (c.ac3 * b6) / 8192 == 8444 && (c.b1 * 5709) / 65536 == 567;
  }

  lemma PinnedBelowFreezing()
    ensures var c := Cal(8687, -1183, -14304, 33899, 25081, 20813, 6515, 47, -11786, 2771);
            Compensate(c, 25000, 36000) == Some(Reading(-52, 73331))
  {
    var c := Cal(8687, -1183, -14304, 33899, 25081, 20813, 6515, 47, -11786, 2771);
    ColdStages(c);
    assert Uncorrected(1329100000, 36229) == 73372;
    CorrectedIs(73372, 286, 3791, -8237);
    FromStages(c, 25000, 36000, -836, -4836, 36229, 1329100000, 73372);
  }
}
