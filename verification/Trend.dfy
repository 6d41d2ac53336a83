/** The pressure trend: a least-squares slope over the window, in reals. */
module Trend {
  import opened CortexState

  const DEADBAND := 0.3
  const SERIES_POINTS := 60

  function St(w: seq<Sample>): real { if w == [] then 0.0 else St(w[..|w| - 1]) + w[|w| - 1].0 }
  function Sp(w: seq<Sample>): real { if w == [] then 0.0 else Sp(w[..|w| - 1]) + w[|w| - 1].1 }
  function Stt(w: seq<Sample>): real {
    if w == [] then 0.0 else Stt(w[..|w| - 1]) + w[|w| - 1].0 * w[|w| - 1].0
  }
  function Stp(w: seq<Sample>): real {
    if w == [] then 0.0 else Stp(w[..|w| - 1]) + w[|w| - 1].0 * w[|w| - 1].1
  }

  /** n * sum(uv) - sum(u) * sum(v). */
  function Centred(n: real, su: real, sv: real, suv: real): real { n * suv - su * sv }

  function Denominator(w: seq<Sample>): real { Centred(|w| as real, St(w), St(w), Stt(w)) }
  function Numerator(w: seq<Sample>): real { Centred(|w| as real, St(w), Sp(w), Stp(w)) }

  /** hPa per hour; 0 when the guard on the denominator fails. */
  function HourlySlope(numerator: real, denominator: real): real {
    if denominator != 0.0 then numerator / denominator * 3600.0 else 0.0
  }

  function SlopeH(w: seq<Sample>): real { HourlySlope(Numerator(w), Denominator(w)) }

  datatype Direction = Rising | Falling | Steady

  function DirectionOf(w: seq<Sample>): Direction {
    if |w| < 2 then Steady
    else if SlopeH(w) > DEADBAND then Rising
    else if SlopeH(w) < -DEADBAND then Falling
    else Steady
  }

  /** The fold over the window, and the last sixty pressures, oldest first. */
  method BaroTrend(w: seq<Sample>) returns (dir: Direction, series: seq<real>)
    ensures dir == DirectionOf(w)
    ensures |series| == if |w| < 2 then 0 else if |w| < 60 then |w| else 60
    ensures forall i :: 0 <= i < |series| ==> series[i] == w[|w| - |series| + i].1
  {
    if |w| < 2 {
      return Steady, [];
    }
    var n := |w| as real;
    var sx, sy, sxx, sxy := 0.0, 0.0, 0.0, 0.0;
    for i := 0 to |w|
      invariant sx == St(w[..i]) && sy == Sp(w[..i]) && sxx == Stt(w[..i]) && sxy == Stp(w[..i])
    {
      var (t, p) := w[i];
      assert w[..i + 1][..i] == w[..i];
      sx, sy, sxx, sxy := sx + t, sy + p, sxx + t * t, sxy + t * p;
    }
    assert w[..|w|] == w;
    var slopeH := HourlySlope(Centred(n, sx, sy, sxy), Centred(n, sx, sx, sxx));
    dir := if slopeH > DEADBAND then Rising else if slopeH < -DEADBAND then Falling else Steady;
    var from := if |w| < SERIES_POINTS then 0 else |w| - SERIES_POINTS;
    series := seq(|w| - from, i requires 0 <= i < |w| - from => w[from + i].1);
  }

  // ----- the pairwise form -----------------------------------------------------------

  function Product(v: Sample, s: Sample): real { (s.0 - v.0) * (s.1 - v.1) }

  /** The sum over all samples v of (t - v.t) * (p - v.p). */
  function PairsWith(w: seq<Sample>, s: Sample): real {
    if w == [] then 0.0 else PairsWith(w[..|w| - 1], s) + Product(w[|w| - 1], s)
  }

  /** The sum over all pairs i < j of (t_j - t_i) * (p_j - p_i). */
  function Pairs(w: seq<Sample>): real {
    if w == [] then 0.0 else Pairs(w[..|w| - 1]) + PairsWith(w[..|w| - 1], w[|w| - 1])
  }

  /** One sample against sums over n others. */
  function Against(n: real, x: real, y: real, z: real, t: real, p: real): real {
    n * (t * p) - t * y - p * x + z
  }

  lemma AgainstStep(n: real, x: real, y: real, z: real, t: real, p: real, tv: real, pv: real)
    ensures Against(n + 1.0, x + tv, y + pv, z + tv * pv, t, p) == Against(n, x, y, z, t, p) + (t - tv) * (p - pv)
  {
    assert (t - tv) * (p - pv) == t * p - t * pv - tv * p + tv * pv;
  }

  lemma CentredStep(n: real, x: real, y: real, z: real, t: real, p: real)
    ensures Centred(n + 1.0, x + t, y + p, z + t * p) == Centred(n, x, y, z) + Against(n, x, y, z, t, p)
  {
    assert (n + 1.0) * (z + t * p) == n * z + n * (t * p) + z + t * p;
    assert (x + t) * (y + p) == x * y + x * p + t * y + t * p;
  }

  lemma {:induction false} PairsWithSums(w: seq<Sample>, s: Sample)
    ensures PairsWith(w, s) == Against(|w| as real, St(w), Sp(w), Stp(w), s.0, s.1)
  {
    if w != [] {
      var v, init := w[|w| - 1], w[..|w| - 1];
      PairsWithSums(init, s);
      AgainstStep(|init| as real, St(init), Sp(init), Stp(init), s.0, s.1, v.0, v.1);
    }
  }

  /** n * sum(tp) - sum(t) * sum(p) is the sum over pairs: nothing but differences is in it. */
  lemma {:induction false} NumeratorIsPairs(w: seq<Sample>)
    ensures Numerator(w) == Pairs(w)
  {
    if w != [] {
      NumeratorIsPairs(w[..|w| - 1]);
      PairsWithSums(w[..|w| - 1], w[|w| - 1]);
      NumeratorGrows(w);
    }
  }

  lemma NumeratorGrows(w: seq<Sample>)
    requires w != []
    ensures var init, s := w[..|w| - 1], w[|w| - 1];
            Numerator(w) == Numerator(init) + Against(|init| as real, St(init), Sp(init), Stp(init), s.0, s.1)
  {
    var init, s := w[..|w| - 1], w[|w| - 1];
    var n, x, y, z := |init| as real, St(init), Sp(init), Stp(init);
    CentredStep(n, x, y, z, s.0, s.1);
    assert |w| as real == n + 1.0;
  }

  /** The same window with each pressure replaced by its time. */
  function Diagonal(w: seq<Sample>): (d: seq<Sample>)
    ensures |d| == |w|
  {
    seq(|w|, i requires 0 <= i < |w| => (w[i].0, w[i].0))
  }

  lemma {:induction false} DiagonalSums(w: seq<Sample>)
    ensures St(Diagonal(w)) == Sp(Diagonal(w)) == St(w) && Stp(Diagonal(w)) == Stt(w)
  {
    if w != [] {
      DiagonalSums(w[..|w| - 1]);
      assert Diagonal(w)[..|w| - 1] == Diagonal(w[..|w| - 1]);
    }
  }

  lemma DenominatorIsPairs(w: seq<Sample>)
    ensures Denominator(w) == Pairs(Diagonal(w))
  {
    DiagonalSums(w);
    NumeratorIsPairs(Diagonal(w));
  }

  ghost predicate SameTime(w: seq<Sample>) {
    forall i, j :: 0 <= i < |w| && 0 <= j < |w| ==> w[i].0 == w[j].0
  }

  /** Each pair agrees: time and pressure rise together, or one of them stands still. */
  ghost predicate Together(w: seq<Sample>) {
    forall i, j :: 0 <= i < j < |w| ==> Product(w[i], w[j]) >= 0.0
  }

  lemma {:induction false} PairsWithTogether(w: seq<Sample>, s: Sample)
    requires forall i :: 0 <= i < |w| ==> Product(w[i], s) >= 0.0
    ensures PairsWith(w, s) >= 0.0
    ensures PairsWith(w, s) == 0.0 ==> forall i :: 0 <= i < |w| ==> Product(w[i], s) == 0.0
  {
    if w != [] {
      var init := w[..|w| - 1];
      forall i | 0 <= i < |init| ensures Product(init[i], s) >= 0.0 { assert init[i] == w[i]; }
      PairsWithTogether(init, s);
      assert Product(w[|w| - 1], s) >= 0.0;
      if PairsWith(w, s) == 0.0 {
        forall i | 0 <= i < |w| ensures Product(w[i], s) == 0.0 {
          if i < |init| { assert init[i] == w[i]; }
        }
      }
    }
  }

  lemma {:induction false} TogetherPairs(w: seq<Sample>)
    requires Together(w)
    ensures Pairs(w) >= 0.0
    ensures Pairs(w) == 0.0 ==> forall i, j :: 0 <= i < j < |w| ==> Product(w[i], w[j]) == 0.0
  {
    if w != [] {
      var n := |w| - 1;
      var init := w[..n];
      forall i, j | 0 <= i < j < n ensures Product(init[i], init[j]) >= 0.0 {
        assert init[i] == w[i] && init[j] == w[j];
      }
      TogetherPairs(init);
      forall i | 0 <= i < n ensures Product(init[i], w[n]) >= 0.0 { assert init[i] == w[i]; }
      PairsWithTogether(init, w[n]);
      if Pairs(w) == 0.0 {
        forall i, j | 0 <= i < j < |w| ensures Product(w[i], w[j]) == 0.0 {
          assert init[i] == w[i];
          if j < n { assert init[j] == w[j]; }
        }
      }
    }
  }

  lemma Square(x: real)
    ensures x * x >= 0.0
    ensures x != 0.0 ==> x * x > 0.0
  {
    if x < 0.0 { assert x * x == (-x) * (-x); }
  }

  /** The guard fails only when every timestamp is the same. */
  lemma GuardFailsOnlyAtOneInstant(w: seq<Sample>)
    ensures Denominator(w) >= 0.0
    ensures Denominator(w) == 0.0 <==> SameTime(w)
  {
    var d := Diagonal(w);
    DenominatorIsPairs(w);
    forall i, j | 0 <= i < j < |d| ensures Product(d[i], d[j]) >= 0.0 {
      OwnProduct(d[i], d[j]);
    }
    TogetherPairs(d);
    if Denominator(w) == 0.0 {
      forall i, j | 0 <= i < |w| && 0 <= j < |w| ensures w[i].0 == w[j].0 {
        if w[i].0 != w[j].0 {
          Gap(d[i], d[j]);
          Gap(d[j], d[i]);
        }
      }
    }
    if SameTime(w) {
      NoSpread(d);
    }
  }

  lemma OwnProduct(v: Sample, s: Sample)
    requires v.0 == v.1 && s.0 == s.1
    ensures Product(v, s) >= 0.0
  {
    if v.0 != s.0 { Gap(v, s); } else { assert s.0 - v.0 == 0.0; }
  }

  lemma Gap(v: Sample, s: Sample)
    requires v.0 == v.1 && s.0 == s.1 && v.0 != s.0
    ensures Product(v, s) > 0.0
  {
    if v.0 < s.0 { BothAbove(v, s); } else { BothBelow(v, s); }
  }

  lemma BothAbove(v: Sample, s: Sample)
    requires v.0 < s.0 && v.1 < s.1
    ensures Product(v, s) > 0.0
  {
    Positive(s.0 - v.0, s.1 - v.1);
  }

  lemma BothBelow(v: Sample, s: Sample)
    requires s.0 < v.0 && s.1 < v.1
    ensures Product(v, s) > 0.0
  {
    Positive(v.0 - s.0, v.1 - s.1);
    assert (s.0 - v.0) * (s.1 - v.1) == (v.0 - s.0) * (v.1 - s.1);
  }

  lemma Positive(x: real, y: real)
    requires x > 0.0 && y > 0.0
    ensures x * y > 0.0
  {
  }

  lemma {:induction false} NoSpread(d: seq<Sample>)
    requires SameTime(d)
    ensures Pairs(d) == 0.0
  {
    if d != [] {
      NoSpread(d[..|d| - 1]);
      NoSpreadWith(d[..|d| - 1], d[|d| - 1]);
    }
  }

  lemma {:induction false} NoSpreadWith(d: seq<Sample>, s: Sample)
    requires forall i :: 0 <= i < |d| ==> d[i].0 == s.0
    ensures PairsWith(d, s) == 0.0
  {
    if d != [] {
      NoSpreadWith(d[..|d| - 1], s);
      assert Product(d[|d| - 1], s) == 0.0;
    }
  }

  /** Pressure that rises with time is never "falling". */
  lemma RisingTogetherIsNeverFalling(w: seq<Sample>)
    requires Together(w)
    ensures SlopeH(w) >= 0.0 && DirectionOf(w) != Falling
  {
    NumeratorIsPairs(w);
    TogetherPairs(w);
    GuardFailsOnlyAtOneInstant(w);
    if Denominator(w) != 0.0 {
      Quotient(Numerator(w), Denominator(w));
    }
  }

  lemma Quotient(a: real, b: real)
    requires a >= 0.0 && b > 0.0
    ensures a / b >= 0.0
  {
    assert (a / b) * b == a;
  }

  // ----- exact on a line ------------------------------------------------------------------

  ghost predicate OnLine(w: seq<Sample>, a: real, b: real) {
    forall i :: 0 <= i < |w| ==> w[i].1 == a + b * w[i].0
  }

  predicate IsSum(x: real, y: real, z: real) { z == x + y }

  ghost predicate Additive(f: real -> real) {
    forall x, y, z :: IsSum(x, y, z) ==> f(z) == f(x) + f(y)
  }

  /** Each pair's product is `f` of its time difference squared, with `f` for a factor. */
  ghost predicate Through(f: real -> real, w: seq<Sample>, s: Sample) {
    forall i :: 0 <= i < |w| ==> Product(w[i], s) == f(Product((w[i].0, w[i].0), (s.0, s.0)))
  }

  lemma {:induction false} PairsWithThrough(f: real -> real, w: seq<Sample>, s: Sample)
    requires Additive(f) && Through(f, w, s)
    ensures PairsWith(w, s) == f(PairsWith(Diagonal(w), (s.0, s.0)))
  {
    if w == [] {
      assert IsSum(0.0, 0.0, 0.0);
    } else {
      var init, v := w[..|w| - 1], w[|w| - 1];
      assert forall i :: 0 <= i < |init| ==> init[i] == w[i];
      PairsWithThrough(f, init, s);
      assert Diagonal(w)[..|w| - 1] == Diagonal(init);
      assert IsSum(PairsWith(Diagonal(init), (s.0, s.0)), Product((v.0, v.0), (s.0, s.0)),
                   PairsWith(Diagonal(w), (s.0, s.0)));
    }
  }

  lemma {:induction false} PairsThrough(f: real -> real, w: seq<Sample>)
    requires Additive(f) && forall k :: 0 <= k < |w| ==> Through(f, w[..k], w[k])
    ensures Pairs(w) == f(Pairs(Diagonal(w)))
  {
    if w == [] {
      assert IsSum(0.0, 0.0, 0.0);
    } else {
      var init, s := w[..|w| - 1], w[|w| - 1];
      forall k | 0 <= k < |init| ensures Through(f, init[..k], init[k]) {
        assert init[..k] == w[..k] && init[k] == w[k];
      }
      PairsThrough(f, init);
      PairsWithThrough(f, init, s);
      assert Diagonal(w)[..|w| - 1] == Diagonal(init);
      assert IsSum(Pairs(Diagonal(init)), PairsWith(Diagonal(init), (s.0, s.0)), Pairs(Diagonal(w)));
    }
  }

  function Times(b: real): real -> real { x => b * x }

  lemma TimesIsAdditive(b: real)
    ensures Additive(Times(b))
  {
    forall x, y, z | IsSum(x, y, z) ensures Times(b)(z) == Times(b)(x) + Times(b)(y) { TimesSum(b, x, y, z); }
  }

  lemma LineIsThrough(w: seq<Sample>, s: Sample, a: real, b: real)
    requires OnLine(w, a, b) && s.1 == a + b * s.0
    ensures Through(Times(b), w, s)
  {
    forall i | 0 <= i < |w| ensures Product(w[i], s) == Times(b)(Product((w[i].0, w[i].0), (s.0, s.0))) {
      LineProduct(w[i], s, a, b);
    }
  }

  lemma LineProduct(v: Sample, s: Sample, a: real, b: real)
    requires v.1 == a + b * v.0 && s.1 == a + b * s.0
    ensures Product(v, s) == b * Product((v.0, v.0), (s.0, s.0))
  {
    assert s.1 - v.1 == b * (s.0 - v.0);
  }

  lemma TimesSum(b: real, x: real, y: real, z: real)
    requires IsSum(x, y, z)
    ensures Times(b)(z) == Times(b)(x) + Times(b)(y)
  {
    assert b * z == b * x + b * y;
  }

  /** On samples of a line the slope is the line's, in hPa per hour. */
  lemma SlopeIsExactOnALine(w: seq<Sample>, a: real, b: real)
    requires OnLine(w, a, b) && !SameTime(w)
    ensures SlopeH(w) == b * 3600.0
  {
    NumeratorOnALine(w, a, b);
    GuardFailsOnlyAtOneInstant(w);
    ExactSlope(Numerator(w), Denominator(w), b);
  }

  lemma NumeratorOnALine(w: seq<Sample>, a: real, b: real)
    requires OnLine(w, a, b)
    ensures Numerator(w) == Times(b)(Denominator(w))
  {
    TimesIsAdditive(b);
    forall k | 0 <= k < |w| ensures Through(Times(b), w[..k], w[k]) { LineIsThrough(w[..k], w[k], a, b); }
    PairsThrough(Times(b), w);
    NumeratorIsPairs(w);
    DenominatorIsPairs(w);
  }

  lemma ExactSlope(x: real, d: real, b: real)
    requires d != 0.0 && x == Times(b)(d)
    ensures HourlySlope(x, d) == b * 3600.0
  {
    assert x == b * d;
    assert x / d == b;
  }

  // ----- the direction ------------------------------------------------------------------------

  /** x / d * 3600 against a bound, without the division. */
  lemma SlopeAgainst(x: real, d: real, bound: real)
    requires d > 0.0
    ensures HourlySlope(x, d) > bound <==> 3600.0 * x > bound * d
    ensures HourlySlope(x, d) < bound <==> 3600.0 * x < bound * d
  {
    var q := x / d;
    DivideBack(x, d);
    assert q * d == x;
    var h := q * 3600.0;
    assert h * d == 3600.0 * x;
    if h > bound { Scaled(bound, h, d); }
    if h < bound { Scaled(h, bound, d); }
  }

  lemma Scaled(a: real, b: real, d: real)
    requires a < b && d > 0.0
    ensures a * d < b * d
  {
    Positive(b - a, d);
    assert (b - a) * d == b * d - a * d;
  }

  /** For every window with two instants in it: "rising" and "falling" by the sums over its pairs,
      against 0.3 hPa an hour of 3600 seconds; any other window is steady. */
  lemma DirectionByPairs(w: seq<Sample>)
    ensures DirectionOf(w) == Rising <==> !SameTime(w) && 3600.0 * Pairs(w) > 0.3 * Pairs(Diagonal(w))
    ensures DirectionOf(w) == Falling <==> !SameTime(w) && 3600.0 * Pairs(w) < -0.3 * Pairs(Diagonal(w))
  {
    NumeratorIsPairs(w);
    DenominatorIsPairs(w);
    GuardFailsOnlyAtOneInstant(w);
    if !SameTime(w) {
      SlopeAgainst(Numerator(w), Denominator(w), 0.3);
      SlopeAgainst(Numerator(w), Denominator(w), -0.3);
    }
  }

  /** On samples of a line p = a + b*t over at least two instants the direction is the line's. */
  lemma DirectionOnALine(w: seq<Sample>, a: real, b: real)
    requires OnLine(w, a, b) && !SameTime(w)
    ensures DirectionOf(w) == Rising <==> 3600.0 * b > 0.3
    ensures DirectionOf(w) == Falling <==> 3600.0 * b < -0.3
    ensures DirectionOf(w) == Steady <==> -0.3 <= 3600.0 * b <= 0.3
  {
    SlopeIsExactOnALine(w, a, b);
  }

  /** The window upside down. */
  function Negated(w: seq<Sample>): (v: seq<Sample>)
    ensures |v| == |w|
  {
    seq(|w|, i requires 0 <= i < |w| => (w[i].0, -w[i].1))
  }

  function Opposite(d: Direction): Direction {
    match d
    case Rising => Falling
    case Falling => Rising
    case Steady => Steady
  }

  lemma {:induction false} NegatedPairsWith(w: seq<Sample>, s: Sample)
    ensures PairsWith(Negated(w), (s.0, -s.1)) == -PairsWith(w, s)
  {
    if w != [] {
      var v := w[|w| - 1];
      NegatedPairsWith(w[..|w| - 1], s);
      assert Negated(w)[..|w| - 1] == Negated(w[..|w| - 1]);
      NegatedProduct(v, s);
    }
  }

  lemma NegatedProduct(v: Sample, s: Sample)
    ensures Product((v.0, -v.1), (s.0, -s.1)) == -Product(v, s)
  {
    assert (s.0 - v.0) * (v.1 - s.1) == -((s.0 - v.0) * (s.1 - v.1));
  }

  lemma {:induction false} NegatedPairs(w: seq<Sample>)
    ensures Pairs(Negated(w)) == -Pairs(w)
  {
    if w != [] {
      NegatedPairs(w[..|w| - 1]);
      NegatedPairsWith(w[..|w| - 1], w[|w| - 1]);
      assert Negated(w)[..|w| - 1] == Negated(w[..|w| - 1]);
    }
  }

  /** Turning every pressure's sign turns the direction round. */
  lemma NegatingTurnsItRound(w: seq<Sample>)
    ensures DirectionOf(Negated(w)) == Opposite(DirectionOf(w))
  {
    var v := Negated(w);
    NegatedPairs(w);
    assert Diagonal(v) == Diagonal(w);
    assert SameTime(v) <==> SameTime(w) by { SameTimes(w, v); }
    DirectionByPairs(w);
    DirectionByPairs(v);
    GuardFailsOnlyAtOneInstant(w);
    DenominatorIsPairs(w);
  }

  lemma SameTimes(w: seq<Sample>, v: seq<Sample>)
    requires |w| == |v| && forall i :: 0 <= i < |w| ==> w[i].0 == v[i].0
    ensures SameTime(v) <==> SameTime(w)
  {
    if SameTime(w) {
      forall i, j | 0 <= i < |v| && 0 <= j < |v| ensures v[i].0 == v[j].0 { assert w[i].0 == w[j].0; }
    }
    if SameTime(v) {
      forall i, j | 0 <= i < |w| && 0 <= j < |w| ensures w[i].0 == w[j].0 { assert v[i].0 == v[j].0; }
    }
  }

  // ----- only differences count ---------------------------------------------------------

  function Shifted(w: seq<Sample>, dt: real, dp: real): (v: seq<Sample>)
    ensures |v| == |w|
  {
    seq(|w|, i requires 0 <= i < |w| => (w[i].0 + dt, w[i].1 + dp))
  }

  lemma {:induction false} ShiftedPairsWith(w: seq<Sample>, s: Sample, dt: real, dp: real)
    ensures PairsWith(Shifted(w, dt, dp), (s.0 + dt, s.1 + dp)) == PairsWith(w, s)
  {
    if w != [] {
      var v := w[|w| - 1];
      ShiftedPairsWith(w[..|w| - 1], s, dt, dp);
      assert Shifted(w, dt, dp)[..|w| - 1] == Shifted(w[..|w| - 1], dt, dp);
      assert (s.0 + dt) - (v.0 + dt) == s.0 - v.0 && (s.1 + dp) - (v.1 + dp) == s.1 - v.1;
    }
  }

  lemma {:induction false} ShiftedPairs(w: seq<Sample>, dt: real, dp: real)
    ensures Pairs(Shifted(w, dt, dp)) == Pairs(w)
  {
    if w != [] {
      ShiftedPairs(w[..|w| - 1], dt, dp);
      ShiftedPairsWith(w[..|w| - 1], w[|w| - 1], dt, dp);
      assert Shifted(w, dt, dp)[..|w| - 1] == Shifted(w[..|w| - 1], dt, dp);
    }
  }

  /** Moving the clock or the barometer by a constant changes neither slope nor direction. */
  lemma TrendIsShiftInvariant(w: seq<Sample>, dt: real, dp: real)
    ensures SlopeH(Shifted(w, dt, dp)) == SlopeH(w)
    ensures DirectionOf(Shifted(w, dt, dp)) == DirectionOf(w)
  {
    var v := Shifted(w, dt, dp);
    NumeratorIsPairs(w);
    NumeratorIsPairs(v);
    ShiftedPairs(w, dt, dp);
    DenominatorIsPairs(w);
    DenominatorIsPairs(v);
    ShiftedPairs(Diagonal(w), dt, dt);
    assert Diagonal(v) == Shifted(Diagonal(w), dt, dt);
  }

  // ----- least squares ---------------------------------------------------------------------

  /** The squared error of the line a + b*t over the window. */
  function Error(w: seq<Sample>, a: real, b: real): real {
    if w == [] then 0.0 else Error(w[..|w| - 1], a, b) + Residual2(w[|w| - 1].0, w[|w| - 1].1, a, b)
  }

  function Residual(t: real, p: real, a: real, b: real): real { p - a - b * t }

  function Residual2(t: real, p: real, a: real, b: real): real {
    Residual(t, p, a, b) * Residual(t, p, a, b)
  }

  function TimedResidual(t: real, p: real, a: real, b: real): real { t * Residual(t, p, a, b) }

  /** The residuals of a + b*t, summed, and summed weighted by time: both 0 at the best line. */
  function Plain(n: real, x: real, y: real, a: real, b: real): real { y - n * a - b * x }

  function Weighted(x: real, xx: real, xy: real, a: real, b: real): real { xy - a * x - b * xx }

  function Normal0(w: seq<Sample>, a: real, b: real): real { Plain(|w| as real, St(w), Sp(w), a, b) }

  function Normal1(w: seq<Sample>, a: real, b: real): real { Weighted(St(w), Stt(w), Stp(w), a, b) }

  lemma PlainStep(n: real, x: real, y: real, t: real, p: real, a: real, b: real)
    ensures Plain(n + 1.0, x + t, y + p, a, b) == Plain(n, x, y, a, b) + Residual(t, p, a, b)
  {
    assert b * (x + t) == b * x + b * t;
  }

  lemma WeightedStep(x: real, xx: real, xy: real, t: real, p: real, a: real, b: real)
    ensures Weighted(x + t, xx + t * t, xy + t * p, a, b) == Weighted(x, xx, xy, a, b) + TimedResidual(t, p, a, b)
  {
    assert t * (p - a - b * t) == t * p - t * a - t * (b * t);
    assert a * (x + t) == a * x + t * a && b * (xx + t * t) == b * xx + t * (b * t);
  }

  lemma Normal0Grows(w: seq<Sample>, a: real, b: real)
    requires w != []
    ensures var init, s := w[..|w| - 1], w[|w| - 1];
            Normal0(w, a, b) == Normal0(init, a, b) + Residual(s.0, s.1, a, b)
  {
    var init, s := w[..|w| - 1], w[|w| - 1];
    PlainStep(|init| as real, St(init), Sp(init), s.0, s.1, a, b);
    assert |w| as real == |init| as real + 1.0;
  }

  lemma Normal1Grows(w: seq<Sample>, a: real, b: real)
    requires w != []
    ensures var init, s := w[..|w| - 1], w[|w| - 1];
            Normal1(w, a, b) == Normal1(init, a, b) + TimedResidual(s.0, s.1, a, b)
  {
    var init, s := w[..|w| - 1], w[|w| - 1];
    WeightedStep(St(init), Stt(init), Stp(init), s.0, s.1, a, b);
  }

  /** Another line's error is at least the best line's, less what the normal sums allow. */
  lemma {:induction false} ErrorBound(w: seq<Sample>, a: real, b: real, da: real, db: real)
    ensures Within(Error(w, a + da, b + db), Error(w, a, b), da, db, Normal0(w, a, b), Normal1(w, a, b))
  {
    if w != [] {
      var init, s := w[..|w| - 1], w[|w| - 1];
      ErrorBound(init, a, b, da, db);
      Normal0Grows(w, a, b);
      Normal1Grows(w, a, b);
      OneResidual(s.0, s.1, a, b, da, db);
      WithinAdds(Error(init, a + da, b + db), Error(init, a, b), da, db, Normal0(init, a, b), Normal1(init, a, b),
                 Residual2(s.0, s.1, a + da, b + db), Residual2(s.0, s.1, a, b),
                 Residual(s.0, s.1, a, b), TimedResidual(s.0, s.1, a, b));
    }
  }

  predicate Within(other: real, own: real, da: real, db: real, n0: real, n1: real) {
    other >= own - 2.0 * (da * n0 + db * n1)
  }

  lemma WithinAdds(e': real, e: real, da: real, db: real, n0: real, n1: real,
                   f': real, f: real, r: real, q: real)
    requires Within(e', e, da, db, n0, n1) && Within(f', f, da, db, r, q)
    ensures Within(e' + f', e + f, da, db, n0 + r, n1 + q)
  {
    assert da * (n0 + r) == da * n0 + da * r && db * (n1 + q) == db * n1 + db * q;
  }

  lemma OneResidual(t: real, p: real, a: real, b: real, da: real, db: real)
    ensures Within(Residual2(t, p, a + da, b + db), Residual2(t, p, a, b), da, db,
                   Residual(t, p, a, b), TimedResidual(t, p, a, b))
  {
    var r, d := Residual(t, p, a, b), da + db * t;
    assert (b + db) * t == b * t + db * t;
    assert Residual(t, p, a + da, b + db) == r - d;
    Binomial(r, d);
    assert d * r == da * r + (db * t) * r;
    assert (db * t) * r == db * (t * r);
  }

  lemma Binomial(r: real, d: real)
    ensures (r - d) * (r - d) >= r * r - 2.0 * (d * r)
  {
    assert (r - d) * (r - d) == r * r - 2.0 * (d * r) + d * d;
    Square(d);
  }

  /** The reported slope per second, and the intercept of the line through the mean. */
  function BestSlope(w: seq<Sample>): real { SlopeH(w) / 3600.0 }

  function BestIntercept(w: seq<Sample>): real
    requires w != []
  {
    (Sp(w) - BestSlope(w) * St(w)) / (|w| as real)
  }

  /** The reported slope is the least-squares one: no line over the window, with any slope and
      any intercept, has a smaller squared error than the one of that slope through the mean. */
  lemma SlopeIsLeastSquares(w: seq<Sample>, a: real, b: real)
    requires !SameTime(w)
    ensures Error(w, BestIntercept(w), BestSlope(w)) <= Error(w, a, b)
  {
    var a0, b0 := BestIntercept(w), BestSlope(w);
    BestLine(w);
    ErrorBound(w, a0, b0, a - a0, b - b0);
    assert a0 + (a - a0) == a && b0 + (b - b0) == b;
    WithinNothing(Error(w, a, b), Error(w, a0, b0), a - a0, b - b0, Normal0(w, a0, b0), Normal1(w, a0, b0));
  }

  lemma WithinNothing(other: real, own: real, da: real, db: real, n0: real, n1: real)
    requires n0 == 0.0 && n1 == 0.0 && Within(other, own, da, db, n0, n1)
    ensures own <= other
  {
    assert da * n0 == 0.0 && db * n1 == 0.0;
  }

  /** On that line both normal sums vanish. */
  lemma BestLine(w: seq<Sample>)
    requires !SameTime(w)
    ensures Normal0(w, BestIntercept(w), BestSlope(w)) == 0.0
    ensures Normal1(w, BestIntercept(w), BestSlope(w)) == 0.0
  {
    GuardFailsOnlyAtOneInstant(w);
    ThroughTheMean(w);
    PerHour(Numerator(w), Denominator(w));
    NormalEquations(|w| as real, St(w), Sp(w), Stt(w), Stp(w), BestIntercept(w), BestSlope(w),
                    Numerator(w), Denominator(w));
  }

  predicate IsIntercept(n: real, a: real, y: real, b: real, x: real) { n * a == y - b * x }

  predicate IsSlope(b: real, den: real, num: real) { b * den == num }

  lemma ThroughTheMean(w: seq<Sample>)
    requires w != []
    ensures IsIntercept(|w| as real, BestIntercept(w), Sp(w), BestSlope(w), St(w))
  {
    DivideBack(Sp(w) - BestSlope(w) * St(w), |w| as real);
  }

  lemma DivideBack(x: real, n: real)
    requires n != 0.0
    ensures n * (x / n) == x
  {
  }

  lemma PerHour(x: real, d: real)
    requires d != 0.0
    ensures IsSlope(HourlySlope(x, d) / 3600.0, d, x)
  {
    assert HourlySlope(x, d) / 3600.0 == x / d;
    DivideBack(x, d);
  }

  lemma NormalEquations(n: real, x: real, y: real, xx: real, xy: real, a: real, b: real, num: real, den: real)
    requires num == Centred(n, x, y, xy) && den == Centred(n, x, x, xx)
    requires n > 0.0 && IsIntercept(n, a, y, b, x) && IsSlope(b, den, num)
    ensures Plain(n, x, y, a, b) == 0.0
    ensures Weighted(x, xx, xy, a, b) == 0.0
  {
    var e := xy - a * x - b * xx;
    assert n * e == 0.0 by {
      assert n * e == n * xy - (n * a) * x - b * (n * xx);
      assert (y - b * x) * x == x * y - b * (x * x);
      assert b * (n * xx - x * x) == b * (n * xx) - b * (x * x);
    }
    if e != 0.0 {
      NonZeroProduct(n, e);
    }
  }

  lemma NonZeroProduct(n: real, e: real)
    requires n > 0.0 && e != 0.0
    ensures n * e != 0.0
  {
  }
}
