/** The few facts about products and quotients that the other modules lean on. */
module Arith {
  function Pow2(n: nat): (r: nat)
    ensures r >= 1
  {
    if n == 0 then 1 else 2 * Pow2(n - 1)
  }

  lemma MulLe(a: int, b: int, c: int)
    requires c >= 0 && a <= b
    ensures a * c <= b * c
  {
    assert (b - a) * c >= 0;
  }

  lemma MulDistrib(a: int, b: int, c: int)
    ensures (a - b) * c == a * c - b * c
  {
  }

  /** A quotient is known by its remainder. */
  lemma DivUnique(a: int, d: int, q: int, r: int)
    requires d > 0 && a == d * q + r && 0 <= r < d
    ensures a / d == q && a % d == r
  {
    var q', r' := a / d, a % d;
    assert a == q' * d + r';
    MulDistrib(q, q', d);
    if q > q' {
      MulLe(1, q - q', d);
    } else if q < q' {
      MulDistrib(q', q, d);
      MulLe(1, q' - q, d);
    }
  }

  /** a / d <= k exactly when a stays below d * (k + 1). */
  lemma DivAtMost(a: int, d: int, k: int)
    requires d > 0
    ensures a / d <= k <==> a < (k + 1) * d
  {
    var q, r := a / d, a % d;
    assert a == q * d + r;
    if q <= k {
      MulLe(q, k, d);
    } else {
      MulLe(k + 1, q, d);
    }
  }

  lemma DivMonotone(a: int, b: int, d: int)
    requires d > 0 && a <= b
    ensures a / d <= b / d
  {
    DivAtMost(b, d, b / d);
    DivAtMost(a, d, b / d);
  }

  lemma MulWithin(x: int, y: int, a: int, b: int)
    requires -a <= x <= a && -b <= y <= b
    ensures -(a * b) <= x * y <= a * b
  {
    MulLe(-a, x, if y < 0 then -y else y);
    MulLe(x, a, if y < 0 then -y else y);
    MulLe(if y < 0 then -y else y, b, a);
  }

  lemma SquareWithin(x: int, a: int)
    requires -a <= x <= a
    ensures 0 <= x * x <= a * a
  {
    MulWithin(x, x, a, a);
  }

  lemma SquareBeyond(x: int, a: int)
    requires a >= 0 && (x > a || x < -a)
    ensures x * x > a * a
  {
    var u := if x < 0 then -x else x;
    assert x * x == u * u;
    MulLe(a + 1, u, u);
    MulLe(a + 1, u, a + 1);
    assert (a + 1) * (a + 1) == a * a + 2 * a + 1;
  }
}
