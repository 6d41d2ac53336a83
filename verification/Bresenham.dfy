/** The pixels of a line, in closed form: what the error loop in `Frame.Line` has to reach. */
module Bresenham {
  import opened Arith

  type Point = (int, int)

  function Abs(a: int): nat { if a < 0 then -a else a }

  function Sign(a: int, b: int): int { if a < b then 1 else -1 }

  function Max(a: int, b: int): int { if a < b then b else a }

  /** k*m/n rounded to the nearest integer, halves away from the start of the line. */
  function Round(a: int, n: nat): int
    requires n > 0
  {
    (2 * a + n) / (2 * n)
  }

  /** The geometry of one call: how far, and which way, along each axis. */
  datatype Run = Run(x0: int, y0: int, x1: int, y1: int) {
    function Dx(): nat { Abs(x1 - x0) }
    function Dy(): nat { Abs(y1 - y0) }
    function Sx(): int { Sign(x0, x1) }
    function Sy(): int { Sign(y0, y1) }

    /** The number of steps: the length of the longer axis. */
    function N(): nat { Max(Dx(), Dy()) }

    function Rx(k: nat): int { if N() == 0 then 0 else Round(k * Dx(), N()) }
    function Ry(k: nat): int { if N() == 0 then 0 else Round(k * Dy(), N()) }

    /** The k-th pixel: the ideal segment, rounded on both axes (exact on the longer one). */
    function At(k: nat): Point { (x0 + Sx() * Rx(k), y0 + Sy() * Ry(k)) }

    /** The error term the loop carries when it plots the k-th pixel. */
    function Err(k: nat): int { (Ry(k) + 1) * Dx() - (Rx(k) + 1) * Dy() }

    function Prefix(k: nat): set<Point> { set j: nat | j < k :: At(j) }

    function Pixels(): set<Point> { Prefix(N() + 1) }

    function Reverse(): Run { Run(x1, y1, x0, y0) }

    /** Some pixel on the shorter axis falls exactly half way. */
    ghost predicate Tie() {
      N() > 0 && exists k: nat :: k <= N() && (Half(k, Dx()) || Half(k, Dy()))
    }

    predicate Half(k: nat, d: nat)
      requires N() > 0
    {
      (2 * (k * d) + N()) % (2 * N()) == 0
    }
  }

  // ----- rounding -------------------------------------------------------------

  lemma RoundBounds(a: int, n: nat)
    requires n > 0
    ensures 2 * (n * Round(a, n) - a) <= n && 2 * (a - n * Round(a, n)) < n
  {
    var q := Round(a, n);
    assert 2 * a + n == 2 * n * q + (2 * a + n) % (2 * n);
    assert 2 * n * q == 2 * (n * q);
  }

  lemma RoundExact(k: int, n: nat)
    requires n > 0
    ensures Round(k * n, n) == k
  {
    assert 2 * (k * n) + n == (2 * n) * k + n;
    DivUnique(2 * (k * n) + n, 2 * n, k, n);
  }

  /** One more step of `d <= n` rounds up by one exactly when the half-way mark is passed. */
  lemma RoundStep(k: nat, d: nat, n: nat)
    requires 0 < n && d <= n
    ensures var q := Round(k * d, n);
            Round((k + 1) * d, n) == if (2 * q + 1) * n <= 2 * ((k + 1) * d) then q + 1 else q
  {
    var q := Round(k * d, n);
    RoundBounds(k * d, n);
    var a := 2 * ((k + 1) * d) + n;
    assert (k + 1) * d == k * d + d;
    assert n * q == q * n;
    DivAtMost(a, 2 * n, q - 1);
    DivAtMost(a, 2 * n, q);
    DivAtMost(a, 2 * n, q + 1);
    assert (q + 1) * (2 * n) == 2 * (q * n) + 2 * n;
    assert (q + 2) * (2 * n) == 2 * (q * n) + 4 * n;
    assert q * (2 * n) == 2 * (q * n);
    assert (2 * q + 1) * n == 2 * (q * n) + n;
  }

  lemma RoundInside(k: nat, d: nat, n: nat)
    requires 0 < n && d <= n && k <= n
    ensures 0 <= Round(k * d, n) <= d
  {
    MulLe(k, n, d);
    MulLe(0, k, d);
    assert n * d == d * n;
    RoundExact(d, n);
    RoundExact(0, n);
    DivMonotone(2 * (k * d) + n, 2 * (d * n) + n, 2 * n);
    DivMonotone(2 * (0 * n) + n, 2 * (k * d) + n, 2 * n);
  }

  // ----- one iteration of the loop ---------------------------------------------

  /** One iteration when the axis of length n is the longer: that axis steps, and the other
      (length d, now at q) steps just when its rounded position moves. */
  lemma LongAxisSteps(k: nat, d: nat, n: nat, q: int)
    requires 0 < n && d <= n && q == Round(k * d, n)
    ensures var err := (q + 1) * n - (k + 1) * d;
            2 * err + d >= 0 && (2 * err <= n <==> Round((k + 1) * d, n) == q + 1)
    ensures Round((k + 1) * d, n) == q || Round((k + 1) * d, n) == q + 1
  {
    RoundStep(k, d, n);
    RoundBounds(k * d, n);
    var a, b := q * n, k * d;
    assert n * q == a;
    assert (q + 1) * n == a + n;
    assert (k + 1) * d == b + d;
    assert (2 * q + 1) * n == 2 * a + n;
  }

  /** The two tests of the loop body take exactly the steps that lead to the next pixel. */
  lemma StepsAgree(r: Run, k: nat)
    requires k < r.N()
    ensures r.Rx(k + 1) == if 2 * r.Err(k) + r.Dy() >= 0 then r.Rx(k) + 1 else r.Rx(k)
    ensures r.Ry(k + 1) == if 2 * r.Err(k) <= r.Dx() then r.Ry(k) + 1 else r.Ry(k)
    ensures r.At(k) != (r.x1, r.y1)
  {
    var n := r.N();
    RoundExact(k, n);
    RoundExact(k + 1, n);
    if r.Dx() == n {
      LongAxisSteps(k, r.Dy(), n, r.Ry(k));
      if r.Dy() == n {
        assert r.Err(k) == 0;
      }
    } else {
      LongAxisSteps(k, r.Dx(), n, r.Rx(k));
    }
  }

  /** The loop's variables as it comes to plot the k-th pixel. */
  ghost predicate Reached(r: Run, k: nat, x: int, y: int, err: int) {
    k <= r.N() && (x, y) == r.At(k) && err == r.Err(k)
  }

  /** The loop body, on the variables: (x, y, err) after its two tests. */
  function Moved(x: int, y: int, err: int, dx: int, dy: int, sx: int, sy: int): (int, int, int) {
    var right, down := 2 * err >= dy, 2 * err <= dx;
    (x + (if right then sx else 0), y + (if down then sy else 0),
     err + (if right then dy else 0) + (if down then dx else 0))
  }

  /** So the loop's variables move from the k-th pixel and error to the next. */
  lemma NextPixel(r: Run, k: nat, x: int, y: int, err: int)
    requires Reached(r, k, x, y, err) && k < r.N()
    ensures var (x', y', err') := Moved(x, y, err, r.Dx(), 0 - r.Dy(), r.Sx(), r.Sy());
            Reached(r, k + 1, x', y', err')
  {
    NextAt(r, k);
  }

  lemma NextAt(r: Run, k: nat)
    requires k < r.N()
    ensures Moved(r.At(k).0, r.At(k).1, r.Err(k), r.Dx(), 0 - r.Dy(), r.Sx(), r.Sy())
            == (r.At(k + 1).0, r.At(k + 1).1, r.Err(k + 1))
  {
    StepsAgree(r, k);
    OneMore(r.Rx(k), r.Sx());
    OneMore(r.Ry(k), r.Sy());
    OneMore(r.Ry(k) + 1, r.Dx());
    OneMore(r.Rx(k) + 1, r.Dy());
  }

  lemma OneMore(a: int, d: int)
    ensures (a + 1) * d == a * d + d && d * (a + 1) == d * a + d
  {
  }

  lemma FirstPixel(r: Run)
    ensures Reached(r, 0, r.x0, r.y0, r.Dx() - r.Dy())
  {
    Ends(r);
  }

  /** The loop's exit test holds at the last pixel and at no other. */
  lemma LastPixel(r: Run, k: nat, x: int, y: int, err: int)
    requires Reached(r, k, x, y, err)
    ensures x == r.x1 && y == r.y1 <==> k == r.N()
  {
    Ends(r);
    if x == r.x1 && y == r.y1 { Distinct(r, k, r.N()); }
  }

  lemma Ends(r: Run)
    ensures r.At(0) == (r.x0, r.y0) && r.At(r.N()) == (r.x1, r.y1)
    ensures r.Err(0) == r.Dx() - r.Dy()
  {
    var n := r.N();
    if n > 0 {
      RoundExact(0, n);
      assert 0 * r.Dx() == 0 * n && 0 * r.Dy() == 0 * n;
      RoundExact(r.Dx(), n);
      RoundExact(r.Dy(), n);
      assert n * r.Dx() == r.Dx() * n && n * r.Dy() == r.Dy() * n;
    }
  }

  // ----- what a line is -----------------------------------------------------------

  /** Neither axis is ever overshot, and every pixel is within half a pixel of the ideal
      segment on each axis: |n * (y - y0) - k * dy| <= n / 2, and exact on the longer one. */
  lemma NearTheSegment(r: Run, k: nat)
    requires k <= r.N()
    ensures 0 <= r.Rx(k) <= r.Dx() && 0 <= r.Ry(k) <= r.Dy()
    ensures 2 * Abs(r.N() * r.Rx(k) - k * r.Dx()) <= r.N()
    ensures 2 * Abs(r.N() * r.Ry(k) - k * r.Dy()) <= r.N()
    ensures r.Dx() == r.N() ==> r.Rx(k) == k
    ensures r.Dy() == r.N() ==> r.Ry(k) == k
  {
    var n := r.N();
    if n > 0 {
      RoundInside(k, r.Dx(), n);
      RoundInside(k, r.Dy(), n);
      RoundBounds(k * r.Dx(), n);
      RoundBounds(k * r.Dy(), n);
      RoundExact(k, n);
    }
  }

  lemma Distinct(r: Run, j: nat, k: nat)
    requires j <= r.N() && k <= r.N() && r.At(j) == r.At(k)
    ensures j == k
  {
    NearTheSegment(r, j);
    NearTheSegment(r, k);
  }

  /** One pixel for each step of the longer axis, and one more. */
  lemma PixelCount(r: Run)
    ensures |r.Pixels()| == Max(r.Dx(), r.Dy()) + 1
  {
    PrefixCount(r, r.N() + 1);
  }

  lemma {:induction false} PrefixCount(r: Run, k: nat)
    requires k <= r.N() + 1
    ensures |r.Prefix(k)| == k
  {
    if k > 0 {
      PrefixCount(r, k - 1);
      PrefixGrows(r, k - 1);
      if r.At(k - 1) in r.Prefix(k - 1) {
        var j: nat :| j < k - 1 && r.At(j) == r.At(k - 1);
        Distinct(r, j, k - 1);
      }
    }
  }

  lemma PrefixGrows(r: Run, k: nat)
    ensures r.Prefix(k + 1) == r.Prefix(k) + {r.At(k)}
  {
  }

  /** The doubled error stays within three times the line's length, so a line no longer than a
      third of the 32-bit range never overflows the loop's arithmetic. */
  lemma ErrorFits(r: Run, k: nat)
    requires k <= r.N()
    ensures Abs(2 * r.Err(k)) <= 3 * r.N()
  {
    NearTheSegment(r, k);
    ErrorOf(k, r.Rx(k), r.Ry(k), r.Dx(), r.Dy());
  }

  lemma ErrorOf(k: nat, rx: int, ry: int, dx: nat, dy: nat)
    requires var n := Max(dx, dy);
             && 2 * Abs(n * rx - k * dx) <= n && 2 * Abs(n * ry - k * dy) <= n
             && (dx == n ==> rx == k) && (dy == n ==> ry == k)
    ensures Abs(2 * ((ry + 1) * dx - (rx + 1) * dy)) <= 3 * Max(dx, dy)
  {
    if dx >= dy { LongAxisError(k, dy, dx, ry); } else { LongAxisError(k, dx, dy, rx); }
  }

  lemma LongAxisError(k: nat, d: nat, n: nat, q: int)
    requires d <= n && 2 * Abs(n * q - k * d) <= n
    ensures Abs(2 * ((q + 1) * n - (k + 1) * d)) <= 3 * n
  {
    assert (q + 1) * n == n * q + n;
    assert (k + 1) * d == k * d + d;
  }

  // ----- drawn from the other end ---------------------------------------------------

  lemma RoundFromTheOtherEnd(k: nat, d: nat, n: nat)
    requires 0 < n && k <= n
    ensures d - Round((n - k) * d, n)
            == if (2 * (k * d) + n) % (2 * n) == 0 then Round(k * d, n) - 1 else Round(k * d, n)
  {
    var q, rem := Round(k * d, n), (2 * (k * d) + n) % (2 * n);
    var a := 2 * ((n - k) * d) + n;
    assert 2 * (k * d) + n == 2 * n * q + rem;
    assert (n - k) * d == n * d - k * d;
    assert a == 2 * n * (d - q) + 2 * n - rem by {
      assert 2 * n * (d - q) == 2 * (n * d) - 2 * n * q;
    }
    if rem == 0 {
      assert a == 2 * n * (d - q + 1) by { assert 2 * n * (d - q + 1) == 2 * n * (d - q) + 2 * n; }
      DivUnique(a, 2 * n, d - q + 1, 0);
    } else {
      DivUnique(a, 2 * n, d - q, 2 * n - rem);
    }
  }

  /** A line drawn from either end lights the same pixels if and only if no pixel is a tie. */
  lemma SameFromBothEnds(r: Run)
    ensures r.Pixels() == r.Reverse().Pixels() <==> !r.Tie()
  {
    var s := r.Reverse();
    var n := r.N();
    if n == 0 {
      Ends(r);
      Ends(s);
      assert r.Pixels() == {r.At(0)} && s.Pixels() == {s.At(0)};
    } else {
      forall k: nat | k <= n
        ensures s.At(n - k) == r.At(k) <==> !r.Half(k, r.Dx()) && !r.Half(k, r.Dy())
      {
        Opposite(r, k);
      }
      if r.Tie() {
        var k: nat :| k <= n && (r.Half(k, r.Dx()) || r.Half(k, r.Dy()));
        assert s.At(n - k) != r.At(k);
        NotElsewhere(r, k);
        assert r.At(k) in r.Pixels();
      } else {
        forall p ensures p in r.Pixels() <==> p in s.Pixels() {
          if p in r.Pixels() {
            var k: nat :| k < n + 1 && r.At(k) == p;
            assert s.At(n - k) == p;
          }
          if p in s.Pixels() {
            var k: nat :| k < n + 1 && s.At(k) == p;
            assert s.At(n - (n - k)) == r.At(n - k);
          }
        }
      }
    }
  }

  /** The shortest line that differs: two right and one up, or back. */
  lemma ATieDiffers()
    ensures var r := Run(0, 0, 2, 1);
            && r.Tie() && r.Pixels() == {(0, 0), (1, 1), (2, 1)}
            && r.Reverse().Pixels() == {(2, 1), (1, 0), (0, 0)}
  {
    TwoByOne(Run(0, 0, 2, 1));
    TwoByOne(Run(2, 1, 0, 0));
  }

  lemma TwoByOne(r: Run)
    requires r.Dx() == 2 && r.Dy() == 1
    ensures r.Tie()
    ensures r.Pixels() == {(r.x0, r.y0), (r.x0 + r.Sx(), r.y0 + r.Sy()), (r.x1, r.y1)}
  {
    assert r.Rx(1) == 1 && r.Ry(1) == 1;
    assert r.Sx() * 1 == r.Sx() && r.Sy() * 1 == r.Sy();
    Ends(r);
    ThreePixels(r);
    TwoTie(r, 2);
  }

  lemma TwoTie(r: Run, n: nat)
    requires r.N() == n == 2 && r.Dy() == 1
    ensures r.Tie()
  {
    assert (2 * (1 * 1) + n) % (2 * n) == 0;
    assert r.Half(1, r.Dy());
  }

  lemma ThreePixels(r: Run)
    requires r.N() == 2
    ensures r.Pixels() == {r.At(0), r.At(1), r.At(2)}
  {
    PrefixGrows(r, 0);
    PrefixGrows(r, 1);
    PrefixGrows(r, 2);
  }

  lemma Opposite(r: Run, k: nat)
    requires 0 < r.N() && k <= r.N()
    ensures r.Reverse().At(r.N() - k) == r.At(k) <==> !r.Half(k, r.Dx()) && !r.Half(k, r.Dy())
  {
    AxisOpposite(r.x0, r.x1, k, r.N());
    AxisOpposite(r.y0, r.y1, k, r.N());
  }

  lemma AxisOpposite(a: int, b: int, k: nat, n: nat)
    requires 0 < n && k <= n
    ensures var d := Abs(b - a);
            b + Sign(b, a) * Round((n - k) * d, n) == a + Sign(a, b) * Round(k * d, n)
            <==> (2 * (k * d) + n) % (2 * n) != 0
  {
    var d := Abs(b - a);
    RoundFromTheOtherEnd(k, d, n);
    AxisMeets(a, b, Round(k * d, n), Round((n - k) * d, n));
    if d == 0 {
      assert k * d == 0 && (n - k) * d == 0;
      HalfOfNothing(n);
    }
  }

  /** p steps from a towards b and q steps from b towards a meet when they make up the way. */
  lemma AxisMeets(a: int, b: int, p: int, q: int)
    ensures a != b ==> (b + Sign(b, a) * q == a + Sign(a, b) * p <==> p + q == Abs(b - a))
    ensures a == b ==> (b + Sign(b, a) * q == a + Sign(a, b) * p <==> p == q)
  {
  }

  lemma HalfOfNothing(n: nat)
    requires 0 < n
    ensures n % (2 * n) != 0 && n / (2 * n) == 0
  {
    DivUnique(n, 2 * n, 0, n);
  }

  /** The reversed line has one pixel per step of the longer axis: if it misses r's k-th pixel
      at the matching step, it misses it altogether. */
  lemma NotElsewhere(r: Run, k: nat)
    requires 0 < r.N() && k <= r.N() && r.Reverse().At(r.N() - k) != r.At(k)
    ensures r.At(k) !in r.Reverse().Pixels()
  {
    var s := r.Reverse();
    forall j: nat | j < s.N() + 1 ensures s.At(j) != r.At(k) {
      NearTheSegment(r, k);
      NearTheSegment(s, j);
    }
  }
}
