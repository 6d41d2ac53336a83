/** Row-major fonts: drawn straight into a frame, or packed into a strip for the marquee.
    The two agree point for point. */
module Marquee {
  import opened Bits
  import opened Bresenham
  import opened Raster

  /** A glyph: its width, and one byte per row whose bit b is column b. */
  datatype Shape = Shape(w: nat, rows: seq<bv8>)

  /** Sixteen rows; an eight-row Amiga glyph is one whose lower half is dark. */
  type Cell = c: Shape | c.w <= 8 && |c.rows| == 16 witness Shape(0, seq(16, _ => 0))

  /** The columns a string takes up: its glyph widths and one gap each. */
  function Advance(font: char -> Cell, s: string): nat {
    if s == [] then 0 else Advance(font, s[..|s| - 1]) + font(s[|s| - 1]).w + 1
  }

  function RowPoints(mask: bv8, w: nat, x: int, y: int): set<Point>
    requires w <= 8
  {
    set b: nat | b < w && Bit(mask, b) :: (x + b, y)
  }

  function CellPoints(c: Cell, x: int, y: int, h: nat): set<Point>
    requires h <= 16
  {
    if h == 0 then {} else CellPoints(c, x, y, h - 1) + RowPoints(c.rows[h - 1], c.w, x, y + h - 1)
  }

  function StringPoints(font: char -> Cell, s: string, x0: int, y0: int): set<Point> {
    if s == [] then {} else
    var c := font(s[|s| - 1]);
    StringPoints(font, s[..|s| - 1], x0, y0)
    + CellPoints(c, x0 + Advance(font, s[..|s| - 1]), y0, 16)
  }

  // ----- drawing into a frame ----------------------------------------------------

  /** `topaz` (always on) and `amiga8` (on or off). */
  method Draw(f: Frame, font: char -> Cell, s: string, x0: int, y0: int, on: bool)
    requires f.Valid()
    modifies f.buf
    ensures f.Image() == Paint(old(f.Image()), StringPoints(font, s, x0, y0), on)
  {
    ghost var was := f.Image();
    var cx := x0;
    PaintNothing(was, on);
    for i := 0 to |s|
      invariant cx == x0 + Advance(font, s[..i])
      invariant f.Image() == Paint(was, StringPoints(font, s[..i], x0, y0), on)
    {
      var c := font(s[i]);
      ghost var now, cell := f.Image(), CellPoints(c, cx, y0, 16);
      DrawCell(f, c, cx, y0, on);
      OneMoreCell(font, s, i, x0, y0);
      PaintMore(was, now, f.Image(), StringPoints(font, s[..i], x0, y0), cell,
                StringPoints(font, s[..i + 1], x0, y0), on);
      cx := cx + c.w + 1;
    }
    assert s[..|s|] == s;
  }

  /** The middle loop of `Draw`: the sixteen rows of one glyph. */
  method DrawCell(f: Frame, c: Cell, x: int, y: int, on: bool)
    requires f.Valid()
    modifies f.buf
    ensures f.Image() == Paint(old(f.Image()), CellPoints(c, x, y, 16), on)
  {
    ghost var was := f.Image();
    PaintNothing(was, on);
    for r := 0 to 16
      invariant f.Image() == Paint(was, CellPoints(c, x, y, r), on)
    {
      ghost var now, row := f.Image(), RowPoints(c.rows[r], c.w, x, y + r);
      CellGrows(c, x, y, r);
      Row(f, c.rows[r], c.w, x, y + r, on);
      PaintMore(was, now, f.Image(), CellPoints(c, x, y, r), row, CellPoints(c, x, y, r + 1), on);
    }
  }

  /** The innermost loop of `Draw`: the bits of one row. */
  method Row(f: Frame, mask: bv8, w: nat, x: int, y: int, on: bool)
    requires f.Valid() && w <= 8
    modifies f.buf
    ensures f.Image() == Paint(old(f.Image()), RowPoints(mask, w, x, y), on)
  {
    ghost var was := f.Image();
    PaintNothing(was, on);
    assert RowPoints(mask, 0, x, y) == {};
    for b := 0 to w
      invariant f.Image() == Paint(was, RowPoints(mask, b, x, y), on)
    {
      RowGrows(mask, b, x, y);
      if Bit(mask, b) {
        f.Px(x + b, y, on);
        PaintTwice(was, RowPoints(mask, b, x, y), {(x + b, y)}, on);
      }
    }
  }

  lemma CellGrows(c: Cell, x: int, y: int, r: nat)
    requires r < 16
    ensures CellPoints(c, x, y, r + 1) == CellPoints(c, x, y, r) + RowPoints(c.rows[r], c.w, x, y + r)
  {
  }

  lemma RowGrows(mask: bv8, b: nat, x: int, y: int)
    requires b < 8
    ensures RowPoints(mask, b + 1, x, y) == RowPoints(mask, b, x, y) + (if Bit(mask, b) then {(x + b, y)} else {})
  {
  }

  lemma OneMoreCell(font: char -> Cell, s: string, i: nat, x0: int, y0: int)
    requires i < |s|
    ensures Advance(font, s[..i + 1]) == Advance(font, s[..i]) + font(s[i]).w + 1
    ensures StringPoints(font, s[..i + 1], x0, y0)
            == StringPoints(font, s[..i], x0, y0) + CellPoints(font(s[i]), x0 + Advance(font, s[..i]), y0, 16)
  {
    assert s[..i + 1][..i] == s[..i];
  }

  // ----- the packed strip -----------------------------------------------------------

  function CellRow(c: Cell, r: nat): seq<bool>
    requires r < 16
  {
    seq(c.w, b requires 0 <= b < c.w => Bit(c.rows[r], b))
  }

  /** Row r of the unpacked strip: each glyph's row and its one-column hole. */
  function StripRow(font: char -> Cell, s: string, r: nat): seq<bool>
    requires r < 16
  {
    if s == [] then [] else
    StripRow(font, s[..|s| - 1], r) + CellRow(font(s[|s| - 1]), r) + [false]
  }

  /** `bytes` packs `bits`, eight to a byte, lowest first, the tail dark. */
  predicate Packs(bytes: seq<bv8>, bits: seq<bool>) {
    && |bytes| == (|bits| + 7) / 8
    && forall i: nat :: i < 8 * |bytes| ==> Bit(bytes[i / 8], i % 8) == (i < |bits| && bits[i])
  }

  predicate IsStrip(font: char -> Cell, s: string, rows: seq<seq<bv8>>, w: nat) {
    && |rows| == 16 && w == Advance(font, s)
    && forall r: nat :: r < 16 ==> Packs(rows[r], StripRow(font, s, r))
  }

  method TopazStrip(font: char -> Cell, s: string) returns (packed: seq<seq<bv8>>, w: nat)
    ensures IsStrip(font, s, packed, w)
  {
    var rows: seq<seq<bool>> := seq(16, _ => []);
    for i := 0 to |s|
      invariant |rows| == 16
      invariant forall r: nat :: r < 16 ==> rows[r] == StripRow(font, s[..i], r)
    {
      var c := font(s[i]);
      ghost var was := rows;
      assert s[..i + 1][..i] == s[..i];
      for r := 0 to 16
        invariant |rows| == 16
        invariant forall q: nat :: q < r ==> rows[q] == StripRow(font, s[..i + 1], q)
        invariant forall q: nat :: r <= q < 16 ==> rows[q] == was[q]
      {
        var row := rows[r];
        for b := 0 to c.w
          invariant row == rows[r] + CellRow(c, r)[..b]
        {
          row := row + [Bit(c.rows[r], b)];
        }
        assert CellRow(c, r)[..c.w] == CellRow(c, r);
        rows := rows[r := row + [false]]; // the one-column gap
      }
    }
    assert s[..|s|] == s;
    w := |rows[0]|;
    StripWidth(font, s, 0);
    packed := [];
    for r := 0 to 16
      invariant |packed| == r
      invariant forall q: nat :: q < r ==> Packs(packed[q], rows[q])
    {
      var bytes := Pack(rows[r]);
      packed := packed + [bytes];
    }
  }

  method Pack(bits: seq<bool>) returns (bytes: seq<bv8>)
    ensures Packs(bytes, bits)
  {
    bytes := seq((|bits| + 7) / 8, _ => 0);
    forall k: nat | k < 8 ensures !Bit(0, k) { ZeroHasNoBits(k); }
    for i := 0 to |bits|
      invariant |bytes| == (|bits| + 7) / 8
      invariant forall j: nat :: j < 8 * |bytes| ==> Bit(bytes[j / 8], j % 8) == (j < i && bits[j])
    {
      if bits[i] {
        ghost var was := bytes;
        bytes := bytes[i / 8 := WithBit(bytes[i / 8], i % 8, true)];
        forall j: nat | j < 8 * |bytes|
          ensures Bit(bytes[j / 8], j % 8) == (j < i + 1 && bits[j])
        {
          WithBitAt(was[i / 8], i % 8, true, j % 8);
          if j / 8 == i / 8 && j % 8 == i % 8 { assert j == i; }
        }
      }
    }
  }

  /** The marquee's read: row r, column sx. */
  predicate StripBit(rows: seq<seq<bv8>>, r: nat, sx: nat)
    requires r < |rows| && sx / 8 < |rows[r]|
  {
    Bit(rows[r][sx / 8], sx % 8)
  }

  lemma {:induction false} StripWidth(font: char -> Cell, s: string, r: nat)
    requires r < 16
    ensures |StripRow(font, s, r)| == Advance(font, s)
  {
    if s != [] {
      StripWidth(font, s[..|s| - 1], r);
    }
  }

  lemma {:induction false} InCell(c: Cell, x: int, y: int, h: nat, p: Point)
    requires h <= 16
    ensures p in CellPoints(c, x, y, h) <==>
            && 0 <= p.0 - x < c.w && 0 <= p.1 - y < h
            && Bit(c.rows[p.1 - y], p.0 - x)
  {
    if h > 0 {
      InCell(c, x, y, h - 1, p);
      if p.1 == y + h - 1 && 0 <= p.0 - x < c.w && Bit(c.rows[h - 1], p.0 - x) {
        assert p == (x + (p.0 - x), y + h - 1);
      }
    }
  }

  predicate InStrip(font: char -> Cell, s: string, x0: int, y0: int, p: Point) {
    && 0 <= p.1 - y0 < 16
    && 0 <= p.0 - x0 < |StripRow(font, s, p.1 - y0)| && StripRow(font, s, p.1 - y0)[p.0 - x0]
  }

  predicate CellHas(c: Cell, x: int, y: int, p: Point) {
    0 <= p.0 - x < c.w && 0 <= p.1 - y < 16 && Bit(c.rows[p.1 - y], p.0 - x)
  }

  /** A point is drawn exactly when the strip's row has its column set. */
  lemma {:induction false} DrawnIffInStrip(font: char -> Cell, s: string, x0: int, y0: int, p: Point)
    ensures p in StringPoints(font, s, x0, y0) <==> InStrip(font, s, x0, y0, p)
  {
    if s != [] {
      DrawnIffInStrip(font, s[..|s| - 1], x0, y0, p);
      LastDrawn(font, s, x0, y0, p);
      LastCell(font, s, x0, y0, p);
    }
  }

  lemma LastDrawn(font: char -> Cell, s: string, x0: int, y0: int, p: Point)
    requires s != []
    ensures var n, x := |s| - 1, x0 + Advance(font, s[..|s| - 1]);
            p in StringPoints(font, s, x0, y0) <==>
            p in StringPoints(font, s[..n], x0, y0) || CellHas(font(s[n]), x, y0, p)
  {
    InCell(font(s[|s| - 1]), x0 + Advance(font, s[..|s| - 1]), y0, 16, p);
  }

  /** A column of the strip belongs to the string before the last glyph, to that glyph, or to
      the hole after it. */
  lemma LastCell(font: char -> Cell, s: string, x0: int, y0: int, p: Point)
    requires s != []
    ensures var n, x := |s| - 1, x0 + Advance(font, s[..|s| - 1]);
            InStrip(font, s, x0, y0, p) <==>
            InStrip(font, s[..n], x0, y0, p) || CellHas(font(s[n]), x, y0, p)
  {
    if 0 <= p.1 - y0 < 16 {
      var n, r := |s| - 1, p.1 - y0;
      StripWidth(font, s[..n], r);
      Parts(StripRow(font, s[..n], r), CellRow(font(s[n]), r), p.0 - x0);
    }
  }

  lemma Parts(a: seq<bool>, b: seq<bool>, i: int)
    ensures 0 <= i < |a + b + [false]| && (a + b + [false])[i] <==>
            (0 <= i < |a| && a[i]) || (0 <= i - |a| < |b| && b[i - |a|])
  {
  }

  /** The widths of a string's glyphs, no gaps. */
  function Widths(font: char -> Cell, s: string): nat {
    if s == [] then 0 else Widths(font, s[..|s| - 1]) + font(s[|s| - 1]).w
  }

  lemma {:induction false} OneGapEach(font: char -> Cell, s: string)
    ensures Advance(font, s) == Widths(font, s) + |s|
  {
    if s != [] { OneGapEach(font, s[..|s| - 1]); }
  }

  ghost predicate InGlyph(font: char -> Cell, s: string, x0: int, y0: int, p: Point, i: nat)
    requires i < |s|
  {
    CellHas(font(s[i]), x0 + Widths(font, s[..i]) + i, y0, p)
  }

  /** A point of a drawn string is a set bit of one of its glyphs, which stands as far right as the
      widths of the glyphs before it and one column for each. */
  lemma {:induction false} InString(font: char -> Cell, s: string, x0: int, y0: int, p: Point)
    ensures p in StringPoints(font, s, x0, y0) <==> exists i: nat :: i < |s| && InGlyph(font, s, x0, y0, p, i)
  {
    if s != [] {
      var n := |s| - 1;
      var before := s[..n];
      InString(font, before, x0, y0, p);
      LastDrawn(font, s, x0, y0, p);
      OneGapEach(font, before);
      forall i: nat | i < n ensures InGlyph(font, s, x0, y0, p, i) <==> InGlyph(font, before, x0, y0, p, i) {
        assert before[..i] == s[..i];
      }
      assert InGlyph(font, s, x0, y0, p, n) <==> CellHas(font(s[n]), x0 + Advance(font, before), y0, p);
    }
  }

  lemma OnDark(points: set<Point>, p: Point)
    ensures p in Paint({}, points, true) <==> OnScreen(p.0, p.1) && p in points
  {
  }

  lemma PackedBit(bytes: seq<bv8>, bits: seq<bool>, i: nat)
    requires Packs(bytes, bits) && i < |bits|
    ensures i / 8 < |bytes| && Bit(bytes[i / 8], i % 8) == bits[i]
  {
  }

  /** Topaz on a clear frame lights exactly the on-screen points whose bit is set in the strip. */
  lemma TopazIsTheStrip(font: char -> Cell, s: string, x0: int, y0: int,
                        rows: seq<seq<bv8>>, w: nat, x: int, y: int)
    requires IsStrip(font, s, rows, w)
    ensures forall r: nat :: r < 16 ==> |rows[r]| == (w + 7) / 8
    ensures (x, y) in Paint({}, StringPoints(font, s, x0, y0), true) <==>
            && OnScreen(x, y) && 0 <= y - y0 < 16 && 0 <= x - x0 < w
            && StripBit(rows, y - y0, x - x0)
  {
    forall r: nat | r < 16 ensures |rows[r]| == (w + 7) / 8 { OneRow(font, s, rows, w, r); }
    StripBits(font, s, x0, y0, rows, w, x, y);
    DrawnIffInStrip(font, s, x0, y0, (x, y));
    OnDark(StringPoints(font, s, x0, y0), (x, y));
  }

  lemma StripBits(font: char -> Cell, s: string, x0: int, y0: int,
                  rows: seq<seq<bv8>>, w: nat, x: int, y: int)
    requires IsStrip(font, s, rows, w)
    requires forall r: nat :: r < 16 ==> |rows[r]| == (w + 7) / 8
    ensures InStrip(font, s, x0, y0, (x, y)) <==>
            0 <= y - y0 < 16 && 0 <= x - x0 < w && StripBit(rows, y - y0, x - x0)
  {
    if 0 <= y - y0 < 16 {
      OneRow(font, s, rows, w, y - y0);
      if 0 <= x - x0 < w { PackedBit(rows[y - y0], StripRow(font, s, y - y0), x - x0); }
    }
  }

  lemma OneRow(font: char -> Cell, s: string, rows: seq<seq<bv8>>, w: nat, r: nat)
    requires IsStrip(font, s, rows, w) && r < 16
    ensures |StripRow(font, s, r)| == w && |rows[r]| == (w + 7) / 8 && Packs(rows[r], StripRow(font, s, r))
  {
    StripWidth(font, s, r);
  }
}
