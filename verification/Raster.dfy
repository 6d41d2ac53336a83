/** The framebuffer: 1024 bytes, page-major, changed in place.  Its meaning is a set of lit
    points, and every drawing operation is specified on that set. */
module Raster {
  import opened Bits
  import opened Bresenham

  const WIDTH := 128
  const HEIGHT := 64
  const PAGES := 8
  const BYTES := PAGES * WIDTH

  predicate OnScreen(x: int, y: int) { 0 <= x < WIDTH && 0 <= y < HEIGHT }

  function Index(x: int, y: int): nat
    requires OnScreen(x, y)
  {
    (y / 8) * WIDTH + x
  }

  predicate Lit(s: seq<bv8>, x: int, y: int)
    requires |s| == BYTES && OnScreen(x, y)
  {
    Bit(s[Index(x, y)], y % 8)
  }

  function ImageOf(s: seq<bv8>): set<Point>
    requires |s| == BYTES
  {
    set x, y | 0 <= x < WIDTH && 0 <= y < HEIGHT && Lit(s, x, y) :: (x, y)
  }

  /** Drawing a set of points: the on-screen ones are lit or put out, the rest are dropped. */
  function Paint(image: set<Point>, points: set<Point>, on: bool): set<Point> {
    if on then image + (set p | p in points && OnScreen(p.0, p.1)) else image - points
  }

  lemma PaintTwice(image: set<Point>, a: set<Point>, b: set<Point>, on: bool)
    ensures Paint(Paint(image, a, on), b, on) == Paint(image, a + b, on)
  {
  }

  lemma PaintOffScreen(s: seq<bv8>, p: Point, on: bool)
    requires |s| == BYTES && !OnScreen(p.0, p.1)
    ensures Paint(ImageOf(s), {p}, on) == ImageOf(s)
  {
    assert p !in ImageOf(s);
  }

  lemma PaintNothing(image: set<Point>, on: bool)
    ensures Paint(image, {}, on) == image
  {
  }

  /** The picture is the buffer: two buffers with the same lit points are the same bytes. */
  lemma ImageDecides(a: seq<bv8>, b: seq<bv8>)
    requires |a| == |b| == BYTES && ImageOf(a) == ImageOf(b)
    ensures a == b
  {
    forall i: nat | i < BYTES ensures a[i] == b[i] {
      forall k: nat | k < 8 ensures Bit(a[i], k) == Bit(b[i], k) {
        var x, y := i % WIDTH, (i / WIDTH) * 8 + k;
        assert OnScreen(x, y) && Index(x, y) == i && y % 8 == k;
        assert (x, y) in ImageOf(a) <==> Lit(a, x, y);
        assert (x, y) in ImageOf(b) <==> Lit(b, x, y);
      }
      BitsDecide(a[i], b[i]);
    }
  }

  /** Where a point is in the buffer: 128 bytes to a page of eight rows, the top row in the lowest
      bit. */
  lemma PageMajor(s: seq<bv8>, x: int, y: int)
    requires |s| == 1024 && 0 <= x < 128 && 0 <= y < 64
    ensures (x, y) in ImageOf(s) <==>
              s[128 * (y / 8) + x] & [1, 2, 4, 8, 16, 32, 64, 128][y % 8] != 0
  {
    assert (x, y) in ImageOf(s) <==> Lit(s, x, y);
    assert Index(x, y) == 128 * (y / 8) + x;
    PlaceOfBit(s[Index(x, y)], y % 8);
  }

  lemma PlaceOfBit(b: bv8, k: nat)
    requires k < 8
    ensures Bit(b, k) <==> b & [1, 2, 4, 8, 16, 32, 64, 128][k] != 0
  {
  }

  lemma IndexInjective(x: int, y: int, x': int, y': int)
    requires OnScreen(x, y) && OnScreen(x', y') && Index(x, y) == Index(x', y') && y % 8 == y' % 8
    ensures x == x' && y == y'
  {
  }

  lemma OneBit(s: seq<bv8>, x: int, y: int, on: bool, x': int, y': int)
    requires |s| == BYTES && OnScreen(x, y) && OnScreen(x', y')
    ensures var t := s[Index(x, y) := WithBit(s[Index(x, y)], y % 8, on)];
            Lit(t, x', y') <==> if x' == x && y' == y then on else Lit(s, x', y')
  {
    var i := Index(x, y);
    if Index(x', y') == i {
      WithBitAt(s[i], y % 8, on, y' % 8);
      if y' % 8 == y % 8 { IndexInjective(x, y, x', y'); }
    }
  }

  /** Changing one bit of one byte changes one point of the picture. */
  lemma OneByte(s: seq<bv8>, x: int, y: int, on: bool)
    requires |s| == BYTES && OnScreen(x, y)
    ensures ImageOf(s[Index(x, y) := WithBit(s[Index(x, y)], y % 8, on)])
            == Paint(ImageOf(s), {(x, y)}, on)
  {
    var t := s[Index(x, y) := WithBit(s[Index(x, y)], y % 8, on)];
    forall x', y' | OnScreen(x', y')
      ensures (x', y') in ImageOf(t) <==> (x', y') in Paint(ImageOf(s), {(x, y)}, on)
    {
      OneBit(s, x, y, on, x', y');
    }
  }

  lemma OneStore(s: seq<bv8>, t: seq<bv8>, x: int, y: int, on: bool)
    requires |s| == |t| == BYTES && OnScreen(x, y)
    requires t[Index(x, y)] == WithBit(s[Index(x, y)], y % 8, on)
    requires forall j :: 0 <= j < BYTES && j != Index(x, y) ==> t[j] == s[j]
    ensures ImageOf(t) == Paint(ImageOf(s), {(x, y)}, on)
  {
    OneByte(s, x, y, on);
    assert t == s[Index(x, y) := t[Index(x, y)]];
  }

  lemma DarkImage(s: seq<bv8>)
    requires |s| == BYTES && forall i :: 0 <= i < BYTES ==> s[i] == 0
    ensures ImageOf(s) == {}
  {
    forall x, y | OnScreen(x, y) ensures !Lit(s, x, y) {
      assert s[Index(x, y)] == 0;
    }
  }

  /** A 5x7 glyph: five columns, bit 0 at the top. */
  datatype Glyph = Glyph(c0: bv8, c1: bv8, c2: bv8, c3: bv8, c4: bv8) {
    function Column(i: nat): bv8
      requires i < 5
    {
      if i == 0 then c0 else if i == 1 then c1 else if i == 2 then c2 else if i == 3 then c3 else c4
    }
  }

  type Font = char -> Glyph

  function ColumnPoints(col: bv8, x: int, y: int, h: nat): set<Point>
    requires h <= 7
  {
    set cy: nat | cy < h && Bit(col, cy) :: (x, y + cy)
  }

  function GlyphPoints(g: Glyph, x: int, y: int, w: nat): set<Point>
    requires w <= 5
  {
    if w == 0 then {} else GlyphPoints(g, x, y, w - 1) + ColumnPoints(g.Column(w - 1), x + w - 1, y, 7)
  }

  /** The points a string lights, glyph after glyph, six columns apart. */
  function TextPoints(font: Font, x: int, y: int, s: string): set<Point> {
    if s == [] then {} else
    TextPoints(font, x, y, s[..|s| - 1]) + GlyphPoints(font(s[|s| - 1]), x + 6 * (|s| - 1), y, 5)
  }

  lemma {:induction false} InGlyph(g: Glyph, x: int, y: int, w: nat, p: Point)
    requires w <= 5
    ensures p in GlyphPoints(g, x, y, w) <==>
            && 0 <= p.0 - x < w && 0 <= p.1 - y < 7
            && Bit(g.Column(p.0 - x), p.1 - y)
  {
    if w > 0 {
      InGlyph(g, x, y, w - 1, p);
      var col := g.Column(w - 1);
      if p.0 == x + w - 1 && 0 <= p.1 - y < 7 && Bit(col, p.1 - y) {
        assert p == (x + w - 1, y + (p.1 - y));
      }
    }
  }

  /** Where a string's point comes from: the cell, the column in it, the bit of the column. */
  lemma {:induction false} InText(font: Font, x: int, y: int, s: string, p: Point)
    ensures p in TextPoints(font, x, y, s) <==>
            && 0 <= p.0 - x < 6 * |s| && (p.0 - x) % 6 < 5 && 0 <= p.1 - y < 7
            && Bit(font(s[(p.0 - x) / 6]).Column((p.0 - x) % 6), p.1 - y)
  {
    if s != [] {
      var n := |s| - 1;
      InText(font, x, y, s[..n], p);
      InGlyph(font(s[n]), x + 6 * n, y, 5, p);
      if 0 <= p.0 - x < 6 * n {
        assert s[..n][(p.0 - x) / 6] == s[(p.0 - x) / 6];
      }
    }
  }

  class Frame {
    const buf: array<bv8>

    ghost predicate Valid() { buf.Length == BYTES }

    ghost function Image(): set<Point>
      requires Valid()
      reads buf
    {
      ImageOf(buf[..])
    }

    constructor ()
      ensures Valid() && fresh(buf)
      ensures Image() == {}
    {
      buf := new bv8[BYTES](_ => 0);
      new;
      DarkImage(buf[..]);
    }

    method Clear()
      requires Valid()
      modifies buf
      ensures Image() == {}
    {
      var i := 0;
      while i < buf.Length
        invariant 0 <= i <= buf.Length
        invariant forall j :: 0 <= j < i ==> buf[j] == 0
      {
        buf[i] := 0;
        i := i + 1;
      }
      DarkImage(buf[..]);
    }

    /** Off-screen writes are dropped; an on-screen one moves its own bit and no other. */
    method Px(x: int, y: int, on: bool)
      requires Valid()
      modifies buf
      ensures Image() == Paint(old(Image()), {(x, y)}, on)
    {
      ghost var was := buf[..];
      if x < 0 || x >= WIDTH || y < 0 || y >= HEIGHT {
        PaintOffScreen(was, (x, y), on);
        return;
      }
      var i := (y / 8) * WIDTH + x;
      buf[i] := WithBit(buf[i], y % 8, on);
      OneStore(was, buf[..], x, y, on);
    }

    /** Bresenham: exactly the rounded pixels of the segment, both endpoints included. */
    method Line(x0: int, y0: int, x1: int, y1: int, on: bool)
      requires Valid()
      modifies buf
      ensures Image() == Paint(old(Image()), Run(x0, y0, x1, y1).Pixels(), on)
    {
      ghost var r := Run(x0, y0, x1, y1);
      ghost var was := Image();
      var x, y := x0, y0;
      var dx := Abs(x1 - x0);
      var sx := if x0 < x1 then 1 else -1;
      var dy := 0 - Abs(y1 - y0);
      var sy := if y0 < y1 then 1 else -1;
      var err := dx + dy;
      assert dx == r.Dx() && dy == 0 - r.Dy() && sx == r.Sx() && sy == r.Sy();
      ghost var k: nat := 0;
      FirstPixel(r);
      PaintNothing(was, on);
      while true
        invariant Reached(r, k, x, y, err)
        invariant Image() == Paint(was, r.Prefix(k), on)
        decreases r.N() - k
      {
        ghost var now := Image();
        Px(x, y, on);
        PrefixGrows(r, k);
        PaintMore(was, now, Image(), r.Prefix(k), {(x, y)}, r.Prefix(k + 1), on);
        LastPixel(r, k, x, y, err);
        if x == x1 && y == y1 {
          break;
        }
        NextPixel(r, k, x, y, err);
        x, y, err := Advance(x, y, err, dx, dy, sx, sy);
        k := k + 1;
      }
    }

    /** The two tests of the line loop's body. */
    method Advance(x0: int, y0: int, err0: int, dx: int, dy: int, sx: int, sy: int) returns (x: int, y: int, err: int)
      ensures (x, y, err) == Moved(x0, y0, err0, dx, dy, sx, sy)
    {
      x, y, err := x0, y0, err0;
      var e2 := 2 * err;
      if e2 >= dy {
        err := err + dy;
        x := x + sx;
      }
      if e2 <= dx {
        err := err + dx;
        y := y + sy;
      }
    }

    /** 5x7 text, six columns a character. */
    method Text(font: Font, x: int, y: int, s: string, on: bool)
      requires Valid()
      modifies buf
      ensures Image() == Paint(old(Image()), TextPoints(font, x, y, s), on)
    {
      ghost var was := Image();
      var cur := x;
      PaintNothing(was, on);
      for i := 0 to |s|
        invariant cur == x + 6 * i
        invariant Image() == Paint(was, TextPoints(font, x, y, s[..i]), on)
      {
        ghost var now, glyph := Image(), GlyphPoints(font(s[i]), cur, y, 5);
        DrawGlyph(font(s[i]), cur, y, on);
        TextGrows(font, x, y, s, i);
        PaintMore(was, now, Image(), TextPoints(font, x, y, s[..i]), glyph, TextPoints(font, x, y, s[..i + 1]), on);
        cur := cur + 6;
      }
      assert s[..|s|] == s;
    }

    /** The middle loop of `Text`: the five columns of one character. */
    method DrawGlyph(glyph: Glyph, x: int, y: int, on: bool)
      requires Valid()
      modifies buf
      ensures Image() == Paint(old(Image()), GlyphPoints(glyph, x, y, 5), on)
    {
      ghost var was := Image();
      PaintNothing(was, on);
      for cx := 0 to 5
        invariant Image() == Paint(was, GlyphPoints(glyph, x, y, cx), on)
      {
        ghost var now, column := Image(), ColumnPoints(glyph.Column(cx), x + cx, y, 7);
        Column(glyph.Column(cx), x + cx, y, on);
        GlyphGrows(glyph, x, y, cx);
        PaintMore(was, now, Image(), GlyphPoints(glyph, x, y, cx), column, GlyphPoints(glyph, x, y, cx + 1), on);
      }
    }

    /** The innermost loop of `Text`: the seven bits of one column. */
    method Column(col: bv8, x: int, y: int, on: bool)
      requires Valid()
      modifies buf
      ensures Image() == Paint(old(Image()), ColumnPoints(col, x, y, 7), on)
    {
      ghost var was := Image();
      PaintNothing(was, on);
      assert ColumnPoints(col, x, y, 0) == {};
      for cy := 0 to 7
        invariant Image() == Paint(was, ColumnPoints(col, x, y, cy), on)
      {
        ColumnGrows(col, x, y, cy);
        if Bit(col, cy) {
          Px(x, y + cy, on);
          PaintTwice(was, ColumnPoints(col, x, y, cy), {(x, y + cy)}, on);
        }
      }
    }
  }

  /** One more stroke of the same brush. */
  lemma PaintMore(was: set<Point>, now: set<Point>, next: set<Point>,
                  done: set<Point>, more: set<Point>, all: set<Point>, on: bool)
    requires now == Paint(was, done, on) && next == Paint(now, more, on) && all == done + more
    ensures next == Paint(was, all, on)
  {
    PaintTwice(was, done, more, on);
  }

  lemma ColumnGrows(col: bv8, x: int, y: int, h: nat)
    requires h < 7
    ensures ColumnPoints(col, x, y, h + 1)
            == ColumnPoints(col, x, y, h) + (if Bit(col, h) then {(x, y + h)} else {})
  {
  }

  lemma GlyphGrows(g: Glyph, x: int, y: int, w: nat)
    requires w < 5
    ensures GlyphPoints(g, x, y, w + 1) == GlyphPoints(g, x, y, w) + ColumnPoints(g.Column(w), x + w, y, 7)
  {
  }

  lemma TextGrows(font: Font, x: int, y: int, s: string, i: nat)
    requires i < |s|
    ensures TextPoints(font, x, y, s[..i + 1])
            == TextPoints(font, x, y, s[..i]) + GlyphPoints(font(s[i]), x + 6 * i, y, 5)
  {
    assert s[..i + 1][..i] == s[..i];
  }
}
