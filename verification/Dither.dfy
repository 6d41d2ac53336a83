/** Error diffusion in code space, and the colours that are fed to it. */
module Dither {
  const LEDS := 24
  const BYTES := 72

  datatype Rgb = Rgb(r: real, g: real, b: real) {
    function Channel(ch: nat): real
      requires ch < 3
    {
      if ch == 0 then r else if ch == 1 then g else b
    }
  }

  /** A cast to an integer truncates toward zero. */
  function Trunc(x: real): int { if x >= 0.0 then x.Floor else -((-x).Floor) }

  function Clamp(n: int): int { if n < 0 then 0 else if n > 255 then 255 else n }

  function Min(a: nat, b: nat): nat { if a < b then a else b }

  class Dither {
    const acc: array2<real>

    ghost predicate Valid() { acc.Length0 == LEDS && acc.Length1 == 3 }

    constructor ()
      ensures Valid() && fresh(acc)
      ensures forall i, ch :: 0 <= i < LEDS && 0 <= ch < 3 ==> acc[i, ch] == 0.0
    {
      acc := new real[LEDS, 3]((i, ch) => 0.0);
    }

    /** Add the frame, emit the whole part, keep the remainder; LEDs past the frame stay dark and
        keep their remainder. */
    method Render(frame: seq<Rgb>) returns (raw: seq<int>)
      requires Valid()
      modifies acc
      ensures |raw| == BYTES
      ensures forall i, ch :: 0 <= i < LEDS && 0 <= ch < 3 ==>
                Code(raw, i, ch) == if i < |frame| then Put(old(acc[i, ch]), frame[i].Channel(ch)) else 0
      ensures forall i, ch :: 0 <= i < LEDS && 0 <= ch < 3 ==>
                acc[i, ch] == if i < |frame| then Kept(old(acc[i, ch]), frame[i].Channel(ch)) else old(acc[i, ch])
    {
      raw := seq(BYTES, _ => 0);
      for i := 0 to Min(|frame|, LEDS)
        invariant |raw| == BYTES
        invariant forall j, c :: 0 <= j < LEDS && 0 <= c < 3 ==>
                    Code(raw, j, c) == if j < i then Put(old(acc[j, c]), frame[j].Channel(c)) else 0
        invariant forall j, c :: 0 <= j < LEDS && 0 <= c < 3 ==>
                    acc[j, c] == if j < i then Kept(old(acc[j, c]), frame[j].Channel(c)) else old(acc[j, c])
      {
        raw := Led(raw, i, frame[i]);
      }
    }

    /** The inner loop of `Render`: the three channels of one LED. */
    method Led(raw: seq<int>, i: nat, p: Rgb) returns (out: seq<int>)
      requires Valid() && |raw| == BYTES && i < LEDS
      modifies acc
      ensures |out| == BYTES
      ensures forall j, c :: 0 <= j < LEDS && 0 <= c < 3 ==>
                Code(out, j, c) == if j == i then Put(old(acc[j, c]), p.Channel(c)) else Code(raw, j, c)
      ensures forall j, c :: 0 <= j < LEDS && 0 <= c < 3 ==>
                acc[j, c] == if j == i then Kept(old(acc[j, c]), p.Channel(c)) else old(acc[j, c])
    {
      out := raw;
      for ch := 0 to 3
        invariant |out| == BYTES
        invariant forall j, c :: 0 <= j < LEDS && 0 <= c < 3 ==>
                    Code(out, j, c) == if j == i && c < ch then Put(old(acc[j, c]), p.Channel(c)) else Code(raw, j, c)
        invariant forall j, c :: 0 <= j < LEDS && 0 <= c < 3 ==>
                    acc[j, c] == if j == i && c < ch then Kept(old(acc[j, c]), p.Channel(c)) else old(acc[j, c])
      {
        acc[i, ch] := acc[i, ch] + p.Channel(ch);
        var emitted := Trunc(acc[i, ch]);
        acc[i, ch] := acc[i, ch] - emitted as real;
        ghost var was := out;
        out := out[i * 3 + ch := Clamp(emitted)];
        assert forall j, c :: 0 <= j < LEDS && 0 <= c < 3 && !(j == i && c == ch) ==> Code(out, j, c) == Code(was, j, c);
      }
    }
  }

  /** The byte of LED i, channel ch. */
  function Code(raw: seq<int>, i: int, ch: int): int
    requires |raw| == BYTES && 0 <= i < LEDS && 0 <= ch < 3
  {
    raw[i * 3 + ch]
  }

  /** Three bytes a light, red before green before blue. */
  lemma ThreeBytesALight(raw: seq<int>, i: nat, p: Rgb)
    requires |raw| == 72 && i < 24
    ensures [Code(raw, i, 0), Code(raw, i, 1), Code(raw, i, 2)] == raw[3 * i..3 * i + 3]
    ensures [p.Channel(0), p.Channel(1), p.Channel(2)] == [p.r, p.g, p.b]
  {
  }

  // ----- one channel over a whole run -----------------------------------------------------

  /** What one channel keeps and puts out for one value. */
  function Kept(acc: real, val: real): real { acc + val - Trunc(acc + val) as real }

  function Put(acc: real, val: real): int { Clamp(Trunc(acc + val)) }

  /** The remainder after a run of values, and the codes the run put out. */
  function Carry(vals: seq<real>): real {
    if vals == [] then 0.0 else Kept(Carry(vals[..|vals| - 1]), vals[|vals| - 1])
  }

  function Codes(vals: seq<real>): seq<int> {
    if vals == [] then [] else
    Codes(vals[..|vals| - 1]) + [Put(Carry(vals[..|vals| - 1]), vals[|vals| - 1])]
  }

  /** The codes before the clamp. */
  function Unclamped(vals: seq<real>): seq<int> {
    if vals == [] then [] else
    Unclamped(vals[..|vals| - 1]) + [Trunc(Carry(vals[..|vals| - 1]) + vals[|vals| - 1])]
  }

  function Sum(vals: seq<real>): real {
    if vals == [] then 0.0 else Sum(vals[..|vals| - 1]) + vals[|vals| - 1]
  }

  function Total(codes: seq<int>): int {
    if codes == [] then 0 else Total(codes[..|codes| - 1]) + codes[|codes| - 1]
  }

  predicate InRange(val: real) { 0.0 <= val <= 255.0 }

  /** Light is conserved: over any run of values in [0, 255] on one instance the remainder stays
      in [0, 1), the clamp never bites, and codes plus remainder are exactly what went in. */
  lemma {:induction false} LightIsConserved(vals: seq<real>)
    requires forall v :: v in vals ==> InRange(v)
    ensures 0.0 <= Carry(vals) < 1.0
    ensures Codes(vals) == Unclamped(vals)
    ensures Total(Codes(vals)) as real + Carry(vals) == Sum(vals)
  {
    if vals != [] {
      var n := |vals| - 1;
      LightIsConserved(vals[..n]);
      assert vals[n] in vals;
      OneValue(Carry(vals[..n]), vals[n]);
      TotalGrows(Codes(vals[..n]), Put(Carry(vals[..n]), vals[n]));
    }
  }

  lemma OneValue(acc: real, val: real)
    requires 0.0 <= acc < 1.0 && InRange(val)
    ensures 0.0 <= Kept(acc, val) < 1.0 && Put(acc, val) == Trunc(acc + val)
    ensures Put(acc, val) as real + Kept(acc, val) == acc + val
  {
    assert 0 <= (acc + val).Floor <= 255;
  }

  lemma TotalGrows(codes: seq<int>, code: int)
    ensures Total(codes + [code]) == Total(codes) + code
  {
    assert (codes + [code])[..|codes|] == codes;
  }

  /** So at every moment the light put out is less than one code short of the light asked for. */
  lemma NeverACodeBehind(vals: seq<real>)
    requires forall v :: v in vals ==> InRange(v)
    ensures Sum(vals) - 1.0 < Total(Codes(vals)) as real <= Sum(vals)
  {
    LightIsConserved(vals);
  }

  // ----- the colours ---------------------------------------------------------------------

  /** The remainder of a division truncated toward zero, which has the sign of x. */
  function Rem(x: real, m: real): real
    requires m > 0.0
  {
    x - m * Trunc(x / m) as real
  }

  function Abs(x: real): real { if x < 0.0 then -x else x }

  /** The second-largest channel as a fraction of the largest. */
  function Slope(h: real): real { 1.0 - Abs(Rem(h / 60.0, 2.0) - 1.0) }

  function Sector(h: real, c: real, x: real, m: real): Rgb {
    var (r, g, b) :=
      if h < 60.0 then (c, x, 0.0)
      else if h < 120.0 then (x, c, 0.0)
      else if h < 180.0 then (0.0, c, x)
      else if h < 240.0 then (0.0, x, c)
      else if h < 300.0 then (x, 0.0, c)
      else (c, 0.0, x);
    Rgb((r + m) * 255.0, (g + m) * 255.0, (b + m) * 255.0)
  }

  function Hsv(h: real, s: real, v: real): Rgb {
    var c := v * s;
    Sector(h, c, c * Slope(h), v - c)
  }

  function Max3(p: Rgb): real {
    if p.r >= p.g && p.r >= p.b then p.r else if p.g >= p.b then p.g else p.b
  }

  predicate Unit(x: real) { 0.0 <= x <= 1.0 }

  predicate Displayable(p: Rgb) { InRange(p.r) && InRange(p.g) && InRange(p.b) }

  lemma RemBounds(x: real)
    ensures x >= 0.0 ==> 0.0 <= Rem(x, 2.0) < 2.0
    ensures x < 0.0 ==> -2.0 < Rem(x, 2.0) <= 0.0
  {
  }

  lemma SlopeBounds(h: real)
    ensures h >= 0.0 ==> 0.0 <= Slope(h) <= 1.0
    ensures h < 0.0 ==> Slope(h) == Rem(h / 60.0, 2.0) <= 0.0
  {
    RemBounds(h / 60.0);
  }

  lemma ScaleDown(c: real, x: real)
    requires c >= 0.0 && x <= 1.0
    ensures c * x <= c && (x >= 0.0 ==> c * x >= 0.0) && (x <= 0.0 ==> c * x <= 0.0)
  {
  }

  lemma SectorBounds(h: real, c: real, x: real, m: real, v: real)
    requires 0.0 <= c && x <= c && 0.0 <= m && c + m == v <= 1.0
    ensures Max3(Sector(h, c, x, m)) == v * 255.0
    ensures Displayable(Sector(h, c, x, m)) <==> x + m >= 0.0
  {
  }

  lemma HsvIsSector(h: real, s: real, v: real, c: real, x: real)
    requires c == v * s && x == c * Slope(h)
    ensures Hsv(h, s, v) == Sector(h, c, x, v - c)
  {
  }

  lemma HsvParts(h: real, s: real, v: real, c: real, x: real)
    requires Unit(s) && Unit(v) && c == v * s && x == c * Slope(h)
    ensures 0.0 <= c <= v && x <= c && (h >= 0.0 ==> x >= 0.0)
  {
    ScaleDown(v, s);
    SlopeBounds(h);
    Fraction(c, Slope(h), x);
  }

  lemma Fraction(c: real, slope: real, x: real)
    requires c >= 0.0 && slope <= 1.0 && x == c * slope
    ensures x <= c && (slope >= 0.0 ==> x >= 0.0)
  {
    ScaleDown(c, slope);
  }

  /** The brightest channel is 255 * v at every hue. */
  lemma HsvMax(h: real, s: real, v: real)
    requires Unit(s) && Unit(v)
    ensures Max3(Hsv(h, s, v)) == v * 255.0
  {
    var c, x :| c == v * s && x == c * Slope(h);
    HsvIsSector(h, s, v, c, x);
    HsvParts(h, s, v, c, x);
    SectorBounds(h, c, x, v - c, v);
  }

  // The hexcone, each channel by its own distance round the circle: red from 5 sixths before the
  // hue, green from 3 and blue from 1.

  /** n sixths on from y, round the circle of six. */
  function Round6(n: int, y: real): real
    requires 0 <= n < 6
  {
    if n as real + y >= 6.0 then n as real + y - 6.0 else n as real + y
  }

  /** How much of the saturation a channel loses there: nothing outside (0, 4), all of it in [1, 3]. */
  function Loss(k: real): real {
    if k <= 0.0 || k >= 4.0 then 0.0 else if k < 1.0 then k else if k > 3.0 then 4.0 - k else 1.0
  }

  function HexChannel(n: int, y: real, s: real, v: real): real
    requires 0 <= n < 6
  {
    (v - v * s * Loss(Round6(n, y))) * 255.0
  }

  lemma SlopeIn(h: real)
    requires 0.0 <= h < 360.0
    ensures var y := h / 60.0;
            Slope(h) == if y < 1.0 then y else if y < 2.0 then 2.0 - y else if y < 3.0 then y - 2.0
                        else if y < 4.0 then 4.0 - y else if y < 5.0 then y - 4.0 else 6.0 - y
  {
    var y := h / 60.0;
    var half := y / 2.0;
    assert 0.0 <= half < 3.0;
    assert Trunc(half) == if y < 2.0 then 0 else if y < 4.0 then 1 else 2;
  }

  lemma HexChannelIs(n: int, y: real, s: real, v: real, c: real, x: real, slope: real)
    requires 0 <= n < 6 && c == v * s && x == c * slope
    ensures Loss(Round6(n, y)) == 0.0 ==> HexChannel(n, y, s, v) == v * 255.0
    ensures Loss(Round6(n, y)) == 1.0 ==> HexChannel(n, y, s, v) == (v - c) * 255.0
    ensures Loss(Round6(n, y)) == 1.0 - slope ==> HexChannel(n, y, s, v) == (x + (v - c)) * 255.0
  {
    Kept3(c, x, v, slope, Loss(Round6(n, y)));
  }

  lemma Kept3(c: real, x: real, v: real, slope: real, loss: real)
    requires x == c * slope
    ensures loss == 0.0 ==> v - c * loss == v
    ensures loss == 1.0 ==> v - c * loss == v - c
    ensures loss == 1.0 - slope ==> v - c * loss == x + (v - c)
  {
  }

  /** The sector's channels from what each channel loses. */
  lemma SectorIsHex(h: real, c: real, x: real, v: real, r: real, g: real, b: real)
    requires 0.0 <= h < 360.0
    requires var full, part, none := v * 255.0, (x + (v - c)) * 255.0, (v - c) * 255.0;
             (r, g, b) == if h < 60.0 then (full, part, none) else if h < 120.0 then (part, full, none)
                          else if h < 180.0 then (none, full, part) else if h < 240.0 then (none, part, full)
                          else if h < 300.0 then (part, none, full) else (full, none, part)
    ensures Sector(h, c, x, v - c) == Rgb(r, g, b)
  {
  }

  /** At every hue of the circle the colour is the hexcone's. */
  lemma HsvIsTheHexcone(h: real, s: real, v: real)
    requires 0.0 <= h < 360.0
    ensures var y := h / 60.0;
            Hsv(h, s, v) == Rgb(HexChannel(5, y, s, v), HexChannel(3, y, s, v), HexChannel(1, y, s, v))
  {
    var c, x :| c == v * s && x == c * Slope(h);
    HsvIsSector(h, s, v, c, x);
    HexSector(h, s, v, c, x);
  }

  lemma HexSector(h: real, s: real, v: real, c: real, x: real)
    requires 0.0 <= h < 360.0 && c == v * s && x == c * Slope(h)
    ensures var y := h / 60.0;
            Sector(h, c, x, v - c) == Rgb(HexChannel(5, y, s, v), HexChannel(3, y, s, v), HexChannel(1, y, s, v))
  {
    HexChannels(h, h / 60.0, s, v, c, x, Slope(h));
  }

  lemma HexChannels(h: real, y: real, s: real, v: real, c: real, x: real, slope: real)
    requires 0.0 <= h < 360.0 && y == h / 60.0 && slope == Slope(h) && c == v * s && x == c * slope
    ensures Sector(h, c, x, v - c) == Rgb(HexChannel(5, y, s, v), HexChannel(3, y, s, v), HexChannel(1, y, s, v))
  {
    HexChannelIs(5, y, s, v, c, x, slope);
    HexChannelIs(3, y, s, v, c, x, slope);
    HexChannelIs(1, y, s, v, c, x, slope);
    HexByLoss(h, y, c, x, v, slope, HexChannel(5, y, s, v), HexChannel(3, y, s, v), HexChannel(1, y, s, v));
  }

  predicate ByLoss(loss: real, slope: real, c: real, x: real, v: real, channel: real) {
    && (loss == 0.0 ==> channel == v * 255.0) && (loss == 1.0 ==> channel == (v - c) * 255.0)
    && (loss == 1.0 - slope ==> channel == (x + (v - c)) * 255.0)
  }

  lemma HexByLoss(h: real, y: real, c: real, x: real, v: real, slope: real, r: real, g: real, b: real)
    requires 0.0 <= h < 360.0 && y == h / 60.0 && slope == Slope(h)
    requires ByLoss(Loss(Round6(5, y)), slope, c, x, v, r) && ByLoss(Loss(Round6(3, y)), slope, c, x, v, g)
    requires ByLoss(Loss(Round6(1, y)), slope, c, x, v, b)
    ensures Sector(h, c, x, v - c) == Rgb(r, g, b)
  {
    SlopeIn(h);
    HexSectors(y, slope);
    SectorIsHex(h, c, x, v, r, g, b);
  }

  /** In each sixth of the circle one channel keeps all, one loses all, and one what the slope
      leaves it. */
  lemma HexSectors(y: real, slope: real)
    requires 0.0 <= y < 6.0
    requires slope == if y < 1.0 then y else if y < 2.0 then 2.0 - y else if y < 3.0 then y - 2.0
                      else if y < 4.0 then 4.0 - y else if y < 5.0 then y - 4.0 else 6.0 - y
    ensures var r, g, b := Loss(Round6(5, y)), Loss(Round6(3, y)), Loss(Round6(1, y));
            (r, g, b) == if y < 1.0 then (0.0, 1.0 - slope, 1.0)
                         else if y < 2.0 then (1.0 - slope, 0.0, 1.0)
                         else if y < 3.0 then (1.0, 0.0, 1.0 - slope)
                         else if y < 4.0 then (1.0, 1.0 - slope, 0.0)
                         else if y < 5.0 then (1.0 - slope, 1.0, 0.0)
                         else (0.0, 1.0, 1.0 - slope)
  {
  }

  lemma ByTheSunkenChannel(h: real, s: real, v: real)
    requires Unit(s) && Unit(v)
    ensures Displayable(Hsv(h, s, v)) <==> h >= 0.0 || v * s * Slope(h) + (v - v * s) >= 0.0
  {
    var c, x :| c == v * s && x == c * Slope(h);
    HsvIsSector(h, s, v, c, x);
    HsvParts(h, s, v, c, x);
    SectorBounds(h, c, x, v - c, v);
  }

  /** A colour is displayable at every hue from 0 up; at a negative hue, exactly when it is black
      or pale enough for how far the hue sinks one channel. */
  lemma HsvDisplayable(h: real, s: real, v: real)
    requires Unit(s) && Unit(v)
    ensures Displayable(Hsv(h, s, v)) <==> h >= 0.0 || v == 0.0 || s * (1.0 - Slope(h)) <= 1.0
  {
    ByTheSunkenChannel(h, s, v);
    Sunken(s, v, Slope(h));
  }

  /** The sunken channel, factored. */
  lemma Sunken(s: real, v: real, slope: real)
    requires v >= 0.0
    ensures v * s * slope + (v - v * s) >= 0.0 <==> v == 0.0 || s * (1.0 - slope) <= 1.0
  {
    Factored(v, s, slope);
    if v > 0.0 { SignOf(v, 1.0 - s * (1.0 - slope)); }
  }

  lemma Factored(v: real, s: real, slope: real)
    ensures (v * s) * slope + (v - v * s) == v * (1.0 - s * (1.0 - slope))
  {
    assert s * (1.0 - slope) == s - s * slope;
    assert v * (s * slope) == (v * s) * slope;
    assert v * (1.0 - (s - s * slope)) == v - v * s + v * (s * slope);
  }

  lemma SignOf(v: real, w: real)
    requires v > 0.0
    ensures v * w >= 0.0 <==> w >= 0.0
  {
  }

  /** Thirty degrees below 0 one channel is below black. */
  lemma ANegativeHueSinks()
    ensures Hsv(-30.0, 1.0, 1.0) == Rgb(255.0, -127.5, 0.0) && !Displayable(Hsv(-30.0, 1.0, 1.0))
  {
    assert Slope(-30.0) == -0.5;
  }

  /** Keeping a breath's scalar and applying the hue later gives the very level the reference
      gets by sampling a coloured frame and taking its brightest channel. */
  lemma ScalarIsTheFramesLevel(level: real, builtHue: real, hue: real)
    requires InRange(level)
    ensures Max3(Hsv(builtHue, 1.0, level / 255.0)) / 255.0 == level / 255.0
    ensures Hsv(hue, 1.0, Max3(Hsv(builtHue, 1.0, level / 255.0)) / 255.0) == Hsv(hue, 1.0, level / 255.0)
    ensures Max3(Hsv(hue, 1.0, level / 255.0)) == level
  {
    HsvMax(builtHue, 1.0, level / 255.0);
    HsvMax(hue, 1.0, level / 255.0);
  }
}
