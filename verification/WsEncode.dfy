/** The ring's wire form: each colour bit is one byte on the bus, a wide pulse or a narrow one,
    most significant bit first, green before red before blue, and a latch of zero bytes behind. */
module WsEncode {
  import opened Arith

  type Byte = b: int | 0 <= b < 256

  const LATCH := 24
  const ONE: Byte := 0xE
  const ZERO: Byte := 0x8

  // ----- the receiver, written independently of the sender ----------------------------------

  /** How long the line stays high, in quarters of the bit's period: the lower four bits, first to
      last. */
  function HighTime(b: Byte): nat {
    if b / 8 % 2 == 0 then 0
    else if b / 4 % 2 == 0 then 1
    else if b / 2 % 2 == 0 then 2
    else if b % 2 == 0 then 3
    else 4
  }

  function BitIn(b: Byte): nat { if HighTime(b) > 2 then 1 else 0 }

  /** What a receiver shifts in: high for most of the period is a one. */
  function Received(pulses: seq<Byte>): nat {
    if pulses == [] then 0
    else 2 * Received(pulses[..|pulses| - 1]) + BitIn(pulses[|pulses| - 1])
  }

  /** One channel: eight pulses. */
  function Channel(wire: seq<Byte>, at: nat): nat
    requires at + 8 <= |wire|
  {
    Received(wire[at..at + 8])
  }

  /** The colours a strip shows: 24 pulses a light, green, red, blue, until the line goes low. */
  function Shown(wire: seq<Byte>): seq<nat>
    decreases |wire|
  {
    if |wire| < 24 || wire[0] == 0 then []
    else [Channel(wire, 8), Channel(wire, 0), Channel(wire, 16)] + Shown(wire[24..])
  }

  // ----- the encoder --------------------------------------------------------------------------

  /** Nothing but wide pulses and narrow ones. */
  predicate Pulses(pulses: seq<Byte>) {
    forall i :: 0 <= i < |pulses| ==> pulses[i] == 0xE || pulses[i] == 0x8
  }

  /** Eight pulses carrying a byte. */
  ghost predicate Carries(pulses: seq<Byte>, v: nat) {
    |pulses| == 8 && Pulses(pulses) && Received(pulses) == v
  }

  lemma ReceivedSnoc(pulses: seq<Byte>, b: Byte)
    ensures Received(pulses + [b]) == 2 * Received(pulses) + BitIn(b)
  {
    assert (pulses + [b])[..|pulses|] == pulses;
  }

  method WsByte(v: Byte, out: seq<Byte>) returns (out': seq<Byte>)
    ensures |out'| == |out| + 8 && out'[..|out|] == out
    ensures Carries(out'[|out|..], v)
  {
    out' := out;
    var bit := 8;
    ghost var sent: seq<Byte> := [];
    assert Pow2(8) == 256;
    while bit > 0
      invariant 0 <= bit <= 8
      invariant out' == out + sent && |sent| == 8 - bit
      invariant Pulses(sent)
      invariant Received(sent) == v / Pow2(bit)
    {
      bit := bit - 1;
      BitStep(v, bit);
      var pulse := if v / Pow2(bit) % 2 == 1 then ONE else ZERO;
      ReceivedSnoc(sent, pulse);
      sent := sent + [pulse];
      out' := out' + [pulse];
    }
    assert out'[|out|..] == sent;
  }

  lemma BitStep(v: nat, bit: nat)
    ensures v / Pow2(bit) == 2 * (v / Pow2(bit + 1)) + v / Pow2(bit) % 2
  {
    DivTwice(v, Pow2(bit));
  }

  lemma DivTwice(v: nat, d: nat)
    requires d > 0
    ensures v / d / 2 == v / (2 * d)
  {
    var h, s, r := v / d / 2, v / d % 2, v % d;
    assert v == d * (2 * h + s) + r;
    Regroup(d, h, s);
    if s == 1 {
      DivUnique(v, 2 * d, h, d + r);
    } else {
      DivUnique(v, 2 * d, h, r);
    }
  }

  lemma Regroup(d: nat, h: nat, s: nat)
    ensures d * (2 * h + s) == (2 * d) * h + d * s
  {
  }

  lemma Halved(v: nat, bit: nat, d: nat)
    requires d > 0 && bit < 2
    ensures (2 * v + bit) / (2 * d) == v / d
  {
    var q, r := v / d, v % d;
    assert 2 * v + bit == (2 * d) * q + (2 * r + bit);
    DivUnique(2 * v + bit, 2 * d, q, 2 * r + bit);
  }

  lemma TwoWidths()
    ensures BitIn(0xE) == 1 && BitIn(0x8) == 0
  {
  }

  lemma LastBit(pulses: seq<Byte>, b: Byte)
    requires pulses != [] && Pulses(pulses) && b == pulses[|pulses| - 1]
    ensures Received(pulses) == 2 * Received(pulses[..|pulses| - 1]) + if b == 0xE then 1 else 0
  {
    TwoWidths();
    if b == 0xE { } else { assert b == 0x8; }
  }

  lemma {:induction false} PulseAt(pulses: seq<Byte>, k: nat, v: nat)
    requires k < |pulses| && Pulses(pulses) && Received(pulses) == v
    ensures pulses[k] == if v / Pow2(|pulses| - 1 - k) % 2 == 1 then 0xE else 0x8
  {
    var n := |pulses| - 1;
    LastBit(pulses, pulses[n]);
    if k < n {
      PulseAt(pulses[..n], k, Received(pulses[..n]));
      Halved(Received(pulses[..n]), if pulses[n] == 0xE then 1 else 0, Pow2(n - 1 - k));
    }
  }

  lemma Powers()
    ensures Pow2(0) == 1 && Pow2(1) == 2 && Pow2(2) == 4 && Pow2(3) == 8
    ensures Pow2(4) == 16 && Pow2(5) == 32 && Pow2(6) == 64 && Pow2(7) == 128
  {
  }

  /** The eight bytes a value is sent as, most significant bit first: high for three quarters of
      the period for a one and for one quarter for a zero. */
  lemma BytesOnTheWire(pulses: seq<Byte>, v: nat, k: nat)
    requires Carries(pulses, v) && k < 8
    ensures pulses[k] == if v / [128, 64, 32, 16, 8, 4, 2, 1][k] % 2 == 1 then 0xE else 0x8
  {
    Powers();
    PulseAt(pulses, k, v);
  }

  lemma PinnedBytes(pulses: seq<Byte>)
    ensures Carries(pulses, 200) ==> pulses == [14, 14, 8, 8, 14, 8, 8, 8]
    ensures Carries(pulses, 3) ==> pulses == [8, 8, 8, 8, 8, 8, 14, 14]
  {
    if Carries(pulses, 200) {
      forall k: nat | k < 8 ensures pulses[k] == [14, 14, 8, 8, 14, 8, 8, 8][k] { BytesOnTheWire(pulses, 200, k); }
    }
    if Carries(pulses, 3) {
      forall k: nat | k < 8 ensures pulses[k] == [8, 8, 8, 8, 8, 8, 14, 14][k] { BytesOnTheWire(pulses, 3, k); }
    }
  }

  /** Light `i` of a frame is on the wire at 24·i: green, red, blue. */
  ghost predicate LightSent(wire: seq<Byte>, rgb: seq<Byte>, i: nat) {
    && 3 * i + 3 <= |rgb| && 24 * i + 24 <= |wire|
    && Carries(wire[24 * i..24 * i + 8], rgb[3 * i + 1])
    && Carries(wire[24 * i + 8..24 * i + 16], rgb[3 * i])
    && Carries(wire[24 * i + 16..24 * i + 24], rgb[3 * i + 2])
  }

  /** The wire form of a frame: whole lights only, then the latch. */
  ghost predicate Encodes(wire: seq<Byte>, rgb: seq<Byte>) {
    && |wire| == 24 * (|rgb| / 3) + LATCH
    && (forall i: nat :: i < |rgb| / 3 ==> LightSent(wire, rgb, i))
    && (forall k :: 24 * (|rgb| / 3) <= k < |wire| ==> wire[k] == 0)
  }

  method EncodeFrame(rgb: seq<Byte>) returns (buf: seq<Byte>)
    ensures Encodes(buf, rgb)
  {
    buf := [];
    var i := 0;
    while 3 * i + 3 <= |rgb|
      invariant 0 <= i && 3 * i <= |rgb| && |buf| == 24 * i
      invariant forall j: nat :: j < i ==> LightSent(buf, rgb, j)
    {
      ghost var was := buf;
      buf := WsByte(rgb[3 * i + 1], buf);
      ghost var green := buf;
      buf := WsByte(rgb[3 * i], buf);
      ghost var red := buf;
      buf := WsByte(rgb[3 * i + 2], buf);
      NextLight(was, green, red, buf, rgb, i);
      i := i + 1;
    }
    ghost var lights := buf;
    buf := buf + seq(LATCH, _ => 0);
    LatchKeeps(lights, buf, rgb);
  }

  lemma NextLight(was: seq<Byte>, green: seq<Byte>, red: seq<Byte>, blue: seq<Byte>, rgb: seq<Byte>, i: nat)
    requires |was| == 24 * i && 3 * i + 3 <= |rgb|
    requires |green| == |was| + 8 && green[..|was|] == was && Carries(green[|was|..], rgb[3 * i + 1])
    requires |red| == |green| + 8 && red[..|green|] == green && Carries(red[|green|..], rgb[3 * i])
    requires |blue| == |red| + 8 && blue[..|red|] == red && Carries(blue[|red|..], rgb[3 * i + 2])
    requires forall j: nat :: j < i ==> LightSent(was, rgb, j)
    ensures forall j: nat :: j < i + 1 ==> LightSent(blue, rgb, j)
  {
    assert blue[..|was|] == was && blue[..|green|] == green;
    forall j: nat | j < i ensures LightSent(blue, rgb, j) { SameLight(was, blue, rgb, j); }
    Kept(green, blue, |was|);
    Kept(red, blue, |green|);
    Kept(blue, blue, |red|);
  }

  /** What was sent stays where it was sent. */
  lemma Kept(a: seq<Byte>, b: seq<Byte>, at: nat)
    requires at + 8 == |a| <= |b| && b[..|a|] == a
    ensures b[at..at + 8] == a[at..]
  {
    assert b[at..at + 8] == b[..|a|][at..];
  }

  lemma SameLight(a: seq<Byte>, b: seq<Byte>, rgb: seq<Byte>, j: nat)
    requires LightSent(a, rgb, j) && |a| <= |b| && b[..|a|] == a
    ensures LightSent(b, rgb, j)
  {
    assert b[24 * j..24 * j + 8] == a[24 * j..24 * j + 8];
    assert b[24 * j + 8..24 * j + 16] == a[24 * j + 8..24 * j + 16];
    assert b[24 * j + 16..24 * j + 24] == a[24 * j + 16..24 * j + 24];
  }

  lemma LatchKeeps(lights: seq<Byte>, wire: seq<Byte>, rgb: seq<Byte>)
    requires |lights| == 24 * (|rgb| / 3) && forall j: nat :: j < |rgb| / 3 ==> LightSent(lights, rgb, j)
    requires |wire| == |lights| + LATCH && wire[..|lights|] == lights
    requires forall k :: |lights| <= k < |wire| ==> wire[k] == 0
    ensures Encodes(wire, rgb)
  {
    forall j: nat | j < |rgb| / 3 ensures LightSent(wire, rgb, j) { SameLight(lights, wire, rgb, j); }
  }

  // ----- what the strip makes of it --------------------------------------------------------

  /** The frame with whatever does not fill a light cut off. */
  function Whole(rgb: seq<Byte>): seq<Byte> { rgb[..3 * (|rgb| / 3)] }

  lemma FirstLightIsAPulse(wire: seq<Byte>, rgb: seq<Byte>, i: nat)
    requires LightSent(wire, rgb, i)
    ensures forall k :: 24 * i <= k < 24 * i + 24 ==> wire[k] != 0
  {
    forall k | 24 * i <= k < 24 * i + 24 ensures wire[k] != 0 {
      var at := 24 * i;
      if k < at + 8 { PulseInside(wire, at, k, rgb[3 * i + 1]); }
      else if k < at + 16 { PulseInside(wire, at + 8, k, rgb[3 * i]); }
      else { PulseInside(wire, at + 16, k, rgb[3 * i + 2]); }
    }
  }

  lemma PulseInside(wire: seq<Byte>, at: nat, k: nat, v: nat)
    requires at <= k < at + 8 <= |wire| && Carries(wire[at..at + 8], v)
    ensures wire[k] != 0
  {
    assert wire[k] == wire[at..at + 8][k - at];
  }

  lemma EncodesTail(wire: seq<Byte>, rgb: seq<Byte>)
    requires Encodes(wire, rgb) && |rgb| >= 3
    ensures Encodes(wire[24..], rgb[3..])
  {
    forall i: nat | i < |rgb[3..]| / 3 ensures LightSent(wire[24..], rgb[3..], i) {
      LightBehind(wire, rgb, i);
    }
  }

  lemma LightBehind(wire: seq<Byte>, rgb: seq<Byte>, i: nat)
    requires LightSent(wire, rgb, i + 1)
    ensures LightSent(wire[24..], rgb[3..], i)
  {
    TailPart(wire, 24 * i);
    TailPart(wire, 24 * i + 8);
    TailPart(wire, 24 * i + 16);
  }

  lemma TailPart(wire: seq<Byte>, at: nat)
    requires at + 32 <= |wire|
    ensures wire[24..][at..at + 8] == wire[at + 24..at + 32]
  {
  }

  /** The strip shows the frame, every whole light of it and nothing more. */
  lemma {:induction false} ShownIsSent(wire: seq<Byte>, rgb: seq<Byte>)
    requires Encodes(wire, rgb)
    ensures Shown(wire) == Whole(rgb)
    decreases |rgb|
  {
    if |rgb| >= 3 {
      assert LightSent(wire, rgb, 0);
      FirstLightIsAPulse(wire, rgb, 0);
      EncodesTail(wire, rgb);
      ShownIsSent(wire[24..], rgb[3..]);
      assert Whole(rgb) == [rgb[0], rgb[1], rgb[2]] + Whole(rgb[3..]);
    }
  }

  /** A frame can be got back from its wire form if and only if it is made of whole lights. */
  lemma InvertibleExactlyWhenWhole(wire: seq<Byte>, rgb: seq<Byte>)
    requires Encodes(wire, rgb)
    ensures Shown(wire) == rgb <==> |rgb| % 3 == 0
  {
    ShownIsSent(wire, rgb);
  }

  /** Two frames of any lengths share a wire form if and only if their whole lights are the same. */
  lemma SameWireSameLights(wire: seq<Byte>, wire': seq<Byte>, rgb: seq<Byte>, rgb': seq<Byte>)
    requires Encodes(wire, rgb) && Encodes(wire', rgb')
    ensures wire == wire' <==> Whole(rgb) == Whole(rgb')
  {
    ShownIsSent(wire, rgb);
    ShownIsSent(wire', rgb');
    if Whole(rgb) == Whole(rgb') { SameLightsSameWire(wire, wire', rgb, rgb'); }
  }

  lemma CarriesOne(a: seq<Byte>, b: seq<Byte>, v: nat)
    requires Carries(a, v) && Carries(b, v)
    ensures a == b
  {
    forall k: nat | k < 8 ensures a[k] == b[k] {
      BytesOnTheWire(a, v, k);
      BytesOnTheWire(b, v, k);
    }
  }

  lemma SameFirstLight(wire: seq<Byte>, wire': seq<Byte>, rgb: seq<Byte>, rgb': seq<Byte>)
    requires LightSent(wire, rgb, 0) && LightSent(wire', rgb', 0) && rgb[..3] == rgb'[..3]
    ensures wire[..24] == wire'[..24]
  {
    assert forall k :: 0 <= k < 3 ==> rgb[k] == rgb[..3][k] && rgb'[k] == rgb'[..3][k];
    CarriesOne(wire[0..8], wire'[0..8], rgb[1]);
    CarriesOne(wire[8..16], wire'[8..16], rgb[0]);
    CarriesOne(wire[16..24], wire'[16..24], rgb[2]);
    FirstParts(wire);
    FirstParts(wire');
  }

  lemma FirstParts(wire: seq<Byte>)
    requires |wire| >= 24
    ensures wire[..24] == wire[0..8] + wire[8..16] + wire[16..24]
  {
  }

  lemma {:induction false} SameLightsSameWire(wire: seq<Byte>, wire': seq<Byte>, rgb: seq<Byte>, rgb': seq<Byte>)
    requires Encodes(wire, rgb) && Encodes(wire', rgb') && Whole(rgb) == Whole(rgb')
    ensures wire == wire'
    decreases |rgb|
  {
    assert |Whole(rgb)| == 3 * (|rgb| / 3) && |Whole(rgb')| == 3 * (|rgb'| / 3);
    if |rgb| >= 3 {
      assert LightSent(wire, rgb, 0) && LightSent(wire', rgb', 0);
      assert forall k :: 0 <= k < 3 ==> rgb[k] == Whole(rgb)[k] && rgb'[k] == Whole(rgb')[k];
      SameFirstLight(wire, wire', rgb, rgb');
      EncodesTail(wire, rgb);
      EncodesTail(wire', rgb');
      assert Whole(rgb[3..]) == Whole(rgb)[3..] && Whole(rgb'[3..]) == Whole(rgb')[3..];
      SameLightsSameWire(wire[24..], wire'[24..], rgb[3..], rgb'[3..]);
      assert wire == wire[..24] + wire[24..] && wire' == wire'[..24] + wire'[24..];
    } else {
      assert forall k :: 0 <= k < LATCH ==> wire[k] == wire'[k];
    }
  }

  /** The latch is the only low stretch: the line is low at a byte exactly when it is one of the
      last 24. */
  lemma LowExactlyInTheLatch(wire: seq<Byte>, rgb: seq<Byte>, k: nat)
    requires Encodes(wire, rgb) && k < |wire|
    ensures wire[k] == 0 <==> k >= |wire| - 24
  {
    if k < |wire| - LATCH {
      assert LightSent(wire, rgb, k / 24);
      FirstLightIsAPulse(wire, rgb, k / 24);
    }
  }
}
