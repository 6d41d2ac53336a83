/** The humidity sensor's frame: widths of high pulses, eight to a byte, five bytes to a frame,
    and no mark saying where the frame begins.  Widths are integers (nanoseconds) and readings
    reals. */
module Dht {
  import opened Arith
  import opened Options

  const ONE_NS := 60_000
  const FRAME := 40

  datatype Reading = Reading(tempC: real, humPct: real)

  datatype Frame = Frame(hum: int, humTenths: int, temp: int, tempTenths: int, sum: int)

  function Bit(width: int): int { if width > ONE_NS then 1 else 0 }

  predicate AllBits(bits: seq<int>) { forall i :: 0 <= i < |bits| ==> 0 <= bits[i] <= 1 }

  function Bits(widths: seq<int>): seq<int> { seq(|widths|, i requires 0 <= i < |widths| => Bit(widths[i])) }

  /** Most significant bit first. */
  function Value(bits: seq<int>): int {
    if bits == [] then 0 else 2 * Value(bits[..|bits| - 1]) + bits[|bits| - 1]
  }

  function ByteAt(pulses: seq<int>, at: nat): int
    requires at + 8 <= |pulses|
  {
    Value(Bits(pulses[at..at + 8]))
  }

  function FrameAt(pulses: seq<int>, s: nat): Frame
    requires s + FRAME <= |pulses|
  {
    Frame(ByteAt(pulses, s), ByteAt(pulses, s + 8), ByteAt(pulses, s + 16), ByteAt(pulses, s + 24),
          ByteAt(pulses, s + 32))
  }

  function ReadingOf(f: Frame): Reading {
    Reading(f.temp as real + f.tempTenths as real / 10.0, f.hum as real + f.humTenths as real / 10.0)
  }

  predicate ChecksumHolds(f: Frame) { (f.hum + f.humTenths + f.temp + f.tempTenths) % 256 == f.sum }

  /** The checksum first, then the range of the reading. */
  predicate Sound(f: Frame) {
    && ChecksumHolds(f)
    && -40.0 <= ReadingOf(f).tempC <= 80.0 && 0.0 <= ReadingOf(f).humPct <= 100.0
  }

  predicate SoundAt(pulses: seq<int>, s: nat) { s + FRAME <= |pulses| && Sound(FrameAt(pulses, s)) }

  /** `s` is the least sound alignment. */
  ghost predicate Least(pulses: seq<int>, s: nat) {
    SoundAt(pulses, s) && forall t: nat :: t < s ==> !SoundAt(pulses, t)
  }

  /** What a train of pulses says: the reading of its least sound alignment, or nothing. */
  ghost predicate Says(pulses: seq<int>, r: Option<Reading>) {
    match r
    case None => forall s: nat :: !SoundAt(pulses, s)
    case Some(reading) =>
      exists s: nat :: Least(pulses, s) && reading == ReadingOf(FrameAt(pulses, s))
  }

  // ----- the decoder --------------------------------------------------------------------------

  method ReadByte(widths: seq<int>) returns (byte: int)
    requires |widths| == 8
    ensures byte == Value(Bits(widths)) && 0 <= byte < 256
  {
    var v := 0;
    var i := 0;
    while i < 8
      invariant 0 <= i <= 8
      invariant v == Value(Bits(widths[..i])) && 0 <= v
      invariant v < Pow2(i)
    {
      assert Bits(widths[..i + 1])[..i] == Bits(widths[..i]);
      v := v * 2 + Bit(widths[i]);
      i := i + 1;
    }
    assert widths[..8] == widths && Pow2(8) == 256;
    byte := v % 256;
  }

  method ReadFrame(pulses: seq<int>, s: nat) returns (f: Frame)
    requires s + FRAME <= |pulses|
    ensures f == FrameAt(pulses, s)
  {
    var win := pulses[s..s + FRAME];
    var b := new int[5];
    var i := 0;
    while i < 5
      invariant 0 <= i <= 5
      invariant forall k :: 0 <= k < i ==> b[k] == ByteAt(pulses, s + 8 * k)
    {
      SliceOfSlice(pulses, s, i * 8);
      b[i] := ReadByte(win[i * 8..(i + 1) * 8]);
      i := i + 1;
    }
    assert b[0] == ByteAt(pulses, s + 8 * 0);
    f := Frame(b[0], b[1], b[2], b[3], b[4]);
  }

  lemma SliceOfSlice(pulses: seq<int>, s: nat, k: nat)
    requires s + FRAME <= |pulses| && k + 8 <= FRAME
    ensures pulses[s..s + FRAME][k..k + 8] == pulses[s + k..s + k + 8]
  {
    var a, b := pulses[s..s + FRAME][k..k + 8], pulses[s + k..s + k + 8];
    forall i | 0 <= i < 8 ensures a[i] == b[i] {
      assert a[i] == pulses[s..s + FRAME][k + i];
    }
    assert a == b;
  }

  /** The least sound alignment's reading, and None only when no alignment is sound. */
  method Decode(pulses: seq<int>) returns (r: Option<Reading>)
    ensures Says(pulses, r)
  {
    if |pulses| < FRAME {
      return None;
    }
    var s := 0;
    while s <= |pulses| - FRAME
      invariant 0 <= s <= |pulses| - FRAME + 1
      invariant forall t: nat :: t < s ==> !SoundAt(pulses, t)
    {
      var f := ReadFrame(pulses, s);
      if ChecksumHolds(f) {
        var reading := ReadingOf(f);
        if -40.0 <= reading.tempC <= 80.0 && 0.0 <= reading.humPct <= 100.0 {
          assert Least(pulses, s);
          return Some(reading);
        }
      }
      s := s + 1;
    }
    return None;
  }

  /** A train says one thing. */
  lemma SaysOneThing(pulses: seq<int>, r: Option<Reading>, r': Option<Reading>)
    requires Says(pulses, r) && Says(pulses, r')
    ensures r == r'
  {
    if r.Some? && r'.Some? {
      var s: nat :| Least(pulses, s) && r.value == ReadingOf(FrameAt(pulses, s));
      var s': nat :| Least(pulses, s') && r'.value == ReadingOf(FrameAt(pulses, s'));
      assert !(s < s') && !(s' < s);
    }
  }

  // ----- bits and bytes -----------------------------------------------------------------------

  function BitsOf(v: nat, n: nat): (bits: seq<int>)
    ensures |bits| == n
    ensures AllBits(bits)
  {
    if n == 0 then [] else BitsOf(v / 2, n - 1) + [v % 2]
  }

  lemma {:induction false} ValueOfBits(v: nat, n: nat)
    requires v < Pow2(n)
    ensures Value(BitsOf(v, n)) == v
  {
    if n > 0 {
      ValueOfBits(v / 2, n - 1);
      assert BitsOf(v, n)[..n - 1] == BitsOf(v / 2, n - 1);
    }
  }

  lemma {:induction false} ValueInRange(bits: seq<int>)
    requires AllBits(bits)
    ensures 0 <= Value(bits) < Pow2(|bits|)
  {
    if bits != [] { ValueInRange(bits[..|bits| - 1]); }
  }

  lemma {:induction false} ValueIsInjective(a: seq<int>, b: seq<int>)
    requires |a| == |b| && Value(a) == Value(b)
    requires AllBits(a) && AllBits(b)
    ensures a == b
  {
    if a != [] {
      var n := |a| - 1;
      ValueIsInjective(a[..n], b[..n]);
      assert a[n] == b[n] && a[..n] == b[..n];
    }
  }

  /** A bit put in front of a number's bits. */
  lemma {:induction false} LeadingBit(b: nat, v: nat, n: nat)
    requires b < 2 && v < Pow2(n)
    ensures BitsOf(b * Pow2(n) + v, n + 1) == [b] + BitsOf(v, n)
  {
    if n == 0 {
      assert BitsOf(b, 1) == [b] by { assert BitsOf(b / 2, 0) == []; }
    } else {
      var half := b * Pow2(n - 1);
      assert b * Pow2(n) == 2 * half;
      LeadingBit(b, v / 2, n - 1);
      assert (2 * half + v) / 2 == half + v / 2 && (2 * half + v) % 2 == v % 2;
      assert BitsOf(b * Pow2(n) + v, n + 1) == ([b] + BitsOf(v / 2, n - 1)) + [v % 2];
    }
  }

  /** A leading one is worth half the range. */
  lemma {:induction false} LeadingOne(bits: seq<int>)
    requires bits != [] && bits[0] == 1 && AllBits(bits)
    ensures Value(bits) >= Pow2(|bits| - 1)
  {
    if |bits| > 1 {
      var n := |bits| - 1;
      LeadingOne(bits[..n]);
    } else {
      assert bits[..0] == [];
    }
  }

  // ----- round trip ---------------------------------------------------------------------------

  predicate Bytes(f: Frame) {
    && 0 <= f.hum < 256 && 0 <= f.humTenths < 256 && 0 <= f.temp < 256 && 0 <= f.tempTenths < 256
    && 0 <= f.sum < 256
  }

  function BitsOfBytes(bytes: seq<nat>): (bits: seq<int>)
    ensures |bits| == 8 * |bytes| && AllBits(bits)
  {
    if bytes == [] then [] else BitsOf(bytes[0], 8) + BitsOfBytes(bytes[1..])
  }

  lemma {:induction false} ByteOfBytes(bytes: seq<nat>, k: nat)
    requires k < |bytes|
    ensures BitsOfBytes(bytes)[8 * k..8 * k + 8] == BitsOf(bytes[k], 8)
  {
    var head, rest := BitsOf(bytes[0], 8), BitsOfBytes(bytes[1..]);
    if k == 0 {
      assert (head + rest)[0..8] == head;
    } else {
      ByteOfBytes(bytes[1..], k - 1);
      assert (head + rest)[8 * k..8 * k + 8] == rest[8 * (k - 1)..8 * (k - 1) + 8];
    }
  }

  function Five(f: Frame): (bytes: seq<nat>)
    requires Bytes(f)
    ensures |bytes| == 5
  {
    [f.hum, f.humTenths, f.temp, f.tempTenths, f.sum]
  }

  function FrameBits(f: Frame): (bits: seq<int>)
    requires Bytes(f)
    ensures |bits| == FRAME && AllBits(bits)
  {
    BitsOfBytes(Five(f))
  }

  /** The widths from `s` on carry the frame: any widths, on the right side of the threshold. */
  predicate Carries(pulses: seq<int>, s: nat, f: Frame) {
    Bytes(f) && s + FRAME <= |pulses| && Bits(pulses[s..s + FRAME]) == FrameBits(f)
  }

  lemma ByteCarried(pulses: seq<int>, at: nat, v: nat)
    requires at + 8 <= |pulses| && v < 256 && Bits(pulses[at..at + 8]) == BitsOf(v, 8)
    ensures ByteAt(pulses, at) == v
  {
    assert Pow2(8) == 256;
    ValueOfBits(v, 8);
  }

  lemma PartOfBits(pulses: seq<int>, s: nat, k: nat)
    requires s + FRAME <= |pulses| && k + 8 <= FRAME
    ensures Bits(pulses[s + k..s + k + 8]) == Bits(pulses[s..s + FRAME])[k..k + 8]
  {
    var a, b := Bits(pulses[s + k..s + k + 8]), Bits(pulses[s..s + FRAME])[k..k + 8];
    forall i | 0 <= i < 8 ensures a[i] == b[i] {
      assert a[i] == Bit(pulses[s + k + i]) && b[i] == Bit(pulses[s..s + FRAME][k + i]);
    }
    assert a == b;
  }

  lemma CarriedIsRead(pulses: seq<int>, s: nat, f: Frame)
    requires Carries(pulses, s, f)
    ensures FrameAt(pulses, s) == f
  {
    ByteIsRead(pulses, s, f, 0);
    ByteIsRead(pulses, s, f, 1);
    ByteIsRead(pulses, s, f, 2);
    ByteIsRead(pulses, s, f, 3);
    ByteIsRead(pulses, s, f, 4);
  }

  lemma ByteIsRead(pulses: seq<int>, s: nat, f: Frame, k: nat)
    requires Carries(pulses, s, f) && k < 5
    ensures ByteAt(pulses, s + 8 * k) == Five(f)[k]
  {
    PartOfBits(pulses, s, 8 * k);
    ByteOfBytes(Five(f), k);
    ByteCarried(pulses, s + 8 * k, Five(f)[k]);
  }

  /** A frame sent as forty widths is read back if and only if its checksum and range are right. */
  lemma SentIsRead(pulses: seq<int>, f: Frame)
    requires |pulses| == FRAME && Carries(pulses, 0, f)
    ensures Says(pulses, Some(ReadingOf(f))) <==> Sound(f)
    ensures Says(pulses, None) <==> !Sound(f)
  {
    CarriedIsRead(pulses, 0, f);
    assert Least(pulses, 0) <==> Sound(f);
  }

  /** Frame first, and any pulses behind it. */
  lemma FrameInFrontIsRead(pulses: seq<int>, f: Frame)
    requires Carries(pulses, 0, f) && Sound(f)
    ensures Says(pulses, Some(ReadingOf(f)))
  {
    CarriedIsRead(pulses, 0, f);
    assert Least(pulses, 0);
  }

  // ----- by integers alone ------------------------------------------------------------------

  /** Forty widths with these five bytes on them, the high bit of each first: over 60 microseconds
      for a one. */
  predicate Sends(pulses: seq<int>, bytes: seq<nat>) {
    && |pulses| == 40 && |bytes| == 5 && (forall k :: 0 <= k < 5 ==> bytes[k] < 256)
    && forall i: nat :: i < 40 ==> (pulses[i] > 60_000 <==> (bytes[i / 8] / Pow2(7 - i % 8)) % 2 == 1)
  }

  lemma HalfFirst(v: nat, d: nat)
    requires d > 0
    ensures (v / 2) / d == v / (2 * d)
  {
    var q, r := v / 2, v % 2;
    var h, s := q / d, q % d;
    assert q == d * h + s;
    assert (2 * d) * h == 2 * (d * h);
    DivUnique(v, 2 * d, h, 2 * s + r);
  }

  lemma {:induction false} BitAt(v: nat, n: nat, k: nat)
    requires k < n
    ensures BitsOf(v, n)[k] == (v / Pow2(n - 1 - k)) % 2
  {
    if k < n - 1 {
      BitAt(v / 2, n - 1, k);
      HalfFirst(v, Pow2(n - 2 - k));
    } else {
      assert Pow2(0) == 1;
    }
  }

  lemma OneBitCarried(pulses: seq<int>, f: Frame, i: nat)
    requires Bytes(f) && Sends(pulses, Five(f)) && i < 40
    ensures Bit(pulses[i]) == FrameBits(f)[i]
  {
    var bits, k, j := FrameBits(f), i / 8, i % 8;
    ByteOfBytes(Five(f), k);
    assert bits[8 * k + j] == bits[8 * k..8 * k + 8][j];
    BitAt(Five(f)[k], 8, j);
  }

  lemma SentIsCarried(pulses: seq<int>, f: Frame)
    requires Bytes(f) && Sends(pulses, Five(f))
    ensures Carries(pulses, 0, f)
  {
    var bits, sent := Bits(pulses), FrameBits(f);
    forall i: nat | i < 40 ensures bits[i] == sent[i] { OneBitCarried(pulses, f, i); }
    assert bits == sent;
    assert pulses[0..FRAME] == pulses;
  }

  lemma Tenths(whole: nat, tenths: nat, x: real)
    requires x == whole as real + tenths as real / 10.0
    ensures 10.0 * x == (10 * whole + tenths) as real
  {
  }

  lemma SoundByIntegers(f: Frame)
    requires Bytes(f)
    ensures Sound(f) <==>
            && (f.hum + f.humTenths + f.temp + f.tempTenths) % 256 == f.sum
            && 10 * f.temp + f.tempTenths <= 800 && 10 * f.hum + f.humTenths <= 1000
    ensures 10.0 * ReadingOf(f).tempC == (10 * f.temp + f.tempTenths) as real
    ensures 10.0 * ReadingOf(f).humPct == (10 * f.hum + f.humTenths) as real
  {
    Tenths(f.temp, f.tempTenths, ReadingOf(f).tempC);
    Tenths(f.hum, f.humTenths, ReadingOf(f).humPct);
  }

  /** Forty widths are heard if and only if the sum of the first four bytes is the fifth, modulo
      256, the temperature is at most 80.0 and the humidity at most 100.0, in tenths; and then what
      is heard is those tenths. */
  lemma HeardByIntegers(pulses: seq<int>, f: Frame)
    requires Bytes(f) && Sends(pulses, [f.hum, f.humTenths, f.temp, f.tempTenths, f.sum])
    ensures Says(pulses, None) <==>
            !(&& (f.hum + f.humTenths + f.temp + f.tempTenths) % 256 == f.sum
              && 10 * f.temp + f.tempTenths <= 800 && 10 * f.hum + f.humTenths <= 1000)
    ensures Says(pulses, None) || exists r :: Says(pulses, Some(r))
    ensures forall r :: Says(pulses, Some(r)) ==>
              && 10.0 * r.tempC == (10 * f.temp + f.tempTenths) as real
              && 10.0 * r.humPct == (10 * f.hum + f.humTenths) as real
  {
    SentIsCarried(pulses, f);
    SentIsRead(pulses, f);
    SoundByIntegers(f);
    forall r | Says(pulses, Some(r)) ensures r == ReadingOf(f) {
      SaysOneThing(pulses, Some(r), if Sound(f) then Some(ReadingOf(f)) else None);
    }
  }

  // ----- the checksum as referee -------------------------------------------------------------

  /** In a sound train of exactly forty widths, spoil any of the widths of one byte in any way
      that moves at least one across the threshold: it says nothing. */
  lemma OneSpoiltByteSaysNothing(pulses: seq<int>, spoilt: seq<int>, k: nat)
    requires |pulses| == |spoilt| == FRAME && SoundAt(pulses, 0) && k < 5
    requires forall i :: 0 <= i < FRAME && !(8 * k <= i < 8 * k + 8) ==> Bit(spoilt[i]) == Bit(pulses[i])
    requires exists i :: 0 <= i < FRAME && Bit(spoilt[i]) != Bit(pulses[i])
    ensures Says(spoilt, None)
  {
    var i :| 0 <= i < FRAME && Bit(spoilt[i]) != Bit(pulses[i]);
    var f, g := FrameAt(pulses, 0), FrameAt(spoilt, 0);
    forall j: nat | j < 5 && j != k ensures Field(f, j) == Field(g, j) {
      FieldIsByte(pulses, j);
      FieldIsByte(spoilt, j);
      SameByte(pulses, spoilt, 8 * j);
    }
    FieldIsByte(pulses, k);
    FieldIsByte(spoilt, k);
    SpoiltByte(pulses, spoilt, 8 * k, i);
    ByteInRange(spoilt, 32);
    ChecksumMoves(f, g, k);
  }

  lemma FieldIsByte(pulses: seq<int>, k: nat)
    requires |pulses| == FRAME && k < 5
    ensures Field(FrameAt(pulses, 0), k) == ByteAt(pulses, 8 * k)
  {
  }

  function Field(f: Frame, k: nat): int
    requires k < 5
  {
    if k == 0 then f.hum else if k == 1 then f.humTenths else if k == 2 then f.temp
    else if k == 3 then f.tempTenths else f.sum
  }

  lemma ChecksumMoves(f: Frame, g: Frame, k: nat)
    requires k < 5 && ChecksumHolds(f) && 0 <= g.sum < 256
    requires forall j: nat :: j < 5 && j != k ==> Field(f, j) == Field(g, j)
    requires Field(f, k) != Field(g, k) && -256 < Field(f, k) - Field(g, k) < 256
    ensures !ChecksumHolds(g)
  {
    assert Field(f, 0) == f.hum && Field(f, 1) == f.humTenths && Field(f, 2) == f.temp
           && Field(f, 3) == f.tempTenths && Field(f, 4) == f.sum;
    assert Field(g, 0) == g.hum && Field(g, 1) == g.humTenths && Field(g, 2) == g.temp
           && Field(g, 3) == g.tempTenths && Field(g, 4) == g.sum;
  }

  lemma SameByte(a: seq<int>, b: seq<int>, at: nat)
    requires at + 8 <= |a| == |b| && forall i :: at <= i < at + 8 ==> Bit(b[i]) == Bit(a[i])
    ensures ByteAt(b, at) == ByteAt(a, at)
  {
    assert Bits(b[at..at + 8]) == Bits(a[at..at + 8]);
  }

  lemma ByteInRange(a: seq<int>, at: nat)
    requires at + 8 <= |a|
    ensures 0 <= ByteAt(a, at) < 256
  {
    assert Pow2(8) == 256;
    ValueInRange(Bits(a[at..at + 8]));
  }

  lemma SpoiltByte(a: seq<int>, b: seq<int>, at: nat, i: nat)
    requires at <= i < at + 8 <= |a| == |b| && Bit(a[i]) != Bit(b[i])
    ensures ByteAt(a, at) != ByteAt(b, at) && -256 < ByteAt(a, at) - ByteAt(b, at) < 256
  {
    ByteInRange(a, at);
    ByteInRange(b, at);
    var x, y := Bits(a[at..at + 8]), Bits(b[at..at + 8]);
    assert x[i - at] != y[i - at];
    if Value(x) == Value(y) { ValueIsInjective(x, y); }
  }

  // ----- alignment ----------------------------------------------------------------------------

  lemma ShiftedFrame(p: int, rest: seq<int>, s: nat)
    ensures SoundAt([p] + rest, s + 1) <==> SoundAt(rest, s)
    ensures s + FRAME <= |rest| ==> FrameAt([p] + rest, s + 1) == FrameAt(rest, s)
  {
    if s + FRAME <= |rest| {
      ShiftedByte(p, rest, s); ShiftedByte(p, rest, s + 8); ShiftedByte(p, rest, s + 16);
      ShiftedByte(p, rest, s + 24); ShiftedByte(p, rest, s + 32);
    }
  }

  lemma ShiftedByte(p: int, rest: seq<int>, at: nat)
    requires at + 8 <= |rest|
    ensures ByteAt([p] + rest, at + 1) == ByteAt(rest, at)
  {
    assert ([p] + rest)[at + 1..at + 9] == rest[at..at + 8];
  }

  /** A long pulse in front, such as the sensor's answer to the start signal, changes nothing:
      read as a bit it puts the humidity at 128 or more. */
  lemma LongPulseInFrontIsSkipped(p: int, rest: seq<int>, r: Option<Reading>)
    requires p > ONE_NS
    ensures Says([p] + rest, r) <==> Says(rest, r)
  {
    var all := [p] + rest;
    if FRAME <= |all| {
      assert Pow2(7) == 128;
      LeadingOne(Bits(all[0..8]));
      ByteInRange(all, 8);
      assert ReadingOf(FrameAt(all, 0)).humPct > 100.0;
    }
    assert !SoundAt(all, 0);
    forall s: nat ensures SoundAt(all, s + 1) <==> SoundAt(rest, s) { ShiftedFrame(p, rest, s); }
    SkipOne(all, rest, p, r);
  }

  lemma SkipOne(all: seq<int>, rest: seq<int>, p: int, r: Option<Reading>)
    requires all == [p] + rest && !SoundAt(all, 0)
    requires forall s: nat :: SoundAt(all, s + 1) <==> SoundAt(rest, s)
    ensures Says(all, r) <==> Says(rest, r)
  {
    if r.None? {
      SkipNothing(all, rest);
    } else {
      if Says(rest, r) { SkipForward(all, rest, p, r.value); }
      if Says(all, r) { SkipBack(all, rest, p, r.value); }
    }
  }

  lemma SkipForward(all: seq<int>, rest: seq<int>, p: int, reading: Reading)
    requires all == [p] + rest && !SoundAt(all, 0)
    requires forall s: nat :: SoundAt(all, s + 1) <==> SoundAt(rest, s)
    requires Says(rest, Some(reading))
    ensures Says(all, Some(reading))
  {
    var s: nat :| Least(rest, s) && reading == ReadingOf(FrameAt(rest, s));
    LeastMoves(all, rest, s);
    ShiftedFrame(p, rest, s);
    assert Least(all, s + 1) && reading == ReadingOf(FrameAt(all, s + 1));
  }

  lemma SkipBack(all: seq<int>, rest: seq<int>, p: int, reading: Reading)
    requires all == [p] + rest && !SoundAt(all, 0)
    requires forall s: nat :: SoundAt(all, s + 1) <==> SoundAt(rest, s)
    requires Says(all, Some(reading))
    ensures Says(rest, Some(reading))
  {
    var s: nat :| Least(all, s) && reading == ReadingOf(FrameAt(all, s));
    LeastMoves(all, rest, s - 1);
    ShiftedFrame(p, rest, s - 1);
    assert Least(rest, s - 1) && reading == ReadingOf(FrameAt(rest, s - 1));
  }

  lemma SkipNothing(all: seq<int>, rest: seq<int>)
    requires !SoundAt(all, 0) && forall s: nat :: SoundAt(all, s + 1) <==> SoundAt(rest, s)
    ensures Says(all, None) <==> Says(rest, None)
  {
    if Says(rest, None) {
      forall s: nat ensures !SoundAt(all, s) {
        if s > 0 { assert SoundAt(all, s - 1 + 1) <==> SoundAt(rest, s - 1); }
      }
    }
    if Says(all, None) {
      forall s: nat ensures !SoundAt(rest, s) { assert SoundAt(all, s + 1) <==> SoundAt(rest, s); }
    }
  }

  lemma LeastMoves(all: seq<int>, rest: seq<int>, s: nat)
    requires !SoundAt(all, 0) && forall s: nat :: SoundAt(all, s + 1) <==> SoundAt(rest, s)
    ensures Least(all, s + 1) <==> Least(rest, s)
  {
    if Least(rest, s) {
      forall t: nat | t < s + 1 ensures !SoundAt(all, t) {
        if t > 0 { assert SoundAt(all, t - 1 + 1) <==> SoundAt(rest, t - 1); }
      }
    }
    if Least(all, s + 1) {
      forall t: nat | t < s ensures !SoundAt(rest, t) { assert SoundAt(all, t + 1) <==> SoundAt(rest, t); }
    }
  }

  // ----- stray pulses -------------------------------------------------------------------------

  /** A byte seen one bit early: the bit before it in front, its own last bit gone. */
  function LateByte(before: nat, v: nat): nat { (before % 2) * 128 + v / 2 }

  /** The five bytes of a frame, read from one pulse too early. */
  function Late(bit: nat, f: Frame): Frame
    requires Bytes(f)
  {
    Frame(LateByte(bit, f.hum), LateByte(f.hum, f.humTenths), LateByte(f.humTenths, f.temp),
          LateByte(f.temp, f.tempTenths), LateByte(f.tempTenths, f.sum))
  }

  lemma LateByteBits(before: nat, v: nat)
    requires v < 256
    ensures LateByte(before, v) < 256
    ensures BitsOf(LateByte(before, v), 8) == [before % 2] + BitsOf(v / 2, 7)
    ensures BitsOf(v, 8) == BitsOf(v / 2, 7) + [v % 2]
  {
    assert Pow2(7) == 128;
    LeadingBit(before % 2, v / 2, 7);
  }

  function LateBytes(before: nat, bytes: seq<nat>): (late: seq<nat>)
    ensures |late| == |bytes|
  {
    seq(|bytes|, k requires 0 <= k < |bytes| => LateByte(if k == 0 then before else bytes[k - 1], bytes[k]))
  }

  /** Bytes seen one bit early are the same bits, one later. */
  lemma {:induction false} LateBytesBits(before: nat, bytes: seq<nat>)
    requires forall k :: 0 <= k < |bytes| ==> bytes[k] < 256
    ensures BitsOfBytes(LateBytes(before, bytes)) == ([before % 2] + BitsOfBytes(bytes))[..8 * |bytes|]
    decreases |bytes|
  {
    if bytes != [] {
      var v, rest := bytes[0], bytes[1..];
      LateByteBits(before, v);
      LateBytesBits(v, rest);
      FirstLate(before, bytes);
      Slide([before % 2], BitsOf(v / 2, 7), [v % 2], BitsOfBytes(rest), 8 * |rest|);
    }
  }

  lemma FirstLate(before: nat, bytes: seq<nat>)
    requires bytes != []
    ensures BitsOfBytes(LateBytes(before, bytes))
            == BitsOf(LateByte(before, bytes[0]), 8) + BitsOfBytes(LateBytes(bytes[0], bytes[1..]))
  {
    assert LateBytes(before, bytes)[1..] == LateBytes(bytes[0], bytes[1..]);
  }

  lemma Slide(x: seq<int>, half: seq<int>, y: seq<int>, rest: seq<int>, n: nat)
    requires |x| == |y| == 1 && |half| == 7 && n <= |rest|
    ensures (x + half) + (y + rest)[..n] == (x + ((half + y) + rest))[..8 + n]
  {
  }

  lemma LateFrameBits(bit: nat, f: Frame)
    requires bit < 2 && Bytes(f)
    ensures Bytes(Late(bit, f)) && FrameBits(Late(bit, f)) == [bit] + FrameBits(f)[..FRAME - 1]
  {
    LateFive(bit, f);
    LateList(bit, Five(f), Five(Late(bit, f)));
  }

  lemma LateList(bit: nat, bytes: seq<nat>, late: seq<nat>)
    requires bit < 2 && |bytes| == 5 && (forall k :: 0 <= k < 5 ==> bytes[k] < 256)
    requires late == LateBytes(bit, bytes)
    ensures BitsOfBytes(late) == [bit] + BitsOfBytes(bytes)[..FRAME - 1]
  {
    LateBytesBits(bit, bytes);
    LastDropped(bit, BitsOfBytes(bytes), BitsOfBytes(late));
  }

  lemma LastDropped(bit: nat, bits: seq<int>, late: seq<int>)
    requires bit < 2 && |bits| == FRAME && late == ([bit % 2] + bits)[..FRAME]
    ensures late == [bit] + bits[..FRAME - 1]
  {
  }

  lemma LateFive(bit: nat, f: Frame)
    requires bit < 2 && Bytes(f)
    ensures Bytes(Late(bit, f)) && Five(Late(bit, f)) == LateBytes(bit, Five(f))
  {
    LateByteFits(bit, f.hum);
    LateByteFits(f.hum, f.humTenths);
    LateByteFits(f.humTenths, f.temp);
    LateByteFits(f.temp, f.tempTenths);
    LateByteFits(f.tempTenths, f.sum);
  }

  lemma LateByteFits(before: nat, v: nat)
    requires v < 256
    ensures LateByte(before, v) < 256
  {
  }

  lemma LateBits(p: int, pulses: seq<int>)
    requires FRAME <= |pulses|
    ensures Bits(([p] + pulses)[0..FRAME]) == [Bit(p)] + Bits(pulses[0..FRAME])[..FRAME - 1]
  {
    var all := [p] + pulses;
    var bits, late := Bits(pulses[0..FRAME]), Bits(all[0..FRAME]);
    forall i | 0 <= i < FRAME ensures late[i] == ([Bit(p)] + bits[..FRAME - 1])[i] {
      if i > 0 { assert all[0..FRAME][i] == pulses[0..FRAME][i - 1]; }
    }
    assert late == [Bit(p)] + bits[..FRAME - 1];
  }

  lemma CarriesLate(p: int, pulses: seq<int>, f: Frame)
    requires Carries(pulses, 0, f)
    ensures Carries([p] + pulses, 0, Late(Bit(p), f))
  {
    LateBits(p, pulses);
    LateFrameBits(Bit(p), f);
  }

  /** What stands at the front of a train of stray pulses and a frame. */
  function Front(stray: seq<int>, f: Frame): (g: Frame)
    requires Bytes(f)
    ensures Bytes(g)
  {
    if stray == [] then f else Late(Bit(stray[0]), Front(stray[1..], f))
  }

  /** What is heard of it: the earliest sound window, or at last the frame itself. */
  function Heard(stray: seq<int>, f: Frame): Reading
    requires Bytes(f)
  {
    if stray == [] then ReadingOf(f) else IfSound(Front(stray, f), Heard(stray[1..], f))
  }

  function IfSound(g: Frame, reading: Reading): Reading { if Sound(g) then ReadingOf(g) else reading }

  /** A train with this frame in front and this reading to it. */
  ghost predicate HeardAs(train: seq<int>, g: Frame, reading: Reading) {
    Carries(train, 0, g) && Says(train, Some(reading))
  }

  /** Any number of stray pulses in front of a sound frame, by arithmetic on its five bytes. */
  lemma {:induction false} StrayPulsesAreHeard(stray: seq<int>, pulses: seq<int>, f: Frame)
    requires Carries(pulses, 0, f) && Sound(f)
    ensures HeardAs(stray + pulses, Front(stray, f), Heard(stray, f))
  {
    if stray == [] {
      FrameInFrontIsRead(pulses, f);
      assert stray + pulses == pulses;
    } else {
      StrayPulsesAreHeard(stray[1..], pulses, f);
      OneMoreStray(stray[0], stray[1..] + pulses, Front(stray[1..], f), Heard(stray[1..], f));
      Unfold(stray, pulses);
    }
  }

  lemma Unfold(stray: seq<int>, pulses: seq<int>)
    requires stray != []
    ensures stray + pulses == [stray[0]] + (stray[1..] + pulses)
  {
  }

  lemma OneMoreStray(p: int, rest: seq<int>, g: Frame, reading: Reading)
    requires HeardAs(rest, g, reading)
    ensures HeardAs([p] + rest, Late(Bit(p), g), IfSound(Late(Bit(p), g), reading))
  {
    var late := Late(Bit(p), g);
    CarriesLate(p, rest, g);
    CarriedIsRead([p] + rest, 0, late);
    if Sound(late) { FrameInFrontIsRead([p] + rest, late); } else { SkipUnsound(p, rest, reading); }
  }

  lemma SkipUnsound(p: int, rest: seq<int>, reading: Reading)
    requires !SoundAt([p] + rest, 0) && Says(rest, Some(reading))
    ensures Says([p] + rest, Some(reading))
  {
    forall s: nat ensures SoundAt([p] + rest, s + 1) <==> SoundAt(rest, s) { ShiftedFrame(p, rest, s); }
    SkipOne([p] + rest, rest, p, Some(reading));
  }

  /** With one short pulse in front, a sound frame is heard right if and only if its bytes read one
      bit early are unsound, or happen to say the same. */
  lemma ShortPulseIsHarmlessExactlyWhen(p: int, pulses: seq<int>, f: Frame)
    requires p <= ONE_NS && Carries(pulses, 0, f) && Sound(f)
    ensures Says([p] + pulses, Some(ReadingOf(f)))
            <==> !Sound(Late(0, f)) || ReadingOf(Late(0, f)) == ReadingOf(f)
  {
    StrayPulsesAreHeard([p], pulses, f);
    assert Front([p], f) == Late(0, f) by { assert [p][1..] == []; }
    assert Heard([p][1..], f) == ReadingOf(f);
    if Says([p] + pulses, Some(ReadingOf(f))) {
      SaysOneThing([p] + pulses, Some(ReadingOf(f)), Some(Heard([p], f)));
    }
  }

  predicate Even(f: Frame) {
    f.hum % 2 == 0 && f.humTenths % 2 == 0 && f.temp % 2 == 0 && f.tempTenths % 2 == 0 && f.sum % 2 == 0
  }

  function Half(f: Frame): Frame { Frame(f.hum / 2, f.humTenths / 2, f.temp / 2, f.tempTenths / 2, f.sum / 2) }

  /** So a frame of even bytes whose sum does not overflow is heard as half the humidity and half
      the temperature: a checksum that holds does not prove the alignment. */
  lemma ShortPulseInFrontHalves(p: int, pulses: seq<int>, f: Frame)
    requires p <= ONE_NS && Carries(pulses, 0, f) && Sound(f) && Even(f)
    requires f.hum + f.humTenths + f.temp + f.tempTenths < 256
    ensures Says([p] + pulses, Some(ReadingOf(Half(f))))
  {
    HalfIsSound(f);
    CarriesLate(p, pulses, f);
    assert Late(Bit(p), f) == Half(f);
    FrameInFrontIsRead([p] + pulses, Half(f));
  }

  lemma HalfIsSound(f: Frame)
    requires Bytes(f) && Sound(f) && Even(f) && f.hum + f.humTenths + f.temp + f.tempTenths < 256
    ensures Sound(Half(f))
  {
    var h, r := Half(f), ReadingOf(Half(f));
    HalfChecksum(f);
    HalfOf(f.hum, f.humTenths, r.humPct, ReadingOf(f).humPct);
    HalfOf(f.temp, f.tempTenths, r.tempC, ReadingOf(f).tempC);
  }

  lemma HalfChecksum(f: Frame)
    requires Bytes(f) && ChecksumHolds(f) && Even(f) && f.hum + f.humTenths + f.temp + f.tempTenths < 256
    ensures ChecksumHolds(Half(f))
  {
    var h := Half(f);
    assert f.hum == 2 * h.hum && f.humTenths == 2 * h.humTenths && f.temp == 2 * h.temp
           && f.tempTenths == 2 * h.tempTenths && f.sum == 2 * h.sum;
    assert f.hum + f.humTenths + f.temp + f.tempTenths == f.sum;
    assert h.hum + h.humTenths + h.temp + h.tempTenths == h.sum < 256;
  }

  lemma HalfOf(whole: nat, tenths: nat, half: real, full: real)
    requires whole % 2 == 0 && tenths % 2 == 0
    requires half == (whole / 2) as real + (tenths / 2) as real / 10.0 && full == whole as real + tenths as real / 10.0
    ensures 0.0 <= half <= full
  {
    var w, t := whole / 2, tenths / 2;
    assert whole == 2 * w && tenths == 2 * t;
  }

  /** The sensor's own widths for some bits: 75 us for a one, 30 us for a zero. */
  function WidthsOf(bits: seq<int>): seq<int> {
    seq(|bits|, i requires 0 <= i < |bits| => if bits[i] == 1 then 75_000 else 30_000)
  }

  lemma WidthsCarry(f: Frame)
    requires Bytes(f)
    ensures Carries(WidthsOf(FrameBits(f)), 0, f)
  {
    var bits := FrameBits(f);
    var widths := WidthsOf(bits);
    assert widths[0..FRAME] == widths;
    assert Bits(widths) == bits;
  }

  lemma SensorIsMisread(f: Frame)
    requires Bytes(f) && Sound(f) && Even(f) && f.hum + f.humTenths + f.temp + f.tempTenths < 256
    ensures Says(WidthsOf(FrameBits(f)), Some(ReadingOf(f)))
    ensures Says([30_000] + WidthsOf(FrameBits(f)), Some(ReadingOf(Half(f))))
  {
    WidthsCarry(f);
    SentIsRead(WidthsOf(FrameBits(f)), f);
    ShortPulseInFrontHalves(30_000, WidthsOf(FrameBits(f)), f);
  }

  const ROOM := Frame(44, 0, 12, 2, 58)

  /** A room at 44 % and 12.2 degrees, and the same train with one 30 us pulse in front of it. */
  lemma MisreadRoom()
    ensures Bytes(ROOM) && Says(WidthsOf(FrameBits(ROOM)), Some(Reading(12.2, 44.0)))
    ensures Says([30_000] + WidthsOf(FrameBits(ROOM)), Some(Reading(6.1, 22.0)))
  {
    assert ReadingOf(ROOM) == Reading(12.2, 44.0) && ReadingOf(Half(ROOM)) == Reading(6.1, 22.0);
    SensorIsMisread(ROOM);
  }

  // ----- edges ----------------------------------------------------------------------------------

  datatype Edge = Edge(rising: bool, at: int)

  function Highs(edges: seq<Edge>): seq<int>
    decreases |edges|
  {
    if |edges| < 2 then []
    else if edges[0].rising then [edges[1].at - edges[0].at] + Highs(edges[2..])
    else Highs(edges[1..])
  }

  method HighsFromEdges(edges: seq<Edge>) returns (highs: seq<int>)
    ensures highs == Highs(edges)
  {
    highs := [];
    var i := 0;
    while i + 1 < |edges|
      invariant 0 <= i <= |edges|
      invariant Highs(edges) == highs + Highs(edges[i..])
    {
      if edges[i].rising {
        assert edges[i..][2..] == edges[i + 2..];
        highs := highs + [edges[i + 1].at - edges[i].at];
        i := i + 2;
      } else {
        assert edges[i..][1..] == edges[i + 1..];
        i := i + 1;
      }
    }
  }

  /** The edges of high pulses of these widths from `at` on, each after its own low. */
  function Train(at: int, lows: seq<int>, widths: seq<int>): (edges: seq<Edge>)
    requires |lows| == |widths|
    decreases |widths|
  {
    if widths == [] then []
    else var up := at + lows[0];
      [Edge(true, up), Edge(false, up + widths[0])] + Train(up + widths[0], lows[1..], widths[1..])
  }

  /** Pairing gives back the widths of every train of pulses, with or without the fall of a pulse
      the collection joined late. */
  lemma {:induction false} HighsOfTrain(at: int, lows: seq<int>, widths: seq<int>, stray: int)
    requires |lows| == |widths|
    ensures Highs(Train(at, lows, widths)) == widths
    ensures Highs([Edge(false, stray)] + Train(at, lows, widths)) == widths
    decreases |widths|
  {
    var edges := Train(at, lows, widths);
    if widths != [] {
      var up := at + lows[0];
      HighsOfTrain(up + widths[0], lows[1..], widths[1..], stray);
      assert edges[2..] == Train(up + widths[0], lows[1..], widths[1..]);
      assert [up + widths[0] - up] + widths[1..] == widths;
    }
    assert ([Edge(false, stray)] + edges)[1..] == edges;
  }

  /** Pairing looks at the first edge of a pair only: where a fall was missed, the width is the
      time from one rise to the next. */
  lemma MissedFallMispairs(a: int, b: int, c: int, rest: seq<Edge>)
    ensures Highs([Edge(true, a), Edge(true, b), Edge(false, c)] + rest)
            == [b - a] + Highs([Edge(false, c)] + rest)
  {
    var edges := [Edge(true, a), Edge(true, b), Edge(false, c)] + rest;
    assert edges[2..] == [Edge(false, c)] + rest;
  }

  /** From edges to reading: the fall of the start signal, the sensor's long answer, then the
      frame, at any spacing. */
  lemma EdgesAreRead(at: int, lows: seq<int>, answer: int, widths: seq<int>, f: Frame, stray: int)
    requires |lows| == |widths| + 1 && |widths| == FRAME
    requires answer > ONE_NS && Carries(widths, 0, f) && Sound(f)
    ensures Says(Highs([Edge(false, stray)] + Train(at, lows, [answer] + widths)), Some(ReadingOf(f)))
  {
    HighsOfTrain(at, lows, [answer] + widths, stray);
    SentIsRead(widths, f);
    LongPulseInFrontIsSkipped(answer, widths, Some(ReadingOf(f)));
  }
}
