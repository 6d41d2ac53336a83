/** The frames of the ring's tells, as functions of the clock.  The transcendental functions and
    the coins are parameters; of the former only their ranges are ever used. */
module Tells {
  import opened Dither

  const FPS := 30.0
  const HOME_PEAK := 35.0
  const BUSY_PEAK := 55.0
  const BASE := 3.0
  const HOME_S := 3.0 + 0.8 + 4.2 + 0.5
  const BUSY_S := 2.4 + 0.5 + 3.4 + 0.4
  const HURTS_STEP_S := 0.28
  const HURTS_S := 0.28 * 7.0
  const ALARM_CYCLE_S := 3.0 * 0.7 + 2.0
  const MUTE_S := 10.0
  const BLINK_S := 0.4
  const NIGGLE_PERIOD_S := 20.0
  const NIGGLE_S := 0.36
  const GLITCH_S := 0.3
  const BLACK := Rgb(0.0, 0.0, 0.0)

  type Frame = seq<Rgb>

  /** swell(x) is sin(pi x / 2)^1.5 and ebb(x) the same of the cosine; cosine(t) is the hue's, one
      turn a minute; decay(x) is exp(-x). */
  datatype Maths = Maths(swell: real -> real, ebb: real -> real, cosine: real -> real, decay: real -> real)

  ghost predicate Sane(m: Maths) {
    && (forall x :: Unit(x) ==> Unit(m.swell(x)))
    && (forall x :: Unit(x) ==> Unit(m.ebb(x)))
    && (forall x :: -1.0 <= m.cosine(x) <= 1.0)
    && (forall x :: x >= 0.0 ==> Unit(m.decay(x)))
  }

  /** A whole frame, each channel within the codes. */
  predicate AllDisplayable(f: Frame) { |f| == LEDS && forall i :: 0 <= i < LEDS ==> Displayable(f[i]) }

  function Solid(h: real, s: real, v: real): (f: Frame)
    ensures |f| == LEDS
  {
    seq(LEDS, _ => Hsv(h, s, v))
  }

  /** A cast to an unsigned integer: whole part, and 0 below 0. */
  function AsUnsigned(x: real): nat { if x < 0.0 then 0 else x.Floor }

  function Pick(x: real, n: nat): (i: nat)
    requires n > 0
  {
    Min(AsUnsigned(x), n - 1)
  }

  /** The index at time t of a sequence of n that takes `total` seconds, wrapping. */
  function SampleAt(t: real, total: real, n: nat): nat
    requires total > 0.0 && n > 0
  {
    Pick(Rem(t, total) / total * n as real, n)
  }

  lemma InOrder(a: real, b: real, n: real)
    requires a < b && n > 0.0
    ensures a * n < b * n
  {
    assert (b - a) * n > 0.0;
  }

  lemma Part(x: real, y: real, q: real)
    requires 0.0 <= x < y && q == x / y
    ensures 0.0 <= q < 1.0
  {
    assert q * y == x;
    if q < 0.0 { InOrder(q, 0.0, y); }
    if q > 1.0 { InOrder(1.0, q, y); }
  }

  lemma WholeOfItself(y: real, q: real)
    requires y > 0.0 && q == y / y
    ensures q == 1.0
  {
    assert q * y == y;
    if q < 1.0 { InOrder(q, 1.0, y); }
    if q > 1.0 { InOrder(1.0, q, y); }
  }

  lemma Scaled(q: real, n: real)
    requires 0.0 <= q < 1.0 && n > 0.0
    ensures 0.0 <= q * n < n
  {
  }

  lemma RemOfPart(t: real, total: real)
    requires 0.0 <= t < total
    ensures Rem(t, total) == t && Rem(total, total) == 0.0
  {
    var q := t / total;
    Part(t, total, q);
    assert Trunc(q) == 0 && total * 0.0 == 0.0;
    WholeOfItself(total, total / total);
    assert Trunc(1.0) == 1;
  }

  lemma PickInside(q: real, n: nat)
    requires 0.0 <= q < 1.0 && n > 0
    ensures Pick(q * n as real, n) == (q * n as real).Floor
  {
    Scaled(q, n as real);
  }

  /** Within one turn the clamp of the index never bites; at its very end the sequence is back at
      its first element. */
  lemma SampleWraps(t: real, total: real, n: nat)
    requires 0.0 <= t < total && n > 0
    ensures SampleAt(t, total, n) == (t / total * n as real).Floor
    ensures SampleAt(total, total, n) == 0
  {
    RemOfPart(t, total);
    Part(t, total, t / total);
    PickInside(t / total, n);
    assert 0.0 / total == 0.0 && 0.0 * n as real == 0.0;
  }

  // ----- the breath ---------------------------------------------------------------------------

  /** Seconds to frames: rounded, and at least one. */
  function Frames(secs: real): nat
    requires secs >= 0.0
  {
    if (secs * FPS + 0.5).Floor < 1 then 1 else (secs * FPS + 0.5).Floor
  }

  function Level(range: real, x: real): real { BASE + range * x }

  function Eased(peak: real, shape: real -> real, n: nat): (curve: seq<real>)
    ensures |curve| == n
  {
    seq(n, t requires 0 <= t < n => Level(peak - BASE, shape(t as real / n as real)))
  }

  function BreathCurve(m: Maths, peak: real, inhale: real, hold: real, exhale: real, rest: real): (c: seq<real>)
    requires inhale >= 0.0 && hold >= 0.0 && exhale >= 0.0 && rest >= 0.0
    ensures c != []
  {
    Eased(peak, m.swell, Frames(inhale)) + seq(Frames(hold), _ => peak)
    + Eased(peak, m.ebb, Frames(exhale)) + seq(Frames(rest), _ => BASE)
  }

  function HomeCurve(m: Maths): (c: seq<real>)
    ensures c != []
  {
    BreathCurve(m, HOME_PEAK, 3.0, 0.8, 4.2, 0.5)
  }

  function BusyCurve(m: Maths): (c: seq<real>)
    ensures c != []
  {
    BreathCurve(m, BUSY_PEAK, 2.4, 0.5, 3.4, 0.4)
  }

  function SampleScalar(curve: seq<real>, t: real, total: real): real
    requires curve != [] && total > 0.0
  {
    curve[SampleAt(t, total, |curve|)]
  }

  function SampleFrames(frames: seq<Frame>, t: real, total: real): Frame
    requires frames != [] && total > 0.0
  {
    frames[SampleAt(t, total, |frames|)]
  }

  function HomeHue(m: Maths, t: real): real { 120.0 + 45.0 * (0.5 - 0.5 * m.cosine(t)) }

  predicate Between(low: real, x: real, high: real) { low <= x <= high }

  lemma EasedBetween(peak: real, shape: real -> real, n: nat)
    requires peak >= BASE && forall x :: Unit(x) ==> Unit(shape(x))
    ensures forall i :: 0 <= i < n ==> Between(BASE, Eased(peak, shape, n)[i], peak)
  {
    forall t: nat | t < n ensures Between(BASE, Eased(peak, shape, n)[t], peak) {
      Share(t, n);
      LevelBetween(peak - BASE, shape(t as real / n as real));
    }
  }

  lemma LevelBetween(range: real, x: real)
    requires range >= 0.0 && Unit(x)
    ensures Between(BASE, Level(range, x), BASE + range)
  {
    Mix(range, x);
  }

  lemma Share(t: nat, n: nat)
    requires t < n
    ensures Unit(t as real / n as real)
  {
    Part(t as real, n as real, t as real / n as real);
  }

  lemma Mix(range: real, x: real)
    requires range >= 0.0 && Unit(x)
    ensures 0.0 <= range * x <= range
  {
    Product(range, x);
    Product(range, 1.0 - x);
  }

  lemma Product(x: real, y: real)
    requires x >= 0.0 && y >= 0.0
    ensures x * y >= 0.0
  {
  }

  lemma BreathBetween(m: Maths, peak: real, inhale: real, hold: real, exhale: real, rest: real)
    requires Sane(m) && peak >= BASE && inhale >= 0.0 && hold >= 0.0 && exhale >= 0.0 && rest >= 0.0
    ensures var c := BreathCurve(m, peak, inhale, hold, exhale, rest);
            forall i :: 0 <= i < |c| ==> Between(BASE, c[i], peak)
  {
    EasedBetween(peak, m.swell, Frames(inhale));
    EasedBetween(peak, m.ebb, Frames(exhale));
  }

  /** The reference keeps coloured frames, samples one, and takes its brightest channel over 255;
      the port samples the scalar curve.  At every time, and whatever hue the frames were built
      in, the two are the same number. */
  lemma SamplingTheScalarIsSamplingTheFrame(curve: seq<real>, hue: real, t: real, total: real)
    requires curve != [] && total > 0.0 && forall i :: 0 <= i < |curve| ==> InRange(curve[i])
    ensures var frames := seq(|curve|, i requires 0 <= i < |curve| => Solid(hue, 1.0, curve[i] / 255.0));
            forall led :: 0 <= led < LEDS ==>
              Max3(SampleFrames(frames, t, total)[led]) / 255.0 == SampleScalar(curve, t, total) / 255.0
  {
    ScalarIsTheFramesLevel(SampleScalar(curve, t, total), hue, hue);
  }

  // ----- the comet ----------------------------------------------------------------------------

  /** The remainder that is never negative. */
  function Around(x: real, n: real): real
    requires n > 0.0
  {
    x - n * (x / n).Floor as real
  }

  lemma AroundInRange(x: real, n: real)
    requires n > 0.0
    ensures 0.0 <= Around(x, n) < n
  {
    var q := x / n;
    var f := q - q.Floor as real;
    assert 0.0 <= f < 1.0;
    Scaled(f, n);
    AroundIs(x, n, q, q.Floor as real);
    assert Around(x, n) == f * n;
  }

  lemma AroundIs(x: real, n: real, q: real, w: real)
    requires n > 0.0 && q == x / n
    ensures x - n * w == (q - w) * n
  {
    assert q * n == x;
  }

  /** One LED of a comet: how far the head has passed it, around the ring. */
  function CometLed(m: Maths, head: real, amp: real, i: nat): Rgb {
    var d := Around(head - i as real, 24.0);
    if d < 6.0 then Hsv(150.0, 0.7, 120.0 * m.decay(d * 0.9) * amp / 255.0) else BLACK
  }

  function Comet(m: Maths, head: real, amp: real): (f: Frame)
    ensures |f| == LEDS
  {
    seq(LEDS, i requires 0 <= i < LEDS => CometLed(m, head, amp, i))
  }

  function HeadStep(lapN: nat): real
    requires lapN > 0
  {
    24.0 / lapN as real
  }

  function Head(lapN: nat, s: nat): real
    requires lapN > 0
  {
    s as real * HeadStep(lapN)
  }

  /** Frame s of the comet's lap, and of its fade where it stopped. */
  function LapFrame(m: Maths, lapN: nat, s: nat): Frame
    requires lapN > 0
  {
    Comet(m, Head(lapN, s), 1.0)
  }

  function FadeFrame(m: Maths, lapN: nat, fadeN: nat, s: nat): Frame
    requires lapN > 0 && fadeN > 0
  {
    Comet(m, Head(lapN, lapN - 1), 1.0 - s as real / fadeN as real)
  }

  function Lap(m: Maths, lapN: nat): (frames: seq<Frame>)
    requires lapN > 0
    ensures |frames| == lapN
  {
    seq(lapN, s requires 0 <= s < lapN => LapFrame(m, lapN, s))
  }

  function Fade(m: Maths, lapN: nat, fadeN: nat): (frames: seq<Frame>)
    requires lapN > 0 && fadeN > 0
    ensures |frames| == fadeN
  {
    seq(fadeN, s requires 0 <= s < fadeN => FadeFrame(m, lapN, fadeN, s))
  }

  function Scan(m: Maths, lap: real, fade: real): (frames: seq<Frame>)
    requires lap >= 0.0 && fade >= 0.0
    ensures |frames| == Frames(lap) + Frames(fade)
  {
    Lap(m, Frames(lap)) + Fade(m, Frames(lap), Frames(fade))
  }

  method CometFrame(m: Maths, head: real, amp: real) returns (frame: Frame)
    ensures frame == Comet(m, head, amp)
  {
    frame := seq(LEDS, _ => BLACK);
    for i := 0 to LEDS
      invariant |frame| == LEDS
      invariant forall j :: 0 <= j < LEDS ==> frame[j] == if j < i then CometLed(m, head, amp, j) else BLACK
    {
      var d := Around(head - i as real, 24.0);
      if d < 6.0 {
        var b := 120.0 * m.decay(d * 0.9) * amp;
        frame := frame[i := Hsv(150.0, 0.7, b / 255.0)];
      }
    }
  }

  method LapFrames(m: Maths, lapN: nat) returns (frames: seq<Frame>)
    requires lapN > 0
    ensures frames == Lap(m, lapN)
  {
    frames := [];
    for s := 0 to lapN
      invariant |frames| == s && forall k :: 0 <= k < s ==> frames[k] == LapFrame(m, lapN, k)
    {
      var frame := CometFrame(m, Head(lapN, s), 1.0);
      assert frame == LapFrame(m, lapN, s);
      frames := frames + [frame];
    }
  }

  method FadeFrames(m: Maths, lapN: nat, fadeN: nat) returns (frames: seq<Frame>)
    requires lapN > 0 && fadeN > 0
    ensures frames == Fade(m, lapN, fadeN)
  {
    frames := [];
    var finalHead := Head(lapN, lapN - 1);
    for s := 0 to fadeN
      invariant |frames| == s && forall k :: 0 <= k < s ==> frames[k] == FadeFrame(m, lapN, fadeN, k)
    {
      var amp := 1.0 - s as real / fadeN as real;
      var frame := CometFrame(m, finalHead, amp);
      assert frame == FadeFrame(m, lapN, fadeN, s);
      frames := frames + [frame];
    }
  }

  method ScanFrames(m: Maths, lap: real, fade: real) returns (frames: seq<Frame>)
    requires lap >= 0.0 && fade >= 0.0
    ensures frames == Scan(m, lap, fade)
  {
    frames := LapFrames(m, Frames(lap));
    var tail := FadeFrames(m, Frames(lap), Frames(fade));
    frames := frames + tail;
  }

  lemma CometLevel(e: real, amp: real)
    requires Unit(e) && Unit(amp)
    ensures Unit(120.0 * e * amp / 255.0)
  {
    Mix(120.0 * e, amp);
  }

  lemma CometLedDisplayable(m: Maths, head: real, amp: real, i: nat)
    requires Sane(m) && Unit(amp)
    ensures Displayable(CometLed(m, head, amp, i))
  {
    var d := Around(head - i as real, 24.0);
    AroundInRange(head - i as real, 24.0);
    var e := m.decay(d * 0.9);
    CometLevel(e, amp);
    HsvDisplayable(150.0, 0.7, 120.0 * e * amp / 255.0);
  }

  lemma CometDisplayable(m: Maths, head: real, amp: real)
    requires Sane(m) && Unit(amp)
    ensures AllDisplayable(Comet(m, head, amp))
  {
    forall i: nat | i < LEDS ensures Displayable(Comet(m, head, amp)[i]) {
      CometLedDisplayable(m, head, amp, i);
    }
  }

  lemma LapDisplayable(m: Maths, lapN: nat, s: nat)
    requires Sane(m) && s < lapN
    ensures AllDisplayable(LapFrame(m, lapN, s))
  {
    CometDisplayable(m, Head(lapN, s), 1.0);
  }

  lemma FadeDisplayable(m: Maths, lapN: nat, fadeN: nat, s: nat)
    requires Sane(m) && lapN > 0 && s < fadeN
    ensures AllDisplayable(FadeFrame(m, lapN, fadeN, s))
  {
    Share(s, fadeN);
    CometDisplayable(m, Head(lapN, lapN - 1), 1.0 - s as real / fadeN as real);
  }

  lemma ScanDisplayable(m: Maths, lap: real, fade: real, k: nat)
    requires Sane(m) && lap >= 0.0 && fade >= 0.0 && k < |Scan(m, lap, fade)|
    ensures AllDisplayable(Scan(m, lap, fade)[k])
  {
    var lapN, fadeN := Frames(lap), Frames(fade);
    if k < lapN {
      LapDisplayable(m, lapN, k);
    } else {
      FadeDisplayable(m, lapN, fadeN, k - lapN);
    }
  }

  // ----- a frame for each tell -----------------------------------------------------------------

  function Alarm(t: real): Frame {
    var p := Rem(t, ALARM_CYCLE_S);
    if p >= 3.0 * 0.7 then Solid(0.0, 0.0, 0.0)
    else if Rem(p, 0.7) < 0.4 then Solid(0.0, 1.0, 1.0) else Solid(0.0, 0.0, 0.0)
  }

  const HURTS: seq<real> := [0.85, 0.85, 0.85, 0.18, 0.18, 0.18, 0.18]

  function Hurts(t: real): Frame {
    Solid(0.0, 1.0, HURTS[Pick(Rem(t, HURTS_S) / HURTS_STEP_S, |HURTS|)])
  }

  function Mute(t: real): Frame {
    Solid(0.0, 0.0, if Rem(t, MUTE_S) >= MUTE_S - BLINK_S then 0.06 else 0.0)
  }

  function Busy(m: Maths, t: real): Frame { Solid(45.0, 1.0, SampleScalar(BusyCurve(m), t, BUSY_S) / 255.0) }

  function Breath(m: Maths, t: real): Frame {
    Solid(HomeHue(m, t), 1.0, SampleScalar(HomeCurve(m), t, HOME_S) / 255.0)
  }

  /** The niggle's schedule: when the next tick may start, and when the present one ends. */
  datatype Schedule = Schedule(next: real, until: real)

  function Ticked(n: Schedule, niggles: bool, t: real): Schedule {
    if niggles && t >= n.next then Schedule(t + NIGGLE_PERIOD_S, t + NIGGLE_S) else n
  }

  /** `n` is the schedule after its tick. */
  function Home(m: Maths, n: Schedule, niggles: bool, t: real): Frame {
    if niggles && t < n.until then Solid(38.0, 1.0, if t < n.until - 0.18 then 0.55 else 0.10)
    else Breath(m, t)
  }

  method HomeFrame(m: Maths, n: Schedule, niggles: bool, t: real) returns (frame: Frame)
    ensures frame == Home(m, n, niggles, t)
  {
    if niggles {
      if t < n.until {
        var bright := t < n.until - 0.18;
        return Solid(38.0, 1.0, if bright then 0.55 else 0.10);
      }
    }
    frame := Breath(m, t);
  }

  function ScanTimings(ripperdoc: bool): (real, real) { if ripperdoc then (0.9, 0.3) else (1.6, 0.5) }

  function ScanAt(m: Maths, ripperdoc: bool, elapsed: real): Frame {
    var (lap, fade) := ScanTimings(ripperdoc);
    SampleFrames(Scan(m, lap, fade), elapsed, lap + fade)
  }

  method ScanShot(m: Maths, ripperdoc: bool, elapsed: real) returns (frame: Frame)
    ensures frame == ScanAt(m, ripperdoc, elapsed)
  {
    var (lap, fade) := ScanTimings(ripperdoc);
    var frames := ScanFrames(m, lap, fade);
    frame := SampleFrames(frames, elapsed, lap + fade);
  }

  function GlitchLen(): nat { Frames(GLITCH_S) + 1 }

  function GlitchAt(coins: nat -> bool, elapsed: real): Frame {
    if Pick(elapsed / GLITCH_S * GlitchLen() as real, GlitchLen()) >= GlitchLen() - 1
    then seq(LEDS, _ => BLACK)
    else seq(LEDS, i requires 0 <= i < LEDS => if coins(i) then Rgb(255.0, 0.0, 0.0) else Rgb(0.0, 255.0, 255.0))
  }

  lemma SolidDisplayable(h: real, s: real, v: real)
    requires h >= 0.0 && Unit(s) && Unit(v)
    ensures AllDisplayable(Solid(h, s, v))
  {
    HsvDisplayable(h, s, v);
  }

  lemma AlarmDisplayable(t: real)
    ensures AllDisplayable(Alarm(t))
  {
    SolidDisplayable(0.0, 0.0, 0.0);
    SolidDisplayable(0.0, 1.0, 1.0);
  }

  lemma MuteDisplayable(t: real)
    ensures AllDisplayable(Mute(t))
  {
    SolidDisplayable(0.0, 0.0, 0.0);
    SolidDisplayable(0.0, 0.0, 0.06);
  }

  lemma HurtsDisplayable(t: real)
    ensures AllDisplayable(Hurts(t))
  {
    var v := HURTS[Pick(Rem(t, HURTS_S) / HURTS_STEP_S, |HURTS|)];
    assert Unit(v);
    SolidDisplayable(0.0, 1.0, v);
  }

  lemma BusyDisplayable(m: Maths, t: real)
    requires Sane(m)
    ensures AllDisplayable(Busy(m, t))
  {
    BreathBetween(m, BUSY_PEAK, 2.4, 0.5, 3.4, 0.4);
    assert Between(BASE, SampleScalar(BusyCurve(m), t, BUSY_S), BUSY_PEAK);
    SolidDisplayable(45.0, 1.0, SampleScalar(BusyCurve(m), t, BUSY_S) / 255.0);
  }

  lemma HomeDisplayable(m: Maths, n: Schedule, niggles: bool, t: real)
    requires Sane(m)
    ensures AllDisplayable(Home(m, n, niggles, t))
  {
    BreathBetween(m, HOME_PEAK, 3.0, 0.8, 4.2, 0.5);
    assert Between(BASE, SampleScalar(HomeCurve(m), t, HOME_S), HOME_PEAK);
    SolidDisplayable(HomeHue(m, t), 1.0, SampleScalar(HomeCurve(m), t, HOME_S) / 255.0);
    SolidDisplayable(38.0, 1.0, 0.55);
    SolidDisplayable(38.0, 1.0, 0.10);
  }

  lemma GlitchDisplayable(coins: nat -> bool, elapsed: real)
    ensures AllDisplayable(GlitchAt(coins, elapsed))
  {
  }

  lemma ScanAtDisplayable(m: Maths, ripperdoc: bool, elapsed: real)
    requires Sane(m)
    ensures AllDisplayable(ScanAt(m, ripperdoc, elapsed))
  {
    var (lap, fade) := ScanTimings(ripperdoc);
    ScanDisplayable(m, lap, fade, SampleAt(elapsed, lap + fade, |Scan(m, lap, fade)|));
  }

  // ----- the lights, in numbers ----------------------------------------------------------------

  predicate AllAre(f: Frame, p: Rgb) { |f| == 24 && forall i :: 0 <= i < 24 ==> f[i] == p }

  /** n whole turns and x into the next. */
  lemma RemOfTurn(n: nat, x: real, turn: real, t: real)
    requires 0.0 <= x < turn && t == turn * n as real + x
    ensures Rem(t, turn) == x
  {
    var q, part := t / turn, x / turn;
    Part(x, turn, part);
    TurnsAndPart(n, x, turn, t);
    assert q == n as real + part;
    assert q.Floor == n;
    assert t >= 0.0 by { Product(turn, n as real); }
  }

  lemma TurnsAndPart(n: nat, x: real, turn: real, t: real)
    requires turn > 0.0 && t == turn * n as real + x
    ensures t / turn == n as real + x / turn
  {
    var part := x / turn;
    assert part * turn == x;
    assert (n as real + part) * turn == t;
  }

  lemma Red(v: real)
    ensures Hsv(0.0, 1.0, v) == Rgb(255.0 * v, 0.0, 0.0)
  {
    HsvIsTheHexcone(0.0, 1.0, v);
  }

  lemma White(v: real)
    ensures Hsv(0.0, 0.0, v) == Rgb(255.0 * v, 255.0 * v, 255.0 * v)
  {
    HsvIsTheHexcone(0.0, 0.0, v);
  }

  /** From red to yellow: green at a sixtieth of the hue. */
  lemma Amber(h: real, v: real)
    requires 0.0 <= h < 60.0
    ensures Hsv(h, 1.0, v) == Rgb(255.0 * v, 255.0 * v * (h / 60.0), 0.0)
  {
    HsvIsTheHexcone(h, 1.0, v);
  }

  /** From green to cyan. */
  lemma Green(h: real, v: real)
    requires 120.0 <= h < 180.0
    ensures Hsv(h, 1.0, v) == Rgb(0.0, 255.0 * v, 255.0 * v * ((h - 120.0) / 60.0))
  {
    HsvIsTheHexcone(h, 1.0, v);
  }

  lemma Mint(v: real)
    ensures Hsv(150.0, 0.7, v) == Rgb(255.0 * v * 0.3, 255.0 * v, 255.0 * v * 0.65)
  {
    HsvIsTheHexcone(150.0, 0.7, v);
  }

  /** Alarm, every 4.1 seconds: three flashes of full red, 0.4 on and 0.3 off, then black. */
  lemma AlarmLight(n: nat, x: real, t: real)
    requires 0.0 <= x < 4.1 && t == 4.1 * n as real + x
    ensures AllAre(Alarm(t),
                   if x < 0.4 || 0.7 <= x < 1.1 || 1.4 <= x < 1.8 then Rgb(255.0, 0.0, 0.0) else Rgb(0.0, 0.0, 0.0))
  {
    RemOfTurn(n, x, 4.1, t);
    Red(0.0);
    Red(1.0);
    if x < 2.1 {
      var k := if x < 0.7 then 0 else if x < 1.4 then 1 else 2;
      RemOfTurn(k, x - 0.7 * k as real, 0.7, x);
    }
  }

  /** Hurts, every 1.96 seconds: red alone, bright for 0.84 and dim for the rest. */
  lemma HurtsLight(n: nat, x: real, t: real)
    requires 0.0 <= x < 1.96 && t == 1.96 * n as real + x
    ensures AllAre(Hurts(t), if x < 0.84 then Rgb(216.75, 0.0, 0.0) else Rgb(45.9, 0.0, 0.0))
  {
    RemOfTurn(n, x, 1.96, t);
    Red(0.85);
    Red(0.18);
  }

  /** Mute, every 10 seconds: black, and a dim white for the last 0.4. */
  lemma MuteLight(n: nat, x: real, t: real)
    requires 0.0 <= x < 10.0 && t == 10.0 * n as real + x
    ensures AllAre(Mute(t), if x < 9.6 then Rgb(0.0, 0.0, 0.0) else Rgb(15.3, 15.3, 15.3))
  {
    RemOfTurn(n, x, 10.0, t);
    White(0.0);
    White(0.06);
  }

  /** A sequence at thirty frames a second, sampled x seconds into a turn. */
  lemma SampleOfTurn(n: nat, x: real, total: real, len: nat, t: real)
    requires 0.0 <= x < total && t == total * n as real + x && len > 0 && len as real == 30.0 * total
    ensures SampleAt(t, total, len) == (30.0 * x).Floor < len
  {
    RemOfTurn(n, x, total, t);
    var q := x / total;
    Part(x, total, q);
    PickInside(q, len);
    Scaled(q, len as real);
    Thirty(q, x, total);
  }

  lemma Thirty(q: real, x: real, total: real)
    requires total > 0.0 && q == x / total
    ensures q * (30.0 * total) == 30.0 * x
  {
    assert q * total == x;
  }

  /** The home breath, frame by frame: in over 3 seconds from 3 to 35, held for 0.8, out over 4.2,
      and 0.5 at rest. */
  function HomeLevel(m: Maths, i: nat): real {
    if i < 90 then 3.0 + 32.0 * m.swell(i as real / 90.0)
    else if i < 114 then 35.0
    else if i < 240 then 3.0 + 32.0 * m.ebb((i - 114) as real / 126.0)
    else 3.0
  }

  /** The busy breath: 2.4, 0.5, 3.4 and 0.4, up to 55. */
  function BusyLevel(m: Maths, i: nat): real {
    if i < 72 then 3.0 + 52.0 * m.swell(i as real / 72.0)
    else if i < 87 then 55.0
    else if i < 189 then 3.0 + 52.0 * m.ebb((i - 87) as real / 102.0)
    else 3.0
  }

  lemma HomeCurveIs(m: Maths)
    ensures |HomeCurve(m)| == 255 && forall i: nat :: i < 255 ==> HomeCurve(m)[i] == HomeLevel(m, i)
  {
    assert Frames(3.0) == 90 && Frames(0.8) == 24 && Frames(4.2) == 126 && Frames(0.5) == 15;
    BreathAt(m, 35.0, 3.0, 0.8, 4.2, 0.5);
  }

  lemma BusyCurveIs(m: Maths)
    ensures |BusyCurve(m)| == 201 && forall i: nat :: i < 201 ==> BusyCurve(m)[i] == BusyLevel(m, i)
  {
    assert Frames(2.4) == 72 && Frames(0.5) == 15 && Frames(3.4) == 102 && Frames(0.4) == 12;
    BreathAt(m, 55.0, 2.4, 0.5, 3.4, 0.4);
  }

  lemma BreathAt(m: Maths, peak: real, inhale: real, hold: real, exhale: real, rest: real)
    requires inhale >= 0.0 && hold >= 0.0 && exhale >= 0.0 && rest >= 0.0
    ensures var a, b, c := Frames(inhale), Frames(hold), Frames(exhale);
            var curve := BreathCurve(m, peak, inhale, hold, exhale, rest);
            && |curve| == a + b + c + Frames(rest)
            && (forall i: nat :: i < a ==> curve[i] == Level(peak - 3.0, m.swell(i as real / a as real)))
            && (forall i: nat :: a <= i < a + b ==> curve[i] == peak)
            && (forall i: nat :: a + b <= i < a + b + c ==>
                  curve[i] == Level(peak - 3.0, m.ebb((i - a - b) as real / c as real)))
            && (forall i: nat :: a + b + c <= i < |curve| ==> curve[i] == 3.0)
  {
  }

  /** Home, every 8.5 seconds: no red, the breath in green, and a share of it in blue that drifts
      with the minute between none and three quarters. */
  lemma BreathLight(m: Maths, n: nat, x: real, t: real, l: real, share: real)
    requires Sane(m) && 0.0 <= x < 8.5 && t == 8.5 * n as real + x
    requires l == HomeLevel(m, (30.0 * x).Floor) && share == 0.75 * (0.5 - 0.5 * m.cosine(t))
    ensures AllAre(Breath(m, t), Rgb(0.0, l, l * share))
  {
    HomeCurveIs(m);
    SampleOfTurn(n, x, 8.5, 255, t);
    assert SampleScalar(HomeCurve(m), t, HOME_S) == l;
    BreathIs(m, t, l, share);
  }

  lemma BreathIs(m: Maths, t: real, l: real, share: real)
    requires Sane(m) && SampleScalar(HomeCurve(m), t, HOME_S) == l && share == 0.75 * (0.5 - 0.5 * m.cosine(t))
    ensures AllAre(Breath(m, t), Rgb(0.0, l, l * share))
  {
    assert HomeHue(m, t) == 120.0 + 60.0 * share;
    GreenLevel(HomeHue(m, t), l, share);
  }

  lemma GreenLevel(hue: real, l: real, share: real)
    requires 0.0 <= share <= 0.75 && hue == 120.0 + 60.0 * share
    ensures Hsv(hue, 1.0, l / 255.0) == Rgb(0.0, l, l * share)
  {
    Green(hue, l / 255.0);
    assert (hue - 120.0) / 60.0 == share;
    assert 255.0 * (l / 255.0) == l;
  }

  lemma AmberLevel(l: real)
    ensures Hsv(45.0, 1.0, l / 255.0) == Rgb(l, 0.75 * l, 0.0)
  {
    Amber(45.0, l / 255.0);
  }

  /** Busy, every 6.7 seconds: the breath in amber. */
  lemma BusyLight(m: Maths, n: nat, x: real, t: real)
    requires 0.0 <= x < 6.7 && t == 6.7 * n as real + x
    ensures var l := BusyLevel(m, (30.0 * x).Floor); AllAre(Busy(m, t), Rgb(l, 0.75 * l, 0.0))
  {
    BusyCurveIs(m);
    SampleOfTurn(n, x, 6.7, 201, t);
    AmberLevel(BusyLevel(m, (30.0 * x).Floor));
  }

  /** A niggle that is due ticks for 0.36 seconds, amber, the first half bright, and is next due
      20 seconds after it began; what is not a tick is the breath. */
  lemma NiggleLight(m: Maths, n: Schedule, began: real, t: real)
    requires n.next <= began <= t
    ensures var s := Ticked(n, true, began);
            && s.next == began + 20.0
            && (t < began + 0.18 ==> AllAre(Home(m, s, true, t), Rgb(140.25, 88.825, 0.0)))
            && (began + 0.18 <= t < began + 0.36 ==> AllAre(Home(m, s, true, t), Rgb(25.5, 16.15, 0.0)))
            && (began + 0.36 <= t ==> Home(m, s, true, t) == Breath(m, t))
    ensures Ticked(n, false, t) == n && Home(m, n, false, t) == Breath(m, t)
  {
    Amber(38.0, 0.55);
    Amber(38.0, 0.10);
  }

  /** A niggle that is not due leaves its schedule alone. */
  lemma NotDue(n: Schedule, t: real)
    requires t < n.next
    ensures Ticked(n, true, t) == n
  {
  }

  /** One LED of a comet: d behind the head, some whole laps aside; black from 6 on. */
  lemma CometLight(m: Maths, head: real, amp: real, i: nat, laps: int, d: real)
    requires i < 24 && 0.0 <= d < 24.0 && head - i as real == 24.0 * laps as real + d
    ensures var e := m.decay(0.9 * d) * amp;
            Comet(m, head, amp)[i] == if d < 6.0 then Rgb(36.0 * e, 120.0 * e, 78.0 * e) else Rgb(0.0, 0.0, 0.0)
  {
    var x := head - i as real;
    assert (x / 24.0).Floor == laps;
    assert Around(x, 24.0) == d;
    var e := m.decay(d * 0.9);
    assert d * 0.9 == 0.9 * d;
    Mint(120.0 * e * amp / 255.0);
    CometShares(e, amp, 120.0 * e * amp / 255.0);
  }

  lemma CometShares(e: real, amp: real, v: real)
    requires v == 120.0 * e * amp / 255.0
    ensures 255.0 * v == 120.0 * (e * amp)
    ensures 255.0 * v * 0.3 == 36.0 * (e * amp) && 255.0 * v * 0.65 == 78.0 * (e * amp)
  {
    assert 120.0 * e * amp == 120.0 * (e * amp);
  }

  /** Frame k of a scan of so many frames. */
  lemma ScanFrame(m: Maths, lap: real, fade: real, lapN: nat, fadeN: nat, k: nat)
    requires lap >= 0.0 && fade >= 0.0 && Frames(lap) == lapN && Frames(fade) == fadeN && k < lapN + fadeN
    ensures Scan(m, lap, fade)[k] ==
              if k < lapN then Comet(m, Head(lapN, k), 1.0)
              else Comet(m, Head(lapN, lapN - 1), 1.0 - (k - lapN) as real / fadeN as real)
  {
    if k < lapN {
      assert Lap(m, lapN)[k] == LapFrame(m, lapN, k);
    } else {
      assert Fade(m, lapN, fadeN)[k - lapN] == FadeFrame(m, lapN, fadeN, k - lapN);
    }
  }

  lemma HeadIs(lapN: nat, k: nat, step: real)
    requires lapN > 0 && step == 24.0 / lapN as real
    ensures Head(lapN, k) == k as real * step
  {
  }

  /** A scan: one lap of the comet in 1.6 seconds, half an LED a frame, and 0.5 seconds of fade. */
  lemma SlowScanLight(m: Maths, x: real, k: nat, head: real)
    requires 0.0 <= x < 2.1 && k == (30.0 * x).Floor
    requires head == 0.5 * (if k < 48 then k else 47) as real
    ensures ScanAt(m, false, x) == Comet(m, head, if k < 48 then 1.0 else 1.0 - (k - 48) as real / 15.0)
  {
    var j: nat := if k < 48 then k else 47;
    SlowScanAt(m, x, k);
    ScanFrame(m, 1.6, 0.5, 48, 15, k);
    HeadIs(48, j, 0.5);
    assert Head(48, j) == head;
  }

  lemma SlowScanAt(m: Maths, x: real, k: nat)
    requires 0.0 <= x < 2.1 && k == (30.0 * x).Floor
    ensures Frames(1.6) == 48 && Frames(0.5) == 15 && k < 63
    ensures ScanAt(m, false, x) == Scan(m, 1.6, 0.5)[k]
  {
    SampleOfTurn(0, x, 2.1, 63, x);
  }

  /** With the console on, a lap in 0.9 and a fade in 0.3. */
  lemma FastScanLight(m: Maths, x: real, k: nat, head: real)
    requires 0.0 <= x < 1.2 && k == (30.0 * x).Floor
    requires head == 24.0 / 27.0 * (if k < 27 then k else 26) as real
    ensures ScanAt(m, true, x) == Comet(m, head, if k < 27 then 1.0 else 1.0 - (k - 27) as real / 9.0)
  {
    var j: nat := if k < 27 then k else 26;
    FastScanAt(m, x, k);
    ScanFrame(m, 0.9, 0.3, 27, 9, k);
    HeadIs(27, j, 24.0 / 27.0);
    assert Head(27, j) == head;
  }

  lemma FastScanAt(m: Maths, x: real, k: nat)
    requires 0.0 <= x < 1.2 && k == (30.0 * x).Floor
    ensures Frames(0.9) == 27 && Frames(0.3) == 9 && k < 36
    ensures ScanAt(m, true, x) == Scan(m, 0.9, 0.3)[k]
  {
    SampleOfTurn(0, x, 1.2, 36, x);
  }

  /** A glitch: nine tenths of it red or cyan by the coin, the last tenth black. */
  lemma GlitchLight(coins: nat -> bool, x: real)
    requires 0.0 <= x <= 0.3
    ensures |GlitchAt(coins, x)| == 24
    ensures forall i: nat :: i < 24 ==>
              GlitchAt(coins, x)[i] == if x >= 0.27 then Rgb(0.0, 0.0, 0.0)
                                       else if coins(i) then Rgb(255.0, 0.0, 0.0) else Rgb(0.0, 255.0, 255.0)
  {
    assert GlitchLen() == 10;
    var y := x / 0.3 * 10.0;
    assert y >= 9.0 <==> x >= 0.27;
  }
}
