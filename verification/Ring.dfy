/** The ring's renderer: which tell speaks, the one-shot record it holds, when the dither starts
    afresh, and the light that comes out.  The clock is a parameter; no property here needs it to
    move forward. */
module Ring {
  import opened Options
  import D = Dither
  import T = Tells

  datatype Cond = Well | Niggle | Hurts | Mute

  datatype Tell = Alarm | HurtsTell | MuteTell | Busy | Scan | Glitch | Home

  datatype Input = Input(cond: Cond, ringState: string, ripperdoc: bool)

  predicate IsShot(k: Tell) { k == Scan || k == Glitch }

  /** Highest first; a pending record plays only at home. */
  function PickTell(input: Input, pending: Option<Tell>): Tell {
    if input.ringState == "alarm" then Alarm
    else if input.cond == Hurts then HurtsTell
    else if input.cond == Mute then MuteTell
    else if input.ringState == "busy" then Busy
    else if input.ringState == "home" then pending.GetOr(Home)
    else Home
  }

  /** The full length of a record: a glitch, or a scan's lap and fade by the console flag. */
  function Length(kind: Tell, ripperdoc: bool): real {
    if kind == Glitch then T.GLITCH_S
    else var (lap, fade) := T.ScanTimings(ripperdoc); lap + fade
  }

  datatype Shot = Shot(kind: Tell, start: real)

  datatype RingState = RingState(tell: Option<Tell>, oneshot: Option<Shot>, seen: set<(string, real)>,
                                 niggle: T.Schedule)

  const SILENT := RingState(None, None, {}, T.Schedule(0.0, 0.0))

  function Pending(s: RingState): Option<Tell> {
    if s.oneshot.Some? then Some(s.oneshot.value.kind) else None
  }

  predicate IsRecord(word: string) { word == "scan" || word == "glitch" }

  /** The newest unseen record waits to play; it replaces, never queues. */
  function Noted(s: RingState, word: string, ts: real, t: real): RingState {
    if !IsRecord(word) || (word, ts) in s.seen then s else
    s.(seen := s.seen + {(word, ts)},
       oneshot := Some(Shot(if word == "glitch" then Glitch else Scan, t)))
  }

  predicate Spends(s: RingState, input: Input, t: real) {
    var kind := PickTell(input, Pending(s));
    s.oneshot.Some? && IsShot(kind) && t - s.oneshot.value.start > Length(kind, input.ripperdoc)
  }

  function Rendered(s: RingState, input: Input, t: real): RingState {
    var kind := PickTell(input, Pending(s));
    var spent := Spends(s, input, t);
    var oneshot :=
      if s.oneshot.None? || spent then None
      else if IsShot(kind) then s.oneshot
      else Some(s.oneshot.value.(start := t));
    var spoke := if spent then Home else kind;
    RingState(Some(spoke), oneshot, s.seen,
              if spoke == Home then T.Ticked(s.niggle, input.cond == Niggle, t) else s.niggle)
  }

  /** How each tell looks: the held ones by the clock, home by the niggle's schedule too, a record by
      the time it has played. */
  datatype Palette = Palette(
    alarm: real -> T.Frame, hurts: real -> T.Frame, mute: real -> T.Frame, busy: real -> T.Frame,
    home: (T.Schedule, bool, real) -> T.Frame, scan: (bool, real) -> T.Frame, glitch: real -> T.Frame)

  type Coins = nat -> bool

  /** The renderer's own, with the coins of one render. */
  function PaletteOf(m: T.Maths, coins: Coins): Palette {
    Palette(t => T.Alarm(t), t => T.Hurts(t), t => T.Mute(t), t => T.Busy(m, t),
            (n, niggles, t) => T.Home(m, n, niggles, t), (ripperdoc, elapsed) => T.ScanAt(m, ripperdoc, elapsed),
            elapsed => T.GlitchAt(coins, elapsed))
  }

  function ShotOf(p: Palette, kind: Tell, input: Input, elapsed: real): T.Frame {
    if kind == Scan then p.scan(input.ripperdoc, elapsed) else p.glitch(elapsed)
  }

  /** The frame of a tell that holds no record. */
  function HeldOf(p: Palette, kind: Tell, n: T.Schedule, input: Input, t: real): T.Frame {
    match kind
    case Alarm => p.alarm(t)
    case HurtsTell => p.hurts(t)
    case MuteTell => p.mute(t)
    case Busy => p.busy(t)
    case _ => p.home(n, input.cond == Niggle, t)
  }

  /** The frame a state speaks, once rendered. */
  function FrameOf(p: Palette, s: RingState, input: Input, t: real): T.Frame {
    var kind := s.tell.GetOr(Home);
    if IsShot(kind) && s.oneshot.Some? then ShotOf(p, kind, input, t - s.oneshot.value.start)
    else HeldOf(p, kind, s.niggle, input, t)
  }

  class Renderer {
    var tell: Option<Tell>
    var oneshot: Option<Shot>
    var seen: set<(string, real)>
    var niggle: T.Schedule
    var dither: D.Dither

    ghost function State(): RingState
      reads this
    {
      RingState(tell, oneshot, seen, niggle)
    }

    ghost predicate Valid()
      reads this
    {
      dither.Valid()
    }

    constructor ()
      ensures Valid() && fresh(dither) && fresh(dither.acc)
      ensures State() == SILENT
    {
      tell, oneshot, seen, niggle := None, None, {}, T.Schedule(0.0, 0.0);
      dither := new D.Dither();
    }

    method NoteOneshot(word: string, ts: real, t: real)
      modifies this
      ensures State() == Noted(old(State()), word, ts, t)
      ensures dither == old(dither)
    {
      if word != "scan" && word != "glitch" {
        return;
      }
      if (word, ts) in seen {
        return;
      }
      seen := seen + {(word, ts)};
      var kind := if word == "glitch" then Glitch else Scan;
      oneshot := Some(Shot(kind, t));
    }

    method HomeFrame(input: Input, t: real, p: Palette) returns (frame: T.Frame)
      modifies this`niggle
      ensures niggle == T.Ticked(old(niggle), input.cond == Niggle, t)
      ensures frame == p.home(niggle, input.cond == Niggle, t)
    {
      if input.cond == Niggle {
        if t >= niggle.next {
          niggle := T.Schedule(t + T.NIGGLE_PERIOD_S, t + T.NIGGLE_S);
        }
      }
      frame := p.home(niggle, input.cond == Niggle, t);
    }

    /** None when the record is spent by now, or there is none. */
    method ScanFrame(input: Input, t: real, p: Palette) returns (frame: Option<T.Frame>)
      modifies this`oneshot
      ensures oneshot == if old(oneshot).Some? && t - old(oneshot).value.start > Length(Scan, input.ripperdoc)
                         then None else old(oneshot)
      ensures frame == if oneshot.None? then None else Some(p.scan(input.ripperdoc, t - oneshot.value.start))
    {
      if oneshot.None? {
        return None;
      }
      var (lap, fade) := T.ScanTimings(input.ripperdoc);
      var total := lap + fade;
      var elapsed := t - oneshot.value.start;
      if elapsed > total {
        oneshot := None;
        return None;
      }
      return Some(p.scan(input.ripperdoc, elapsed));
    }

    method GlitchFrame(t: real, p: Palette) returns (frame: Option<T.Frame>)
      modifies this`oneshot
      ensures oneshot == if old(oneshot).Some? && t - old(oneshot).value.start > Length(Glitch, false)
                         then None else old(oneshot)
      ensures frame == if oneshot.None? then None else Some(p.glitch(t - oneshot.value.start))
    {
      if oneshot.None? {
        return None;
      }
      var elapsed := t - oneshot.value.start;
      if elapsed > T.GLITCH_S {
        oneshot := None;
        return None;
      }
      return Some(p.glitch(elapsed));
    }

    /** The tell that speaks, and its frame. */
    method Decide(input: Input, t: real, p: Palette) returns (spoke: Tell, frame: T.Frame)
      modifies this`oneshot, this`niggle
      ensures State().(tell := Some(spoke)) == Rendered(old(State()), input, t)
      ensures frame == FrameOf(p, State().(tell := Some(spoke)), input, t)
    {
      var kind := PickTell(input, if oneshot.Some? then Some(oneshot.value.kind) else None);
      if oneshot.Some? && kind != Scan && kind != Glitch {
        oneshot := Some(oneshot.value.(start := t));
      }
      var shot: Option<T.Frame> := None;
      match kind {
        case Alarm => frame := p.alarm(t);
        case HurtsTell => frame := p.hurts(t);
        case MuteTell => frame := p.mute(t);
        case Busy => frame := p.busy(t);
        case Scan => shot := ScanFrame(input, t, p);
        case Glitch => shot := GlitchFrame(t, p);
        case Home =>
      }
      if shot.Some? {
        frame := shot.value;
      } else if kind == Scan || kind == Glitch || kind == Home {
        frame := HomeFrame(input, t, p);
      }
      spoke := if (kind == Scan || kind == Glitch) && oneshot.None? then Home else kind;
    }

    /** The error accumulators are the old ones exactly while the same tell goes on speaking. */
    method Render(input: Input, t: real, p: Palette) returns (spoke: Tell, rgb: seq<int>)
      requires Valid()
      modifies this, dither.acc
      ensures Valid()
      ensures State() == Rendered(old(State()), input, t) && tell == Some(spoke)
      ensures if old(tell) == Some(spoke) then dither == old(dither) else fresh(dither) && fresh(dither.acc)
      ensures |rgb| == D.BYTES
      ensures var frame := FrameOf(p, State(), input, t);
              forall i, ch :: 0 <= i < D.LEDS && 0 <= ch < 3 ==>
                D.Code(rgb, i, ch) ==
                  if i >= |frame| then 0
                  else D.Put(if old(tell) == Some(spoke) then old(dither.acc[i, ch]) else 0.0, frame[i].Channel(ch))
      ensures var frame := FrameOf(p, State(), input, t);
              forall i, ch :: 0 <= i < D.LEDS && 0 <= ch < 3 && i < |frame| ==>
                dither.acc[i, ch] ==
                  D.Kept(if old(tell) == Some(spoke) then old(dither.acc[i, ch]) else 0.0, frame[i].Channel(ch))
    {
      var frame: T.Frame;
      spoke, frame := Decide(input, t, p);
      if tell != Some(spoke) {
        tell := Some(spoke);
        dither := new D.Dither();
      }
      rgb := dither.Render(frame);
    }
  }

  // ----- one render -----------------------------------------------------------------------

  predicate HigherTell(input: Input) { input.cond == Hurts || input.cond == Mute }

  /** The ring is free for a record: the state word is "home" and nothing higher holds it. */
  predicate Open(input: Input) { input.ringState == "home" && !HigherTell(input) }

  predicate WellKept(s: RingState) { s.oneshot.Some? ==> IsShot(s.oneshot.value.kind) }

  /** A record plays exactly when one is pending, the ring is open and its length is not over. */
  lemma PlaysExactlyWhen(s: RingState, input: Input, t: real)
    requires WellKept(s)
    ensures var spoke := Rendered(s, input, t).tell.value;
            IsShot(spoke) <==>
              s.oneshot.Some? && Open(input)
              && t - s.oneshot.value.start <= Length(s.oneshot.value.kind, input.ripperdoc)
    ensures IsShot(Rendered(s, input, t).tell.value) ==>
              Rendered(s, input, t).tell.value == s.oneshot.value.kind
  {
  }

  /** A gated record is kept, whatever the clock says, and its length starts again. */
  lemma GatedIsKept(s: RingState, input: Input, t: real)
    requires WellKept(s) && s.oneshot.Some? && !Open(input)
    ensures Rendered(s, input, t).oneshot == Some(Shot(s.oneshot.value.kind, t))
  {
  }

  // ----- a whole run -----------------------------------------------------------------------

  datatype Event =
    | Note(word: string, ts: real, t: real)
    | Render(input: Input, t: real, palette: Palette)

  function Step(s: RingState, e: Event): RingState {
    match e
    case Note(word, ts, t) => Noted(s, word, ts, t)
    case Render(input, t, _) => Rendered(s, input, t)
  }

  function Run(es: seq<Event>): RingState {
    if es == [] then SILENT else Step(Run(es[..|es| - 1]), es[|es| - 1])
  }

  /** The note at index i is the first of its (kind, timestamp). */
  ghost predicate FirstOfItsKind(es: seq<Event>, i: nat)
    requires i < |es|
  {
    && es[i].Note? && IsRecord(es[i].word)
    && forall j :: 0 <= j < i && es[j].Note? ==> (es[j].word, es[j].ts) != (es[i].word, es[i].ts)
  }

  /** It is accepted: it becomes the held record. */
  predicate Accepted(s: RingState, e: Event) {
    e.Note? && IsRecord(e.word) && (e.word, e.ts) !in s.seen
  }

  lemma {:induction false} SeenIsHistory(es: seq<Event>, key: (string, real))
    ensures key in Run(es).seen <==>
            exists j :: 0 <= j < |es| && es[j].Note? && (es[j].word, es[j].ts) == key && IsRecord(es[j].word)
    ensures WellKept(Run(es))
  {
    if es != [] {
      var n := |es| - 1;
      SeenIsHistory(es[..n], key);
      var s := Run(es[..n]);
      if key in s.seen {
        var j :| 0 <= j < n && es[..n][j].Note? && (es[..n][j].word, es[..n][j].ts) == key && IsRecord(es[..n][j].word);
        assert es[j] == es[..n][j];
      }
      forall j | 0 <= j < n ensures es[j] == es[..n][j] { }
    }
  }

  /** Over a whole run a (kind, timestamp) is accepted at its first note and never again. */
  lemma AcceptedExactlyOnce(es: seq<Event>, i: nat)
    requires i < |es| && es[i].Note? && IsRecord(es[i].word)
    ensures Accepted(Run(es[..i]), es[i]) <==> FirstOfItsKind(es, i)
    ensures forall j: nat :: j < |es| && j != i && es[j].Note? && (es[j].word, es[j].ts) == (es[i].word, es[i].ts) ==>
              !(Accepted(Run(es[..i]), es[i]) && Accepted(Run(es[..j]), es[j]))
  {
    FirstIsAccepted(es, i);
    forall j: nat | j < |es| && j != i && es[j].Note? && (es[j].word, es[j].ts) == (es[i].word, es[i].ts)
      ensures !(Accepted(Run(es[..i]), es[i]) && Accepted(Run(es[..j]), es[j]))
    {
      FirstIsAccepted(es, j);
    }
  }

  lemma FirstIsAccepted(es: seq<Event>, i: nat)
    requires i < |es| && es[i].Note? && IsRecord(es[i].word)
    ensures Accepted(Run(es[..i]), es[i]) <==> FirstOfItsKind(es, i)
  {
    var key := (es[i].word, es[i].ts);
    SeenIsHistory(es[..i], key);
    forall j | 0 <= j < i ensures es[..i][j] == es[j] { }
    if key in Run(es[..i]).seen {
      var j :| 0 <= j < i && es[..i][j].Note? && (es[..i][j].word, es[..i][j].ts) == key && IsRecord(es[..i][j].word);
      assert es[j] == es[..i][j];
    }
  }

  /** An event a record's length is counted from: an accepted note, or a gated render. */
  ghost predicate Anchors(es: seq<Event>, i: nat)
    requires i < |es|
  {
    FirstOfItsKind(es, i) || (es[i].Render? && !Open(es[i].input))
  }

  /** The last of them, by index; |es| if there is none. */
  ghost function LastAnchor(es: seq<Event>): nat {
    if es == [] then 0
    else if Anchors(es, |es| - 1) then |es| - 1
    else if LastAnchor(es[..|es| - 1]) == |es| - 1 then |es|
    else LastAnchor(es[..|es| - 1])
  }

  lemma {:induction false} LastAnchorIsLast(es: seq<Event>)
    ensures LastAnchor(es) <= |es|
    ensures LastAnchor(es) < |es| ==> Anchors(es, LastAnchor(es))
    ensures forall j: nat :: LastAnchor(es) < j < |es| ==> !Anchors(es, j)
    ensures LastAnchor(es) == |es| ==> forall j: nat :: j < |es| ==> !Anchors(es, j)
  {
    if es != [] {
      var n := |es| - 1;
      LastAnchorIsLast(es[..n]);
      forall j: nat | j < n ensures Anchors(es, j) <==> Anchors(es[..n], j) {
        AnchorsInPrefix(es, n, j);
      }
    }
  }

  lemma AnchorsInPrefix(es: seq<Event>, n: nat, j: nat)
    requires j < n <= |es|
    ensures Anchors(es[..n], j) <==> Anchors(es, j)
  {
    forall i | 0 <= i <= j ensures es[..n][i] == es[i] { }
  }

  /** The held record's clock, from the history alone: it started at the last accepted note or
      gated render, whichever came last. */
  lemma {:induction false} StartIsLastAnchor(es: seq<Event>)
    ensures var s := Run(es);
            s.oneshot.Some? ==>
              LastAnchor(es) < |es| && s.oneshot.value.start == es[LastAnchor(es)].t
  {
    if es != [] {
      var n := |es| - 1;
      StartIsLastAnchor(es[..n]);
      SeenIsHistory(es[..n], ("", 0.0));
      LastAnchorIsLast(es[..n]);
      if es[n].Note? && IsRecord(es[n].word) {
        FirstIsAccepted(es, n);
      }
      if LastAnchor(es[..n]) < n {
        assert es[..n][LastAnchor(es[..n])] == es[LastAnchor(es[..n])];
      }
    }
  }

  /** A render spends the record exactly when the ring is open, a record is held, and more than
      its full length has passed since the last accepted note or gated render. */
  lemma SpentExactlyWhen(es: seq<Event>, input: Input, t: real)
    ensures var s := Run(es);
            Spends(s, input, t) <==>
              && s.oneshot.Some? && Open(input) && LastAnchor(es) < |es|
              && t - es[LastAnchor(es)].t > Length(s.oneshot.value.kind, input.ripperdoc)
  {
    StartIsLastAnchor(es);
    SeenIsHistory(es, ("", 0.0));
  }

  // ----- the niggle -----------------------------------------------------------------------

  /** The render starts a niggle's tick. */
  predicate Ticks(s: RingState, e: Event) {
    e.Render? && Rendered(s, e.input, e.t).tell == Some(Home) && e.input.cond == Niggle && e.t >= s.niggle.next
  }

  function TickTimes(es: seq<Event>): seq<real> {
    if es == [] then [] else
    var before, e := es[..|es| - 1], es[|es| - 1];
    if Ticks(Run(before), e) then TickTimes(before) + [e.t] else TickTimes(before)
  }

  /** Ticks start at least twenty seconds apart, whatever speaks in between. */
  lemma {:induction false} TicksAreRare(es: seq<Event>)
    ensures var times := TickTimes(es);
            && Run(es).niggle.next == (if times == [] then 0.0 else times[|times| - 1] + 20.0)
            && forall k :: 0 < k < |times| ==> times[k] - times[k - 1] >= 20.0
  {
    if es != [] {
      TicksAreRare(es[..|es| - 1]);
    }
  }

  // ----- the light ------------------------------------------------------------------------

  /** A palette whose every frame is within the codes. */
  ghost predicate Bright(p: Palette) {
    && (forall t :: T.AllDisplayable(p.alarm(t))) && (forall t :: T.AllDisplayable(p.hurts(t)))
    && (forall t :: T.AllDisplayable(p.mute(t))) && (forall t :: T.AllDisplayable(p.busy(t)))
    && (forall n, niggles, t :: T.AllDisplayable(p.home(n, niggles, t)))
    && (forall ripperdoc, elapsed :: T.AllDisplayable(p.scan(ripperdoc, elapsed)))
    && (forall elapsed :: T.AllDisplayable(p.glitch(elapsed)))
  }

  /** The renderer's own palette is one, at clock readings of either sign and whatever the coins. */
  lemma PaletteIsBright(m: T.Maths, coins: Coins)
    requires T.Sane(m)
    ensures Bright(PaletteOf(m, coins))
  {
    HeldIsBright(m, coins);
    var p := PaletteOf(m, coins);
    forall n, niggles, t ensures T.AllDisplayable(p.home(n, niggles, t)) { T.HomeDisplayable(m, n, niggles, t); }
    forall ripperdoc, elapsed ensures T.AllDisplayable(p.scan(ripperdoc, elapsed)) {
      T.ScanAtDisplayable(m, ripperdoc, elapsed);
    }
    forall elapsed ensures T.AllDisplayable(p.glitch(elapsed)) { T.GlitchDisplayable(coins, elapsed); }
  }

  lemma HeldIsBright(m: T.Maths, coins: Coins)
    requires T.Sane(m)
    ensures var p := PaletteOf(m, coins);
            && (forall t :: T.AllDisplayable(p.alarm(t))) && (forall t :: T.AllDisplayable(p.hurts(t)))
            && (forall t :: T.AllDisplayable(p.mute(t))) && (forall t :: T.AllDisplayable(p.busy(t)))
  {
    var p := PaletteOf(m, coins);
    forall t ensures T.AllDisplayable(p.alarm(t)) { T.AlarmDisplayable(t); }
    forall t ensures T.AllDisplayable(p.hurts(t)) { T.HurtsDisplayable(t); }
    forall t ensures T.AllDisplayable(p.mute(t)) { T.MuteDisplayable(t); }
    forall t ensures T.AllDisplayable(p.busy(t)) { T.BusyDisplayable(m, t); }
  }

  /** Whatever speaks, at whatever clock reading, every channel of its frame is within the codes. */
  lemma EveryFrameIsDisplayable(m: T.Maths, coins: Coins, s: RingState, input: Input, t: real)
    requires T.Sane(m)
    ensures T.AllDisplayable(FrameOf(PaletteOf(m, coins), s, input, t))
  {
    PaletteIsBright(m, coins);
    FrameIsBright(PaletteOf(m, coins), s, input, t);
  }

  lemma FrameIsBright(p: Palette, s: RingState, input: Input, t: real)
    requires Bright(p)
    ensures T.AllDisplayable(FrameOf(p, s, input, t))
  {
  }

  lemma ChannelInRange(p: Palette, s: RingState, input: Input, t: real, i: nat, ch: nat)
    requires Bright(p) && i < D.LEDS && ch < 3
    ensures |FrameOf(p, s, input, t)| == D.LEDS
    ensures D.InRange(FrameOf(p, s, input, t)[i].Channel(ch))
  {
    FrameIsBright(p, s, input, t);
    assert D.Displayable(FrameOf(p, s, input, t)[i]);
  }

  /** One channel: its remainder, and since the tell that speaks began the light asked for and the
      codes put out; and whether the clamp ever cut a code. */
  datatype Lamp = Lamp(acc: real, asked: real, shown: int, cut: bool)

  const DARK := Lamp(0.0, 0.0, 0, false)

  function Lit(lamp: Lamp, val: real): Lamp {
    Lamp(D.Kept(lamp.acc, val), lamp.asked + val, lamp.shown + D.Put(lamp.acc, val),
         lamp.cut || D.Put(lamp.acc, val) != D.Trunc(lamp.acc + val))
  }

  /** What the channel goes on from: its own remainder, or a fresh dither's. */
  function Base(lamp: Lamp, s: RingState, s': RingState): Lamp {
    if s.tell == s'.tell then lamp else DARK.(cut := lamp.cut)
  }

  function LampOf(es: seq<Event>, i: nat, ch: nat): Lamp
    requires i < D.LEDS && ch < 3
  {
    if es == [] then DARK else
    var before := es[..|es| - 1];
    match es[|es| - 1]
    case Note(_, _, _) => LampOf(before, i, ch)
    case Render(input, t, palette) =>
      var base := Base(LampOf(before, i, ch), Run(before), Run(es));
      var frame := FrameOf(palette, Run(es), input, t);
      if i < |frame| then Lit(base, frame[i].Channel(ch)) else base
  }

  predicate Conserves(lamp: Lamp) {
    0.0 <= lamp.acc < 1.0 && lamp.shown as real + lamp.acc == lamp.asked && !lamp.cut
  }

  lemma LitConserves(lamp: Lamp, val: real)
    requires Conserves(lamp) && D.InRange(val)
    ensures Conserves(Lit(lamp, val))
  {
    D.OneValue(lamp.acc, val);
  }

  /** Over every run of notes and renders, with the records, gates and resets that come of it: the
      clamp never cuts a code, and since the present tell began to speak each channel has put out
      the light asked of it but for a remainder under one code. */
  lemma {:induction false} BrightRunsConserveLight(es: seq<Event>, i: nat, ch: nat)
    requires i < D.LEDS && ch < 3 && forall e :: e in es && e.Render? ==> Bright(e.palette)
    ensures Conserves(LampOf(es, i, ch))
  {
    if es != [] {
      var before, e := es[..|es| - 1], es[|es| - 1];
      assert e in es && forall q :: q in before ==> q in es;
      BrightRunsConserveLight(before, i, ch);
      if e.Render? {
        ChannelInRange(e.palette, Run(es), e.input, e.t, i, ch);
        LitConserves(Base(LampOf(before, i, ch), Run(before), Run(es)),
                     FrameOf(e.palette, Run(es), e.input, e.t)[i].Channel(ch));
      }
    }
  }

  ghost predicate Own(m: T.Maths, p: Palette) { exists coins :: p == PaletteOf(m, coins) }

  lemma RunConservesLight(m: T.Maths, es: seq<Event>, i: nat, ch: nat)
    requires T.Sane(m) && i < D.LEDS && ch < 3 && forall e :: e in es && e.Render? ==> Own(m, e.palette)
    ensures Conserves(LampOf(es, i, ch))
  {
    forall e | e in es && e.Render? ensures Bright(e.palette) {
      var coins :| e.palette == PaletteOf(m, coins);
      PaletteIsBright(m, coins);
    }
    BrightRunsConserveLight(es, i, ch);
  }

  // ----- the ladder ---------------------------------------------------------------------------

  /** After any history, which tell speaks: alarm before hurts before mute before busy before a
      record that is not over, and otherwise home. */
  lemma SpokenLadder(es: seq<Event>, input: Input, t: real)
    ensures var spoke := Rendered(Run(es), input, t).tell.value;
            && (spoke == Alarm <==> input.ringState == "alarm")
            && (spoke == HurtsTell <==> input.ringState != "alarm" && input.cond == Hurts)
            && (spoke == MuteTell <==> input.ringState != "alarm" && input.cond == Mute)
            && (spoke == Busy <==> input.ringState == "busy" && input.cond != Hurts && input.cond != Mute)
    ensures var spoke, shot := Rendered(Run(es), input, t).tell.value, Run(es).oneshot;
            var free := input.ringState == "home" && input.cond != Hurts && input.cond != Mute;
            && (spoke == Glitch <==> free && shot.Some? && shot.value.kind == Glitch && t - shot.value.start <= 0.3)
            && (spoke == Scan <==> free && shot.Some? && shot.value.kind == Scan
                                   && t - shot.value.start <= if input.ripperdoc then 1.2 else 2.1)
  {
    SeenIsHistory(es, ("", 0.0));
  }

  /** The last note that was accepted. */
  ghost function LastAccepted(es: seq<Event>): Option<nat> {
    if es == [] then None
    else if FirstOfItsKind(es, |es| - 1) then Some(|es| - 1)
    else LastAccepted(es[..|es| - 1])
  }

  lemma {:induction false} LastAcceptedIsOne(es: seq<Event>)
    ensures var n := LastAccepted(es); n.Some? ==> n.value < |es| && FirstOfItsKind(es, n.value)
  {
    if es != [] {
      var before := es[..|es| - 1];
      LastAcceptedIsOne(before);
      if LastAccepted(before).Some? {
        var i := LastAccepted(before).value;
        forall j | 0 <= j <= i ensures before[j] == es[j] { }
      }
    }
  }

  /** A held record is the last note accepted, and is what its word says. */
  lemma {:induction false} HeldIsTheLastAccepted(es: seq<Event>)
    ensures var shot, n := Run(es).oneshot, LastAccepted(es);
            shot.Some? ==>
              && n.Some? && n.value < |es| && es[n.value].Note?
              && (es[n.value].word == "scan" || es[n.value].word == "glitch")
              && (shot.value.kind == Scan <==> es[n.value].word == "scan")
              && (shot.value.kind == Glitch <==> es[n.value].word == "glitch")
  {
    if es != [] {
      var n := |es| - 1;
      HeldIsTheLastAccepted(es[..n]);
      LastAcceptedIsOne(es);
      if es[n].Note? && IsRecord(es[n].word) { FirstIsAccepted(es, n); }
    }
  }

  // ----- what is seen ---------------------------------------------------------------------------

  function Shown(p: Palette, es: seq<Event>, input: Input, t: real): T.Frame {
    FrameOf(p, Rendered(Run(es), input, t), input, t)
  }

  /** Which frame of a palette is seen, after any history. */
  lemma HeldIsShown(p: Palette, es: seq<Event>, input: Input, t: real)
    ensures input.ringState == "alarm" ==> Shown(p, es, input, t) == p.alarm(t)
    ensures input.ringState != "alarm" && input.cond == Hurts ==> Shown(p, es, input, t) == p.hurts(t)
    ensures input.ringState != "alarm" && input.cond == Mute ==> Shown(p, es, input, t) == p.mute(t)
    ensures input.ringState == "busy" && input.cond != Hurts && input.cond != Mute ==>
              Shown(p, es, input, t) == p.busy(t)
    ensures input.ringState !in ["alarm", "busy"] && input.cond == Well
            && (Run(es).oneshot.None? || input.ringState != "home") ==>
              Shown(p, es, input, t) == p.home(Run(es).niggle, false, t)
    ensures input.ringState !in ["alarm", "busy"] && input.cond == Niggle
            && (Run(es).oneshot.None? || input.ringState != "home") ==>
              Shown(p, es, input, t) == p.home(T.Ticked(Run(es).niggle, true, t), true, t)
  {
    SpokenLadder(es, input, t);
    SeenIsHistory(es, ("", 0.0));
  }

  lemma PlayingFrame(p: Palette, s: RingState, input: Input, t: real, since: real)
    requires WellKept(s) && IsShot(Rendered(s, input, t).tell.value)
    requires s.oneshot.Some? ==> s.oneshot.value.start == since
    ensures s.oneshot.Some?
    ensures var spoke, frame := Rendered(s, input, t).tell.value, FrameOf(p, Rendered(s, input, t), input, t);
            && (spoke == Scan ==> frame == p.scan(input.ripperdoc, t - since))
            && (spoke == Glitch ==> frame == p.glitch(t - since))
  {
    PlaysExactlyWhen(s, input, t);
    assert Rendered(s, input, t).oneshot == s.oneshot;
  }

  lemma HeldSince(es: seq<Event>)
    ensures WellKept(Run(es))
    ensures var shot := Run(es).oneshot;
            shot.Some? ==> LastAnchor(es) < |es| && shot.value.start == es[LastAnchor(es)].t
  {
    SeenIsHistory(es, ("", 0.0));
    StartIsLastAnchor(es);
  }

  /** A record that plays is shown from where its length is counted. */
  lemma ShotIsShown(p: Palette, es: seq<Event>, input: Input, t: real, since: real)
    requires IsShot(Rendered(Run(es), input, t).tell.value)
    requires LastAnchor(es) < |es| ==> since == es[LastAnchor(es)].t
    ensures LastAnchor(es) < |es|
    ensures var spoke, frame := Rendered(Run(es), input, t).tell.value, Shown(p, es, input, t);
            && (spoke == Scan ==> frame == p.scan(input.ripperdoc, t - since))
            && (spoke == Glitch ==> frame == p.glitch(t - since))
  {
    HeldSince(es);
    PlaysExactlyWhen(Run(es), input, t);
    PlayingFrame(p, Run(es), input, t, since);
  }

  /** In a state of alarm, whatever else holds: full red in three flashes of 0.4 every 4.1 seconds,
      and black. */
  lemma AlarmIsShown(m: T.Maths, coins: Coins, es: seq<Event>, input: Input, n: nat, x: real, t: real)
    requires input.ringState == "alarm" && 0.0 <= x < 4.1 && t == 4.1 * n as real + x
    ensures T.AllAre(Shown(PaletteOf(m, coins), es, input, t),
                     if x < 0.4 || 0.7 <= x < 1.1 || 1.4 <= x < 1.8 then D.Rgb(255.0, 0.0, 0.0) else D.Rgb(0.0, 0.0, 0.0))
  {
    HeldIsShown(PaletteOf(m, coins), es, input, t);
    T.AlarmLight(n, x, t);
  }

  /** Hurt and not in alarm: red alone, 216.75 for 0.84 seconds of every 1.96 and 45.9 for the rest. */
  lemma HurtsIsShown(m: T.Maths, coins: Coins, es: seq<Event>, input: Input, n: nat, x: real, t: real)
    requires input.ringState != "alarm" && input.cond == Hurts && 0.0 <= x < 1.96 && t == 1.96 * n as real + x
    ensures T.AllAre(Shown(PaletteOf(m, coins), es, input, t),
                     if x < 0.84 then D.Rgb(216.75, 0.0, 0.0) else D.Rgb(45.9, 0.0, 0.0))
  {
    HeldIsShown(PaletteOf(m, coins), es, input, t);
    T.HurtsLight(n, x, t);
  }

  /** Mute and not in alarm: black, and a dim white for the last 0.4 of every 10 seconds. */
  lemma MuteIsShown(m: T.Maths, coins: Coins, es: seq<Event>, input: Input, n: nat, x: real, t: real)
    requires input.ringState != "alarm" && input.cond == Mute && 0.0 <= x < 10.0 && t == 10.0 * n as real + x
    ensures T.AllAre(Shown(PaletteOf(m, coins), es, input, t),
                     if x < 9.6 then D.Rgb(0.0, 0.0, 0.0) else D.Rgb(15.3, 15.3, 15.3))
  {
    HeldIsShown(PaletteOf(m, coins), es, input, t);
    T.MuteLight(n, x, t);
  }

  /** Busy and neither hurt nor mute: the busy breath in amber. */
  lemma BusyIsShown(m: T.Maths, coins: Coins, es: seq<Event>, input: Input, n: nat, x: real, t: real)
    requires input.ringState == "busy" && input.cond != Hurts && input.cond != Mute
    requires 0.0 <= x < 6.7 && t == 6.7 * n as real + x
    ensures var l := T.BusyLevel(m, (30.0 * x).Floor);
            T.AllAre(Shown(PaletteOf(m, coins), es, input, t), D.Rgb(l, 0.75 * l, 0.0))
  {
    HeldIsShown(PaletteOf(m, coins), es, input, t);
    T.BusyLight(m, n, x, t);
  }

  /** Well, with no record to play and nothing to do: the home breath. */
  lemma HomeIsShown(m: T.Maths, coins: Coins, es: seq<Event>, input: Input, n: nat, x: real, t: real, l: real, share: real)
    requires T.Sane(m) && input.cond == Well && input.ringState !in ["alarm", "busy"]
    requires Run(es).oneshot.None? || input.ringState != "home"
    requires 0.0 <= x < 8.5 && t == 8.5 * n as real + x
    requires l == T.HomeLevel(m, (30.0 * x).Floor) && share == 0.75 * (0.5 - 0.5 * m.cosine(t))
    ensures T.AllAre(Shown(PaletteOf(m, coins), es, input, t), D.Rgb(0.0, l, l * share))
  {
    HeldIsShown(PaletteOf(m, coins), es, input, t);
    T.BreathLight(m, n, x, t, l, share);
  }
}
