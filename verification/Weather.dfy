/** The air: what the weather daemon measured, when it is news, and how far the cortex may lag. */
module Weather {
  import opened Options
  import opened Wire
  import opened CortexState

  /** Half the sensors' 0.1 step. */
  const STEP := 0.05

  function Distance(a: real, b: real): real { if a < b then b - a else a - b }

  predicate Moved(a: real, b: real) { Distance(a, b) >= STEP }

  /** A first reading is always news; a later one when it moved from the last published number. */
  predicate IsNews(x: real, sent: Option<real>) { sent.None? || Moved(x, sent.value) }

  datatype AirState = AirState(tempC: Option<real>, humPct: Option<real>, baroC: Option<real>,
                               pressureHpa: Option<real>, ts: Option<real>, count: nat,
                               tempSent: Option<real>, humSent: Option<real>, presSent: Option<real>)

  const STILL := AirState(None, None, None, None, None, 0, None, None, None)

  function AfterDht(a: AirState, tempC: real, humPct: real, ts: real): (AirState, seq<WeatherMsg>) {
    var tempNews, humNews := IsNews(tempC, a.tempSent), IsNews(humPct, a.humSent);
    var b := a.(count := a.count + 1, tempC := Some(tempC), humPct := Some(humPct));
    if !tempNews && !humNews then (b, []) else
    (b.(tempSent := if tempNews then Some(tempC) else a.tempSent,
        humSent := if humNews then Some(humPct) else a.humSent, ts := Some(ts)),
     [NO_WEATHER.(ts := Some(ts), count := Some(b.count),
                  tempC := if tempNews then Some(tempC) else None,
                  humPct := if humNews then Some(humPct) else None)])
  }

  function AfterBaro(a: AirState, baroC: real, hpa: real, ts: real): (AirState, seq<WeatherMsg>) {
    var b := a.(baroC := Some(baroC), pressureHpa := Some(hpa));
    if !IsNews(hpa, a.presSent) then (b, []) else
    (b.(presSent := Some(hpa), ts := Some(ts)),
     [NO_WEATHER.(pressureHpa := Some(hpa), ts := Some(ts), count := if a.count > 0 then Some(a.count) else None)])
  }

  class Air {
    var tempC: Option<real>
    var humPct: Option<real>
    var baroC: Option<real>
    var pressureHpa: Option<real>
    var ts: Option<real>
    var count: nat
    var tempSent: Option<real>
    var humSent: Option<real>
    var presSent: Option<real>

    ghost function State(): AirState
      reads this
    {
      AirState(tempC, humPct, baroC, pressureHpa, ts, count, tempSent, humSent, presSent)
    }

    constructor ()
      ensures State() == STILL
    {
      tempC, humPct, baroC, pressureHpa, ts, count := None, None, None, None, None, 0;
      tempSent, humSent, presSent := None, None, None;
    }

    method Dht(temp: real, hum: real, now: real) returns (news: seq<WeatherMsg>)
      modifies this
      ensures (State(), news) == AfterDht(old(State()), temp, hum, now)
    {
      count := count + 1;
      tempC := Some(temp);
      humPct := Some(hum);
      var tempNews := tempSent.None? || Moved(temp, tempSent.value);
      var humNews := humSent.None? || Moved(hum, humSent.value);
      if !tempNews && !humNews {
        return [];
      }
      var m := NO_WEATHER.(ts := Some(now), count := Some(count));
      if tempNews {
        m := m.(tempC := Some(temp));
        tempSent := Some(temp);
      }
      if humNews {
        m := m.(humPct := Some(hum));
        humSent := Some(hum);
      }
      ts := Some(now);
      news := [m];
    }

    method Baro(baroTemp: real, hpa: real, now: real) returns (news: seq<WeatherMsg>)
      modifies this
      ensures (State(), news) == AfterBaro(old(State()), baroTemp, hpa, now)
    {
      baroC := Some(baroTemp);
      var moved := presSent.None? || Moved(hpa, presSent.value);
      pressureHpa := Some(hpa);
      if !moved {
        return [];
      }
      var m := NO_WEATHER.(pressureHpa := Some(hpa), ts := Some(now));
      if count > 0 {
        m := m.(count := Some(count));
      }
      presSent := Some(hpa);
      ts := Some(now);
      news := [m];
    }

    /** The answer to an init ask.  It does not move the gate's memory. */
    method Full() returns (m: WeatherMsg)
      ensures m == FullOf(State())
    {
      m := WeatherMsg(tempC, humPct, ts, Some(count), pressureHpa);
    }
  }

  function FullOf(a: AirState): WeatherMsg {
    WeatherMsg(a.tempC, a.humPct, a.ts, Some(a.count), a.pressureHpa)
  }

  /** The cortex has the daemon's very numbers. */
  predicate Level(a: AirState, st: State) {
    && st.tempC == a.tempC && st.humPct == a.humPct && st.pressureHpa == a.pressureHpa
    && st.tempCount == a.count && (a.pressureHpa.Some? ==> st.baroCount == a.count)
  }

  /** The cortex holds nothing this daemon has never measured. */
  predicate NothingForeign(a: AirState, st: State) {
    && (a.tempC.None? ==> st.tempC.None?) && (a.humPct.None? ==> st.humPct.None?)
    && (a.pressureHpa.None? ==> st.pressureHpa.None?)
  }

  /** One answer brings any cortex level with the daemon, whatever it missed, if and only if it
      holds nothing foreign: an answer takes nothing away. */
  lemma FullLevelsExactlyWhen(a: AirState, st: State)
    ensures Level(a, MergeWeather(st, FullOf(a))) <==> NothingForeign(a, st)
  {
  }

  // ----- the daemon and a cortex that has merged what it was sent -------------------------

  datatype Event =
    | DhtFrame(tempC: real, humPct: real, ts: real)
    | BaroReading(baroC: real, hpa: real, ts: real)
    | InitAsk

  function Step(a: AirState, e: Event): (AirState, seq<WeatherMsg>) {
    match e
    case DhtFrame(t, h, ts) => AfterDht(a, t, h, ts)
    case BaroReading(c, p, ts) => AfterBaro(a, c, p, ts)
    case InitAsk => (a, [FullOf(a)])
  }

  function Deliver(st: State, msgs: seq<WeatherMsg>): State
    decreases |msgs|
  {
    if msgs == [] then st else Deliver(MergeWeather(st, msgs[0]), msgs[1..])
  }

  /** The daemon after a history, and the cortex after every message of it, from a fresh pair
      and the start-up full(). */
  function Run(es: seq<Event>): (AirState, State) {
    if es == [] then (STILL, MergeWeather(BLANK, FullOf(STILL))) else
    var (a, st) := Run(es[..|es| - 1]);
    var (a', msgs) := Step(a, es[|es| - 1]);
    (a', Deliver(st, msgs))
  }

  /** The cortex knows a field exactly when it was measured, and then to within the bound. */
  predicate Tracks(held: Option<real>, measured: Option<real>, bound: real) {
    (held.Some? <==> measured.Some?) && (held.Some? ==> Distance(held.value, measured.value) < bound)
  }

  predicate Asked(es: seq<Event>) { InitAsk in es }

  /** One gated field: the last published number is less than a step from the measurement, and
      the cortex holds it, or a number less than a step from it that an answer carried. */
  predicate Gated(held: Option<real>, measured: Option<real>, sent: Option<real>, asked: bool) {
    && (held.Some? <==> measured.Some?) && (sent.Some? <==> measured.Some?)
    && (measured.Some? ==>
        && Distance(measured.value, sent.value) < STEP
        && Distance(held.value, sent.value) < STEP
        && (!asked ==> held == sent))
  }

  lemma DeliverOne(st: State, msgs: seq<WeatherMsg>)
    requires |msgs| <= 1
    ensures Deliver(st, msgs) == Arrived(st, msgs)
  {
    if msgs != [] {
      assert msgs[1..] == [];
    }
  }

  predicate Close(a: AirState, st: State, asked: bool) {
    && Gated(st.tempC, a.tempC, a.tempSent, asked)
    && Gated(st.humPct, a.humPct, a.humSent, asked)
    && Gated(st.pressureHpa, a.pressureHpa, a.presSent, asked)
    && st.tempCount <= a.count && st.baroCount <= a.count
  }

  function Arrived(st: State, msgs: seq<WeatherMsg>): State
    requires |msgs| <= 1
  {
    if msgs == [] then st else MergeWeather(st, msgs[0])
  }

  lemma DhtKeepsClose(a: AirState, st: State, asked: bool, t: real, h: real, ts: real)
    requires Close(a, st, asked)
    ensures var (a', msgs) := AfterDht(a, t, h, ts);
            Close(a', Arrived(st, msgs), asked)
  {
  }

  lemma BaroKeepsClose(a: AirState, st: State, asked: bool, c: real, p: real, ts: real)
    requires Close(a, st, asked)
    ensures var (a', msgs) := AfterBaro(a, c, p, ts);
            Close(a', Arrived(st, msgs), asked)
  {
  }

  lemma AnswerKeepsClose(a: AirState, st: State, asked: bool)
    requires Close(a, st, asked)
    ensures Close(a, Arrived(st, [FullOf(a)]), true)
  {
  }

  lemma {:induction false} GateHolds(es: seq<Event>)
    ensures var (a, st) := Run(es);
            Close(a, st, Asked(es))
  {
    if es != [] {
      var before, e := es[..|es| - 1], es[|es| - 1];
      GateHolds(before);
      assert es == before + [e];
      var (a, st) := Run(before);
      DeliverOne(st, Step(a, e).1);
      match e {
        case DhtFrame(t, h, ts) => DhtKeepsClose(a, st, Asked(before), t, h, ts);
        case BaroReading(c, p, ts) => BaroKeepsClose(a, st, Asked(before), c, p, ts);
        case InitAsk => AnswerKeepsClose(a, st, Asked(before));
      }
    }
  }

  /** With every message merged, the cortex is strictly within 0.05 of the latest measurement if
      no init ask was ever answered, and strictly within 0.1 in any case. */
  lemma CortexStaysClose(es: seq<Event>)
    ensures var (a, st) := Run(es);
            var bound := if Asked(es) then 0.1 else 0.05;
            && Tracks(st.tempC, a.tempC, bound)
            && Tracks(st.humPct, a.humPct, bound)
            && Tracks(st.pressureHpa, a.pressureHpa, bound)
  {
    GateHolds(es);
  }

  /** The wider bound is needed: an answer carries a number the gate does not remember, and a
      later measurement on the other side of the gate's number is silent. */
  lemma AnAnswerWidensTheGap()
    ensures var es := [DhtFrame(21.5, 40.0, 0.0), DhtFrame(21.54, 40.0, 1.0), InitAsk, DhtFrame(21.46, 40.0, 2.0)];
            var (a, st) := Run(es);
            a.tempC == Some(21.46) && st.tempC == Some(21.54)
  {
    var e0, e1, e2, e3 := DhtFrame(21.5, 40.0, 0.0), DhtFrame(21.54, 40.0, 1.0), InitAsk, DhtFrame(21.46, 40.0, 2.0);
    assert [] + [e0] == [e0] && [e0] + [e1] == [e0, e1];
    assert [e0, e1] + [e2] == [e0, e1, e2] && [e0, e1, e2] + [e3] == [e0, e1, e2, e3];
    Unfold([], e0);
    Unfold([e0], e1);
    Unfold([e0, e1], e2);
    Unfold([e0, e1, e2], e3);
  }

  lemma Unfold(es: seq<Event>, e: Event)
    ensures var (a, st) := Run(es);
            var (a', msgs) := Step(a, e);
            && |msgs| <= 1
            && Run(es + [e]) == (a', Arrived(st, msgs))
  {
    assert (es + [e])[..|es|] == es;
    var (a, st) := Run(es);
    DeliverOne(st, Step(a, e).1);
  }

  /** A message that carries the count brings the cortex's count up to the daemon's; only a
      pressure sent before the first DHT frame carries none. */
  lemma CountCatchesUp(es: seq<Event>, e: Event)
    ensures var (a, _) := Run(es);
            var (a', msgs) := Step(a, e);
            var st' := Run(es + [e]).1;
            && (msgs != [] ==> st'.tempCount == a'.count)
            && (msgs != [] && msgs[0].count.None? ==> a'.count == 0)
            && (msgs != [] && msgs[0].pressureHpa.Some? ==> st'.baroCount == a'.count)
  {
    Unfold(es, e);
    GateHolds(es);
  }

  // ----- the daemon against its history -------------------------------------------------------

  // What was measured, from the events alone.

  function DhtFrames(es: seq<Event>): nat {
    if es == [] then 0 else DhtFrames(es[..|es| - 1]) + if es[|es| - 1].DhtFrame? then 1 else 0
  }

  function LastTemp(es: seq<Event>): Option<real> {
    if es == [] then None
    else if es[|es| - 1].DhtFrame? then Some(es[|es| - 1].tempC)
    else LastTemp(es[..|es| - 1])
  }

  function LastHum(es: seq<Event>): Option<real> {
    if es == [] then None
    else if es[|es| - 1].DhtFrame? then Some(es[|es| - 1].humPct)
    else LastHum(es[..|es| - 1])
  }

  function LastPressure(es: seq<Event>): Option<real> {
    if es == [] then None
    else if es[|es| - 1].BaroReading? then Some(es[|es| - 1].hpa)
    else LastPressure(es[..|es| - 1])
  }

  // What was published as news, from the messages; answers are none.

  function News(es: seq<Event>): seq<WeatherMsg>
    requires es != []
  {
    if es[|es| - 1].InitAsk? then [] else Step(Run(es[..|es| - 1]).0, es[|es| - 1]).1
  }

  function LastSaid(field: WeatherMsg -> Option<real>, es: seq<Event>): Option<real> {
    if es == [] then None
    else if News(es) != [] && field(News(es)[0]).Some? then field(News(es)[0])
    else LastSaid(field, es[..|es| - 1])
  }

  function TempIn(m: WeatherMsg): Option<real> { m.tempC }
  function HumIn(m: WeatherMsg): Option<real> { m.humPct }
  function PressureIn(m: WeatherMsg): Option<real> { m.pressureHpa }
  function StampIn(m: WeatherMsg): Option<real> { m.ts }

  lemma {:induction false} MemoryIsTheHistory(es: seq<Event>)
    ensures var a := Run(es).0;
            && a.count == DhtFrames(es)
            && a.tempC == LastTemp(es) && a.humPct == LastHum(es) && a.pressureHpa == LastPressure(es)
            && a.tempSent == LastSaid(TempIn, es) && a.humSent == LastSaid(HumIn, es)
            && a.presSent == LastSaid(PressureIn, es) && a.ts == LastSaid(StampIn, es)
  {
    if es != [] {
      MemoryIsTheHistory(es[..|es| - 1]);
      OneMoreEvent(es);
    }
  }

  lemma OneMoreEvent(es: seq<Event>)
    requires es != []
    ensures Run(es).0 == Step(Run(es[..|es| - 1]).0, es[|es| - 1]).0
  {
  }

  /** Never said, or at least 0.05 from what was last said. */
  predicate HasMoved(x: real, said: Option<real>) {
    said.None? || x - said.value >= 0.05 || said.value - x >= 0.05
  }

  /** After any history a DHT frame is published exactly when either number has moved, with the
      moved ones, its own stamp, and the number of frames so far. */
  lemma DhtNewsExactly(es: seq<Event>, t: real, h: real, ts: real)
    ensures var moved := (HasMoved(t, LastSaid(TempIn, es)), HasMoved(h, LastSaid(HumIn, es)));
            Step(Run(es).0, DhtFrame(t, h, ts)).1 ==
              if !moved.0 && !moved.1 then []
              else [WeatherMsg(if moved.0 then Some(t) else None, if moved.1 then Some(h) else None,
                               Some(ts), Some(DhtFrames(es) + 1), None)]
  {
    MemoryIsTheHistory(es);
  }

  /** And a pressure exactly when it has, with the number of frames if there were any. */
  lemma BaroNewsExactly(es: seq<Event>, c: real, p: real, ts: real)
    ensures Step(Run(es).0, BaroReading(c, p, ts)).1 ==
              if !HasMoved(p, LastSaid(PressureIn, es)) then []
              else [WeatherMsg(None, None, Some(ts), if DhtFrames(es) > 0 then Some(DhtFrames(es)) else None, Some(p))]
  {
    MemoryIsTheHistory(es);
  }

  /** An answer says what was last measured of everything, and the time of the last news. */
  lemma AnswerSaysTheLast(es: seq<Event>)
    ensures Step(Run(es).0, InitAsk).1
            == [WeatherMsg(LastTemp(es), LastHum(es), LastSaid(StampIn, es), Some(DhtFrames(es)), LastPressure(es))]
  {
    MemoryIsTheHistory(es);
  }

  /** A pressure published is, once merged, the newest sample of the cortex's window, at its own
      time and whatever the window held. */
  lemma BaroNewsIsTheNewestSample(a: AirState, c: real, p: real, ts: real, window: seq<Sample>)
    ensures var msgs := AfterBaro(a, c, p, ts).1;
            msgs != [] ==>
              var w := Windowed(window, WeatherBody(msgs[0]));
              w != [] && w[|w| - 1] == (ts, p)
  {
    NewestStays(window, ts, p);
  }
}
