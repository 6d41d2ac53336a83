/** The cortex's live state: the merge by presence and the pressure window. */
module CortexState {
  import opened Options
  import opened Wire

  /** The readings and the fault view; the persisted settings are moved by verbs, not by messages. */
  datatype State = State(
    pirHigh: bool, pirCount: nat, pirLastTs: Option<real>, pirLastHold: real, pirOnTs: Option<real>,
    snrCm: Option<real>, snrCount: nat, snrTs: Option<real>,
    tempC: Option<real>, humPct: Option<real>, tempTs: Option<real>, tempCount: nat,
    pressureHpa: Option<real>, baroTs: Option<real>, baroCount: nat,
    faults: seq<FaultRow>, faultTs: Option<real>, condition: string)

  const BLANK := State(false, 0, None, 0.0, None,
                       None, 0, None,
                       None, None, None, 0,
                       None, None, 0,
                       [], None, "well")

  const WINDOW_S := 10800.0

  type Sample = (real, real) // (timestamp, pressure in hPa)

  function OrElse<T>(a: Option<T>, b: Option<T>): Option<T> {
    if a.Some? then a else b
  }

  /** A field the message carries wins; a field it leaves out keeps its value.  `ts` outranks
      `last_ts`: both name the same fact. */
  function MergePir(st: State, p: PirMsg): State {
    st.(pirHigh := p.high.GetOr(st.pirHigh),
        pirCount := p.count.GetOr(st.pirCount),
        pirLastTs := OrElse(p.ts, OrElse(p.lastTs, st.pirLastTs)),
        pirLastHold := p.lastHold.GetOr(st.pirLastHold),
        pirOnTs := OrElse(p.onTs, st.pirOnTs))
  }

  function MergeSonar(st: State, s: SonarMsg): State {
    st.(snrCm := OrElse(s.cm, st.snrCm), snrCount := s.count.GetOr(st.snrCount), snrTs := OrElse(s.ts, st.snrTs))
  }

  /** The baro stamps ride along only with a pressure. */
  function MergeWeather(st: State, w: WeatherMsg): State {
    st.(tempC := OrElse(w.tempC, st.tempC),
        humPct := OrElse(w.humPct, st.humPct),
        tempTs := OrElse(w.ts, st.tempTs),
        tempCount := w.count.GetOr(st.tempCount),
        pressureHpa := OrElse(w.pressureHpa, st.pressureHpa),
        baroTs := if w.pressureHpa.Some? then OrElse(w.ts, st.baroTs) else st.baroTs,
        baroCount := if w.pressureHpa.Some? then w.count.GetOr(st.baroCount) else st.baroCount)
  }

  /** Rows are always adopted, the condition only when the wire carries one. */
  function MergeFault(st: State, f: FaultMsg, now: real): State {
    st.(faults := f.rows, faultTs := Some(f.ts.GetOr(now)), condition := f.condition.GetOr(st.condition))
  }

  function Merged(st: State, body: Body, now: real): State {
    match body
    case PirBody(p) => MergePir(st, p)
    case SonarBody(s) => MergeSonar(st, s)
    case WeatherBody(w) => MergeWeather(st, w)
    case FaultBody(f) => MergeFault(st, f, now)
    case OtherBody => st
  }

  /** The window with its stale front gone. */
  function Pruned(window: seq<Sample>, ts: real): seq<Sample> {
    if window != [] && ts - window[0].0 > WINDOW_S then Pruned(window[1..], ts) else window
  }

  function Pushed(window: seq<Sample>, ts: real, hpa: real): seq<Sample> {
    Pruned(window + [(ts, hpa)], ts)
  }

  /** What a message does to the pressure window: a pressure is a sample, stamped 0 if unstamped. */
  function Windowed(window: seq<Sample>, body: Body): seq<Sample> {
    if body.WeatherBody? && body.weather.pressureHpa.Some?
    then Pushed(window, body.weather.ts.GetOr(0.0), body.weather.pressureHpa.value)
    else window
  }

  class Cortex {
    var st: State
    var baro: seq<Sample> // oldest first

    constructor ()
      ensures st == BLANK && baro == []
    {
      st := BLANK;
      baro := [];
    }

    method Merge(body: Body, now: real)
      modifies this
      ensures st == Merged(old(st), body, now)
      ensures baro == Windowed(old(baro), body)
    {
      match body {
        case PirBody(p) => MergePirFields(p);
        case SonarBody(s) => MergeSonarFields(s);
        case WeatherBody(w) => MergeWeatherFields(w);
        case FaultBody(f) =>
          st := st.(faults := f.rows);
          st := st.(faultTs := Some(f.ts.GetOr(now)));
          if f.condition.Some? { st := st.(condition := f.condition.value); }
        case OtherBody =>
      }
    }

    /** The arms of `Merge`, one per body. */
    method MergePirFields(p: PirMsg)
      modifies this`st
      ensures st == MergePir(old(st), p)
    {
      if p.high.Some? { st := st.(pirHigh := p.high.value); }
      if p.count.Some? { st := st.(pirCount := p.count.value); }
      if p.lastTs.Some? { st := st.(pirLastTs := Some(p.lastTs.value)); }
      if p.ts.Some? { st := st.(pirLastTs := Some(p.ts.value)); }
      if p.lastHold.Some? { st := st.(pirLastHold := p.lastHold.value); }
      if p.onTs.Some? { st := st.(pirOnTs := Some(p.onTs.value)); }
    }

    method MergeSonarFields(s: SonarMsg)
      modifies this`st
      ensures st == MergeSonar(old(st), s)
    {
      if s.cm.Some? { st := st.(snrCm := Some(s.cm.value)); }
      if s.count.Some? { st := st.(snrCount := s.count.value); }
      if s.ts.Some? { st := st.(snrTs := Some(s.ts.value)); }
    }

    method MergeWeatherFields(w: WeatherMsg)
      modifies this
      ensures st == MergeWeather(old(st), w)
      ensures baro == Windowed(old(baro), WeatherBody(w))
    {
      if w.tempC.Some? { st := st.(tempC := Some(w.tempC.value)); }
      if w.humPct.Some? { st := st.(humPct := Some(w.humPct.value)); }
      if w.ts.Some? { st := st.(tempTs := Some(w.ts.value)); }
      if w.count.Some? { st := st.(tempCount := w.count.value); }
      if w.pressureHpa.Some? {
        st := st.(pressureHpa := Some(w.pressureHpa.value));
        PushBaro(w.ts.GetOr(0.0), w.pressureHpa.value);
        if w.ts.Some? { st := st.(baroTs := Some(w.ts.value)); }
        if w.count.Some? { st := st.(baroCount := w.count.value); }
      }
    }

    method PushBaro(ts: real, hpa: real)
      modifies this`baro
      ensures baro == Pushed(old(baro), ts, hpa)
    {
      baro := baro + [(ts, hpa)];
      while baro != [] && ts - baro[0].0 > WINDOW_S
        invariant Pruned(baro, ts) == Pushed(old(baro), ts, hpa)
        decreases |baro|
      {
        baro := baro[1..];
      }
    }
  }

  // ----- the window ---------------------------------------------------------------

  /** At most three hours behind, in seconds. */
  predicate Recent(s: Sample, ts: real) { ts - s.0 <= 10800.0 }

  /** The samples at most three hours behind `ts`, in order. */
  function Recents(samples: seq<Sample>, ts: real): seq<Sample> {
    if samples == [] then [] else
    if Recent(samples[0], ts) then [samples[0]] + Recents(samples[1..], ts)
    else Recents(samples[1..], ts)
  }

  /** Pruning looks at the front only, so it keeps exactly the recent samples if and only if no
      stale sample sits behind a recent one. */
  ghost predicate StaleFirst(samples: seq<Sample>, ts: real) {
    forall i, j :: 0 <= i < j < |samples| && Recent(samples[i], ts) ==> Recent(samples[j], ts)
  }

  lemma {:induction false} AllRecent(samples: seq<Sample>, ts: real)
    ensures Recents(samples, ts) == samples <==> forall s :: s in samples ==> Recent(s, ts)
    ensures |Recents(samples, ts)| <= |samples|
    ensures forall s :: s in Recents(samples, ts) ==> Recent(s, ts)
  {
    if samples != [] {
      AllRecent(samples[1..], ts);
      assert samples == [samples[0]] + samples[1..];
      if Recent(samples[0], ts) {
        assert Recents(samples, ts)[1..] == Recents(samples[1..], ts);
      }
    }
  }

  lemma {:induction false} PruningIsExact(samples: seq<Sample>, ts: real)
    ensures Pruned(samples, ts) == Recents(samples, ts) <==> StaleFirst(samples, ts)
  {
    if samples != [] {
      if Recent(samples[0], ts) {
        AllRecent(samples, ts);
        FreshFront(samples, ts);
      } else {
        PruningIsExact(samples[1..], ts);
        StaleFront(samples, ts);
      }
    }
  }

  lemma FreshFront(samples: seq<Sample>, ts: real)
    requires samples != [] && Recent(samples[0], ts)
    ensures StaleFirst(samples, ts) <==> forall s :: s in samples ==> Recent(s, ts)
  {
    if StaleFirst(samples, ts) {
      forall s | s in samples ensures Recent(s, ts) {
        var j :| 0 <= j < |samples| && samples[j] == s;
        assert j == 0 || Recent(samples[j], ts);
      }
    }
  }

  lemma StaleFront(samples: seq<Sample>, ts: real)
    requires samples != [] && !Recent(samples[0], ts)
    ensures StaleFirst(samples, ts) <==> StaleFirst(samples[1..], ts)
  {
    var rest := samples[1..];
    if StaleFirst(rest, ts) {
      forall i, j | 0 <= i < j < |samples| && Recent(samples[i], ts) ensures Recent(samples[j], ts) {
        assert rest[i - 1] == samples[i] && rest[j - 1] == samples[j];
      }
    }
    if StaleFirst(samples, ts) {
      forall i, j | 0 <= i < j < |rest| && Recent(rest[i], ts) ensures Recent(rest[j], ts) {
        assert samples[i + 1] == rest[i] && samples[j + 1] == rest[j];
      }
    }
  }

  /** The window after a whole history of pushes. */
  function WindowOf(pushes: seq<Sample>): seq<Sample> {
    if pushes == [] then [] else
    var (ts, hpa) := pushes[|pushes| - 1];
    Pushed(WindowOf(pushes[..|pushes| - 1]), ts, hpa)
  }

  ghost predicate InOrder(samples: seq<Sample>) {
    forall i, j :: 0 <= i < j < |samples| ==> samples[i].0 <= samples[j].0
  }

  /** A push onto a window in order keeps what is recent of it. */
  lemma OnePush(kept: seq<Sample>, s: Sample)
    requires InOrder(kept) && forall i :: 0 <= i < |kept| ==> kept[i].0 <= s.0
    ensures Pruned(kept + [s], s.0) == Recents(kept, s.0) + [s]
  {
    PruningIsExact(kept + [s], s.0);
    RecentsAppend(kept, [s], s.0);
    assert Recents([s], s.0) == [s];
  }

  /** For timestamps that never go back, the window is exactly the pushes at most three hours
      behind the newest. */
  lemma {:induction false} WindowIsTheLastThreeHours(pushes: seq<Sample>)
    requires pushes != [] && InOrder(pushes)
    ensures WindowOf(pushes) == Recents(pushes, pushes[|pushes| - 1].0)
  {
    var n := |pushes| - 1;
    var before, s := pushes[..n], pushes[n];
    if n > 0 {
      var early := before[n - 1].0;
      WindowIsTheLastThreeHours(before);
      RecentsTwice(before, early, s.0);
      RecentsInOrder(before, early);
      NoLaterThan(before, early, s.0);
    }
    OnePush(WindowOf(before), s);
    RecentsAppend(before, [s], s.0);
    assert before + [s] == pushes && Recents([s], s.0) == [s];
  }

  lemma {:induction false} NoLaterThan(samples: seq<Sample>, early: real, ts: real)
    requires forall i :: 0 <= i < |samples| ==> samples[i].0 <= ts
    ensures forall i :: 0 <= i < |Recents(samples, early)| ==> Recents(samples, early)[i].0 <= ts
  {
    if samples != [] { NoLaterThan(samples[1..], early, ts); }
  }

  lemma {:induction false} RecentsAppend(a: seq<Sample>, b: seq<Sample>, ts: real)
    ensures Recents(a + b, ts) == Recents(a, ts) + Recents(b, ts)
  {
    if a == [] {
      assert a + b == b;
    } else {
      RecentsAppend(a[1..], b, ts);
      assert (a + b)[1..] == a[1..] + b;
    }
  }

  lemma {:induction false} RecentsTwice(samples: seq<Sample>, early: real, late: real)
    requires early <= late
    ensures Recents(Recents(samples, early), late) == Recents(samples, late)
  {
    if samples != [] {
      RecentsTwice(samples[1..], early, late);
      if Recent(samples[0], early) {
        var kept := Recents(samples, early);
        assert kept[0] == samples[0] && kept[1..] == Recents(samples[1..], early);
      } else {
        assert !Recent(samples[0], late);
        assert Recents(samples, early) == Recents(samples[1..], early);
        assert Recents(samples, late) == Recents(samples[1..], late);
      }
    }
  }

  lemma {:induction false} RecentsInOrder(samples: seq<Sample>, ts: real)
    requires InOrder(samples)
    ensures InOrder(Recents(samples, ts))
    ensures forall s :: s in Recents(samples, ts) ==> s in samples
  {
    if samples != [] {
      var rest := samples[1..];
      assert forall i :: 0 <= i < |rest| ==> rest[i] == samples[i + 1];
      RecentsInOrder(rest, ts);
      var kept := Recents(rest, ts);
      forall k | 0 <= k < |kept| ensures samples[0].0 <= kept[k].0 {
        assert kept[k] in rest;
      }
    }
  }

  // ----- whole runs of messages --------------------------------------------------------------

  /** A message and the time it arrived. */
  type Arrival = (Body, real)

  function MergedRun(es: seq<Arrival>): State {
    if es == [] then BLANK else
    var (body, now) := es[|es| - 1];
    Merged(MergedRun(es[..|es| - 1]), body, now)
  }

  function WindowRun(es: seq<Arrival>): seq<Sample> {
    if es == [] then [] else Windowed(WindowRun(es[..|es| - 1]), es[|es| - 1].0)
  }

  /** The pressures of a run, from its messages alone: every weather message that carries one, at
      its own time, or at 0 if it has none. */
  function SampleOf(body: Body): Option<Sample> {
    match body
    case WeatherBody(w) =>
      if w.pressureHpa.None? then None
      else if w.ts.None? then Some((0.0, w.pressureHpa.value))
      else Some((w.ts.value, w.pressureHpa.value))
    case _ => None
  }

  function Samples(es: seq<Arrival>): seq<Sample> {
    if es == [] then [] else
    match SampleOf(es[|es| - 1].0)
    case None => Samples(es[..|es| - 1])
    case Some(s) => Samples(es[..|es| - 1]) + [s]
  }

  /** The window is that of the pressures merged, whatever rode with them. */
  lemma {:induction false} WindowIsOfTheSamples(es: seq<Arrival>)
    ensures WindowRun(es) == WindowOf(Samples(es))
  {
    if es != [] {
      var before, now := es[..|es| - 1], SampleOf(es[|es| - 1].0);
      WindowIsOfTheSamples(before);
      if now.Some? {
        assert (Samples(before) + [now.value])[..|Samples(before)|] == Samples(before);
      }
    }
  }

  /** And with ordered stamps it is exactly the pressures merged in the last three hours. */
  lemma MergedWindowIsTheLastThreeHours(es: seq<Arrival>)
    requires Samples(es) != [] && InOrder(Samples(es))
    ensures WindowRun(es) == Recents(Samples(es), Samples(es)[|Samples(es)| - 1].0)
  {
    WindowIsOfTheSamples(es);
    WindowIsTheLastThreeHours(Samples(es));
  }

  /** What is pushed is never pruned by its own push. */
  lemma {:induction false} NewestStays(window: seq<Sample>, ts: real, hpa: real)
    ensures var w := Pushed(window, ts, hpa); w != [] && w[|w| - 1] == (ts, hpa)
  {
    LastIsKept(window + [(ts, hpa)], ts);
  }

  lemma {:induction false} LastIsKept(window: seq<Sample>, ts: real)
    requires window != [] && window[|window| - 1].0 == ts
    ensures var w := Pruned(window, ts); w != [] && w[|w| - 1] == window[|window| - 1]
  {
    if ts - window[0].0 > WINDOW_S { LastIsKept(window[1..], ts); }
  }

  // ----- presence ------------------------------------------------------------------------------

  /** The last value that a run's messages carried of a field, if any did. */
  function LastOf<T>(field: Arrival -> Option<T>, es: seq<Arrival>): Option<T> {
    if es == [] then None
    else if field(es[|es| - 1]).Some? then field(es[|es| - 1])
    else LastOf(field, es[..|es| - 1])
  }

  // The fields, as messages carry them.

  function PirHigh(e: Arrival): Option<bool> { if e.0.PirBody? then e.0.pir.high else None }
  function PirCount(e: Arrival): Option<nat> { if e.0.PirBody? then e.0.pir.count else None }
  function PirHold(e: Arrival): Option<real> { if e.0.PirBody? then e.0.pir.lastHold else None }
  function PirOn(e: Arrival): Option<real> { if e.0.PirBody? then e.0.pir.onTs else None }
  function PirLast(e: Arrival): Option<real> {
    if !e.0.PirBody? then None else if e.0.pir.ts.Some? then e.0.pir.ts else e.0.pir.lastTs
  }

  function SonarCm(e: Arrival): Option<real> { if e.0.SonarBody? then e.0.sonar.cm else None }
  function SonarCount(e: Arrival): Option<nat> { if e.0.SonarBody? then e.0.sonar.count else None }
  function SonarTs(e: Arrival): Option<real> { if e.0.SonarBody? then e.0.sonar.ts else None }

  function AirTemp(e: Arrival): Option<real> { if e.0.WeatherBody? then e.0.weather.tempC else None }
  function AirHum(e: Arrival): Option<real> { if e.0.WeatherBody? then e.0.weather.humPct else None }
  function AirTs(e: Arrival): Option<real> { if e.0.WeatherBody? then e.0.weather.ts else None }
  function AirCount(e: Arrival): Option<nat> { if e.0.WeatherBody? then e.0.weather.count else None }
  function AirPressure(e: Arrival): Option<real> { if e.0.WeatherBody? then e.0.weather.pressureHpa else None }
  function BaroTs(e: Arrival): Option<real> { if AirPressure(e).Some? then e.0.weather.ts else None }
  function BaroCount(e: Arrival): Option<nat> { if AirPressure(e).Some? then e.0.weather.count else None }

  function FaultRows(e: Arrival): Option<seq<FaultRow>> { if e.0.FaultBody? then Some(e.0.fault.rows) else None }
  function FaultCondition(e: Arrival): Option<string> { if e.0.FaultBody? then e.0.fault.condition else None }
  function FaultTs(e: Arrival): Option<real> {
    if !e.0.FaultBody? then None else if e.0.fault.ts.Some? then e.0.fault.ts else Some(e.1)
  }

  /** Over every run of messages of any kind, each field of the state is the last value any message
      carried of it, or its first value if none did. */
  lemma {:induction false} PirIsTheLastHeard(es: seq<Arrival>)
    ensures var st := MergedRun(es);
            && st.pirHigh == LastOf(PirHigh, es).GetOr(false) && st.pirCount == LastOf(PirCount, es).GetOr(0)
            && st.pirLastTs == LastOf(PirLast, es) && st.pirLastHold == LastOf(PirHold, es).GetOr(0.0)
            && st.pirOnTs == LastOf(PirOn, es)
  {
    if es != [] { PirIsTheLastHeard(es[..|es| - 1]); }
  }

  lemma {:induction false} SonarIsTheLastHeard(es: seq<Arrival>)
    ensures var st := MergedRun(es);
            && st.snrCm == LastOf(SonarCm, es) && st.snrCount == LastOf(SonarCount, es).GetOr(0)
            && st.snrTs == LastOf(SonarTs, es)
  {
    if es != [] { SonarIsTheLastHeard(es[..|es| - 1]); }
  }

  lemma {:induction false} AirIsTheLastHeard(es: seq<Arrival>)
    ensures var st := MergedRun(es);
            && st.tempC == LastOf(AirTemp, es) && st.humPct == LastOf(AirHum, es) && st.tempTs == LastOf(AirTs, es)
            && st.tempCount == LastOf(AirCount, es).GetOr(0)
  {
    if es != [] { AirIsTheLastHeard(es[..|es| - 1]); }
  }

  /** The pressure's own stamp and count are those that rode with a pressure. */
  lemma {:induction false} BaroIsTheLastHeard(es: seq<Arrival>)
    ensures var st := MergedRun(es);
            && st.pressureHpa == LastOf(AirPressure, es)
            && st.baroTs == LastOf(BaroTs, es) && st.baroCount == LastOf(BaroCount, es).GetOr(0)
  {
    if es != [] { BaroIsTheLastHeard(es[..|es| - 1]); }
  }

  /** A fault message always brings its rows; unstamped it counts as heard on arrival. */
  lemma {:induction false} FaultIsTheLastHeard(es: seq<Arrival>)
    ensures var st := MergedRun(es);
            && st.faults == LastOf(FaultRows, es).GetOr([]) && st.faultTs == LastOf(FaultTs, es)
            && st.condition == LastOf(FaultCondition, es).GetOr("well")
  {
    if es != [] { FaultIsTheLastHeard(es[..|es| - 1]); }
  }
}
