/** The weather daemon and the cortex with a lossless queue between them, init answers at any time,
    and a cortex that may restart with empty memory. */
module AirLink {
  import opened Options
  import opened Wire
  import opened CortexState
  import opened Weather

  datatype System = System(
    daemon: AirState,
    up: seq<WeatherMsg>, // daemon to cortex
    cortex: State,
    answered: bool,      // has this cortex been sent a full payload?
    asked: bool)         // was an init ask ever answered?

  datatype Action =
    | Sense(e: Event)       // an init ask among the events is answered with full()
    | DeliverUp
    | Restart(lostUp: nat)  // the cortex dies; some of the queue may go with it

  predicate Enabled(s: System, a: Action) {
    match a
    case Sense(_) => true
    case DeliverUp => s.up != []
    case Restart(lostUp) => lostUp <= |s.up|
  }

  function Next(s: System, a: Action): System
    requires Enabled(s, a)
  {
    match a
    case Sense(e) =>
      var (daemon, msgs) := Step(s.daemon, e);
      s.(daemon := daemon, up := s.up + msgs,
         answered := s.answered || e.InitAsk?, asked := s.asked || e.InitAsk?)
    case DeliverUp => s.(up := s.up[1..], cortex := MergeWeather(s.cortex, s.up[0]))
    case Restart(lostUp) => s.(up := s.up[lostUp..], cortex := BLANK, answered := false)
  }

  /** Both fresh; the daemon's start-up full() is its first message. */
  const START := System(STILL, [FullOf(STILL)], BLANK, true, false)

  predicate Legal(s: System, actions: seq<Action>)
    decreases |actions|
  {
    actions == [] || (Enabled(s, actions[0]) && Legal(Next(s, actions[0]), actions[1..]))
  }

  function After(s: System, actions: seq<Action>): System
    requires Legal(s, actions)
    decreases |actions|
  {
    if actions == [] then s else After(Next(s, actions[0]), actions[1..])
  }

  /** The cortex once it has merged what is queued for it. */
  function Settled(s: System): State { Deliver(s.cortex, s.up) }

  // ----- what every run keeps -------------------------------------------------------------

  predicate Gate(measured: Option<real>, sent: Option<real>) {
    && (sent.Some? <==> measured.Some?)
    && (measured.Some? ==> Distance(measured.value, sent.value) < STEP)
  }

  predicate Gates(a: AirState) {
    Gate(a.tempC, a.tempSent) && Gate(a.humPct, a.humSent) && Gate(a.pressureHpa, a.presSent)
  }

  /** A message that says nothing the daemon has not measured or counted. */
  predicate Sourced(a: AirState, m: WeatherMsg) {
    && (a.tempC.None? ==> m.tempC.None?) && (a.humPct.None? ==> m.humPct.None?)
    && (a.pressureHpa.None? ==> m.pressureHpa.None?)
    && (m.count.Some? ==> m.count.value <= a.count)
  }

  predicate Behind(a: AirState, st: State) {
    NothingForeign(a, st) && st.tempCount <= a.count && st.baroCount <= a.count
  }

  ghost predicate Inv(s: System) {
    && Gates(s.daemon) && Behind(s.daemon, s.cortex)
    && (forall m :: m in s.up ==> Sourced(s.daemon, m))
    && (s.answered ==> Close(s.daemon, Settled(s), s.asked))
  }

  lemma {:induction false} DeliverAppend(st: State, a: seq<WeatherMsg>, b: seq<WeatherMsg>)
    ensures Deliver(st, a + b) == Deliver(Deliver(st, a), b)
    decreases |a|
  {
    if a == [] {
      assert a + b == b;
    } else {
      DeliverAppend(MergeWeather(st, a[0]), a[1..], b);
      assert (a + b)[0] == a[0] && (a + b)[1..] == a[1..] + b;
    }
  }

  lemma {:induction false} DeliverBehind(a: AirState, st: State, msgs: seq<WeatherMsg>)
    requires Behind(a, st) && forall m :: m in msgs ==> Sourced(a, m)
    ensures Behind(a, Deliver(st, msgs))
    decreases |msgs|
  {
    if msgs != [] {
      assert Sourced(a, msgs[0]);
      DeliverBehind(a, MergeWeather(st, msgs[0]), msgs[1..]);
    }
  }

  /** An answer brings a cortex that was only behind within the bound. */
  lemma AnswerBringsClose(a: AirState, st: State)
    requires Gates(a) && Behind(a, st)
    ensures Close(a, MergeWeather(st, FullOf(a)), true)
  {
    FullLevelsExactlyWhen(a, st);
  }

  /** A step of the daemon: its gates hold, and what was said and held before is still sourced. */
  lemma DaemonStep(a: AirState, e: Event)
    requires Gates(a)
    ensures var (a', msgs) := Step(a, e);
            && Gates(a') && |msgs| <= 1 && (forall m :: m in msgs ==> Sourced(a', m))
            && a.count <= a'.count
            && (a'.tempC.None? ==> a.tempC.None?) && (a'.humPct.None? ==> a.humPct.None?)
            && (a'.pressureHpa.None? ==> a.pressureHpa.None?)
  {
  }

  lemma SenseCloses(a: AirState, st: State, asked: bool, e: Event)
    requires Close(a, st, asked)
    ensures var (a', msgs) := Step(a, e);
            Close(a', Deliver(st, msgs), asked || e.InitAsk?)
  {
    DeliverOne(st, Step(a, e).1);
    match e {
      case DhtFrame(t, h, ts) => DhtKeepsClose(a, st, asked, t, h, ts);
      case BaroReading(c, p, ts) => BaroKeepsClose(a, st, asked, c, p, ts);
      case InitAsk => AnswerKeepsClose(a, st, asked);
    }
  }

  lemma SenseKeeps(s: System, e: Event)
    requires Inv(s)
    ensures Inv(Next(s, Sense(e)))
  {
    var (a, msgs) := Step(s.daemon, e);
    DaemonStep(s.daemon, e);
    DeliverAppend(s.cortex, s.up, msgs);
    if s.answered {
      SenseCloses(s.daemon, Settled(s), s.asked, e);
    } else if e.InitAsk? {
      DeliverBehind(s.daemon, s.cortex, s.up);
      AnswerBringsClose(s.daemon, Settled(s));
      DeliverOne(Settled(s), msgs);
    }
  }

  lemma NextKeeps(s: System, a: Action)
    requires Inv(s) && Enabled(s, a)
    ensures Inv(Next(s, a))
  {
    match a {
      case Sense(e) => SenseKeeps(s, e);
      case DeliverUp => assert Sourced(s.daemon, s.up[0]);
      case Restart(_) =>
    }
  }

  lemma {:induction false} RunKeeps(s: System, actions: seq<Action>)
    requires Inv(s) && Legal(s, actions)
    ensures Inv(After(s, actions))
    decreases |actions|
  {
    if actions != [] {
      NextKeeps(s, actions[0]);
      RunKeeps(Next(s, actions[0]), actions[1..]);
    }
  }

  lemma StartHolds()
    ensures Inv(START)
  {
    DeliverOne(BLANK, START.up);
  }

  // ----- the result -----------------------------------------------------------------------

  /** In every run from the start, whatever is in flight and however often the cortex restarted: a
      cortex that has been answered is, once it has merged its queue, strictly within 0.05 of the
      latest measurement if no init ask was ever answered, and strictly within 0.1 in any case;
      and no count is ever ahead of the daemon's. */
  lemma EveryAirRunStaysClose(actions: seq<Action>)
    requires Legal(START, actions)
    ensures var s := After(START, actions);
            var st, bound := Settled(s), if s.asked then 0.1 else 0.05;
            && (s.answered ==> Tracks(st.tempC, s.daemon.tempC, bound) && Tracks(st.humPct, s.daemon.humPct, bound)
                               && Tracks(st.pressureHpa, s.daemon.pressureHpa, bound))
            && (s.up == [] ==> st == s.cortex)
            && s.cortex.tempCount <= s.daemon.count && s.cortex.baroCount <= s.daemon.count
  {
    StartHolds();
    RunKeeps(START, actions);
  }

  /** A restart that loses the queue, then one answer and its delivery: the cortex is level. */
  lemma RestartLevels(s: System)
    requires Inv(s)
    ensures var t := Next(Next(Next(s, Restart(|s.up|)), Sense(InitAsk)), DeliverUp);
            t.up == [] && t.daemon == s.daemon && Level(s.daemon, t.cortex)
  {
    FullLevelsExactlyWhen(s.daemon, BLANK);
  }
}
