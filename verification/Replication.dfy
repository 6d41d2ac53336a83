/** Daemon, cortex and glass as one system: two lossless queues, polls and read errors at one
    end, init answers at any time, and a cortex and a daemon that may each restart with empty
    memory. */
module Replication {
  import opened Options
  import opened Wire
  import opened Motion
  import opened CortexState
  import opened Glass
  import opened Seqs

  datatype System = System(
    daemon: PirState,
    up: seq<PirMsg>,    // daemon to cortex
    cortex: State,
    down: seq<PirMsg>,  // cortex to glass
    glass: PirView,
    answered: bool,     // has this cortex been sent a full payload by this daemon?
    published: bool,    // has this cortex published a PIR message?
    own: bool)          // is all that the cortex holds or will be sent from this daemon?

  datatype Action =
    | Sense(e: Event)
    | Answer            // an init ask: the daemon republishes full()
    | DeliverUp(now: real)
    | DeliverDown
    | Restart(lostUp: nat, keptDown: nat) // the cortex dies: some of either queue may go with it
    | DaemonRestart(keptUp: nat)          // the daemon does: its last messages may go with it

  predicate Enabled(s: System, a: Action) {
    match a
    case DeliverUp(_) => s.up != []
    case DeliverDown => s.down != []
    case Restart(lostUp, keptDown) => lostUp <= |s.up| && keptDown <= |s.down|
    case DaemonRestart(keptUp) => keptUp <= |s.up|
    case _ => true
  }

  function Next(s: System, a: Action): System
    requires Enabled(s, a)
  {
    match a
    case Sense(e) => s.(daemon := Step(s.daemon, e), up := s.up + Sent(s.daemon, e))
    case Answer => s.(up := s.up + [s.daemon.remembered.Full()], answered := true)
    case DeliverUp(now) =>
      var cortex := MergePir(s.cortex, s.up[0]);
      s.(up := s.up[1..], cortex := cortex, down := s.down + [BuildPir(cortex, now)], published := true)
    case DeliverDown => s.(down := s.down[1..], glass := Held(s.down[0]))
    case Restart(lostUp, keptDown) =>
      s.(up := s.up[lostUp..], cortex := BLANK, down := s.down[..keptDown],
         answered := false, published := false, own := s.own || lostUp == |s.up|)
    case DaemonRestart(keptUp) =>
      var renewed := Fresh(s.daemon.cooldown);
      s.(daemon := renewed, up := s.up[..keptUp] + [renewed.remembered.Full()], answered := true, own := false)
  }

  /** Daemon and cortex both fresh; the daemon's start-up full() is its first message. */
  function Start(cooldown: real): System {
    System(Fresh(cooldown), [Fresh(cooldown).remembered.Full()], BLANK, [], DARK, true, false, true)
  }

  predicate Legal(s: System, actions: seq<Action>)
    decreases |actions|
  {
    actions == [] || (Enabled(s, actions[0]) && Legal(Next(s, actions[0]), actions[1..]))
  }

  function After(s: System, actions: seq<Action>): System
    requires Legal(s, actions)
    decreases |actions|
  {
    if actions == [] then s else After(Next(s, actions[0]), actions[1..])
  }

  // ----- what agreement means ---------------------------------------------------------

  /** The four facts a display draws, and the open hold's start while the line is high.  After a
      fall the cortex keeps the last on_ts: None is never sent. */
  predicate CortexAgrees(r: Remembered, st: State) {
    && st.pirHigh == r.high && st.pirCount == r.count
    && st.pirLastTs == r.lastTs && st.pirLastHold == r.lastHold.GetOr(0.0)
    && (r.high ==> st.pirOnTs == r.onTs)
  }

  /** What the daemon has to tell: its count and level, and last_ts and last_hold once it has any. */
  predicate Tells(r: Remembered, st: State) {
    && st.pirHigh == r.high && st.pirCount == r.count
    && (r.lastTs.Some? ==> st.pirLastTs == r.lastTs)
    && (r.lastHold.Some? ==> st.pirLastHold == r.lastHold.value)
    && (r.high ==> st.pirOnTs == r.onTs)
  }

  /** The cortex holds no last_ts and no last_hold that this daemon has never had. */
  predicate NothingStale(r: Remembered, st: State) {
    (r.lastTs.None? ==> st.pirLastTs.None?) && (r.lastHold.None? ==> st.pirLastHold == 0.0)
  }

  predicate GlassAgrees(r: Remembered, v: PirView) {
    && v.high == r.high && v.count == r.count
    && v.lastTs == r.lastTs && v.lastHold == r.lastHold.GetOr(0.0)
    && (r.high ==> v.onTs == r.onTs)
  }

  function MergeAll(st: State, msgs: seq<PirMsg>): State {
    if msgs == [] then st else MergePir(MergeAll(st, msgs[..|msgs| - 1]), msgs[|msgs| - 1])
  }

  /** What the glass will show once it has drained its queue. */
  function Draining(s: System): PirView {
    if s.down == [] then s.glass else Held(s.down[|s.down| - 1])
  }

  function Viewed(st: State): PirView {
    PirView(st.pirHigh, st.pirCount, st.pirLastTs, st.pirOnTs, st.pirLastHold)
  }

  /** No message speaks of a fact the daemon has never had. */
  predicate NoNews(r: Remembered, m: PirMsg) {
    m.ts.None? && (r.lastTs.None? ==> m.lastTs.None?) && (r.lastHold.None? ==> m.lastHold.None?)
  }

  ghost predicate Inv(s: System) {
    var r := s.daemon.remembered;
    && (r.high ==> r.onTs.Some?)
    && (s.own ==> NothingStale(r, s.cortex) && forall m :: m in s.up ==> NoNews(r, m))
    && (s.answered ==> Tells(r, MergeAll(s.cortex, s.up)))
    && (s.published ==> Draining(s) == Viewed(s.cortex))
  }

  // ----- merging ------------------------------------------------------------------------

  lemma {:induction false} MergeAllAppend(st: State, a: seq<PirMsg>, b: seq<PirMsg>)
    ensures MergeAll(st, a + b) == MergeAll(MergeAll(st, a), b)
  {
    if b == [] {
      assert a + b == a;
    } else {
      MergeAllAppend(st, a, b[..|b| - 1]);
      assert (a + b)[..|a + b| - 1] == a + b[..|b| - 1];
    }
  }

  /** A full() merged into an empty cortex restores every field, on_ts included. */
  lemma OneFullRestoresAll(r: Remembered)
    ensures var st := MergePir(BLANK, r.Full());
            && st.pirHigh == r.high && st.pirCount == r.count && st.pirLastTs == r.lastTs
            && st.pirLastHold == r.lastHold.GetOr(0.0) && st.pirOnTs == r.onTs
  {
  }

  /** Merged into any cortex it restores agreement exactly when the cortex holds no last_ts and no
      last_hold that this daemon has never had: a restarted daemon does not clear an older one's. */
  lemma FullRestoresExactlyWhen(st: State, r: Remembered)
    requires r.high ==> r.onTs.Some?
    ensures CortexAgrees(r, MergePir(st, r.Full())) <==> NothingStale(r, st)
    ensures Tells(r, MergePir(st, r.Full()))
  {
  }

  lemma {:induction false} MergeAllWithoutNews(r: Remembered, st: State, msgs: seq<PirMsg>)
    requires forall m :: m in msgs ==> NoNews(r, m)
    requires NothingStale(r, st)
    ensures NothingStale(r, MergeAll(st, msgs))
  {
    if msgs != [] {
      MergeAllWithoutNews(r, st, msgs[..|msgs| - 1]);
      assert msgs[|msgs| - 1] in msgs;
    }
  }

  /** What an event sends brings a cortex that was told the daemon's memory to its new one. */
  lemma SentKeepsTelling(d: PirState, e: Event, st: State)
    requires Tells(d.remembered, st) && (d.remembered.high ==> d.remembered.onTs.Some?)
    ensures Tells(Step(d, e).remembered, MergeAll(st, Sent(d, e)))
  {
    match e
    case Seed(level, now) => MergeOne(st, SeedMsg(level, now));
    case ReadError =>
    case Poll(level, now) =>
      var (d', edge) := Edge(d, level, now);
      var (_, fire) := Streak(d', level, now);
      MessagesAppend(edge, fire);
      MergeAllAppend(st, Messages(edge), Messages(fire));
      EdgeKeepsTelling(d, level, now, st);
      FireKeepsTelling(d', level, now, MergeAll(st, Messages(edge)));
  }

  /** And one that agreed with it agrees with the new one. */
  lemma SentKeepsAgreement(d: PirState, e: Event, st: State)
    requires CortexAgrees(d.remembered, st) && (d.remembered.high ==> d.remembered.onTs.Some?)
    ensures CortexAgrees(Step(d, e).remembered, MergeAll(st, Sent(d, e)))
  {
    SentKeepsTelling(d, e, st);
    SenseMessages(d, e);
    MergeAllWithoutNews(Step(d, e).remembered, st, Sent(d, e));
  }

  lemma EdgeKeepsTelling(d: PirState, level: bool, now: real, st: State)
    requires Tells(d.remembered, st) && (d.remembered.high ==> d.remembered.onTs.Some?)
    ensures var (d', edge) := Edge(d, level, now);
            Tells(d'.remembered, MergeAll(st, Messages(edge)))
  {
    var (_, edge) := Edge(d, level, now);
    if edge != [] {
      MessagesOne(edge[0]);
      MergeOne(st, edge[0].msg);
    }
  }

  lemma FireKeepsTelling(d: PirState, level: bool, now: real, st: State)
    requires Tells(d.remembered, st)
    ensures var (d', fire) := Streak(d, level, now);
            Tells(d'.remembered, MergeAll(st, Messages(fire)))
  {
    var (_, fire) := Streak(d, level, now);
    if fire != [] {
      MessagesOne(fire[0]);
      MergeOne(st, fire[0].msg);
    }
  }

  lemma MergeOne(st: State, m: PirMsg)
    ensures MergeAll(st, [m]) == MergePir(st, m)
  {
    assert [m][..0] == [];
  }

  lemma MessagesOne(n: News)
    ensures Messages([n]) == [n.msg]
  {
  }

  lemma MessagesAppend(a: seq<News>, b: seq<News>)
    ensures Messages(a + b) == Messages(a) + Messages(b)
  {
  }

  // ----- every step keeps the invariant -------------------------------------------------

  lemma SenseMessages(d: PirState, e: Event)
    requires d.remembered.high ==> d.remembered.onTs.Some?
    ensures var r' := Step(d, e).remembered;
            && (r'.high ==> r'.onTs.Some?)
            && (r'.lastTs.None? ==> d.remembered.lastTs.None?)
            && (r'.lastHold.None? ==> d.remembered.lastHold.None?)
            && forall m :: m in Sent(d, e) ==> NoNews(r', m)
  {
    if e.Poll? {
      var (d', edge) := Edge(d, e.level, e.now);
      var (_, fire) := Streak(d', e.level, e.now);
      MessagesAppend(edge, fire);
      if edge != [] { MessagesOne(edge[0]); }
      if fire != [] { MessagesOne(fire[0]); }
    }
  }

  lemma SenseKeeps(s: System, e: Event)
    requires Inv(s)
    ensures Inv(Next(s, Sense(e)))
  {
    var t := Next(s, Sense(e));
    SenseMessages(s.daemon, e);
    if s.answered {
      MergeAllAppend(s.cortex, s.up, Sent(s.daemon, e));
      SentKeepsTelling(s.daemon, e, MergeAll(s.cortex, s.up));
    }
    if s.own {
      forall m | m in t.up ensures NoNews(t.daemon.remembered, m) {
        if m in s.up {
          assert NoNews(s.daemon.remembered, m);
        }
      }
    }
  }

  /** A full() at the end of the queue, this daemon's answer or a new one's start-up. */
  lemma FullTells(st: State, up: seq<PirMsg>, r: Remembered)
    requires r.high ==> r.onTs.Some?
    ensures Tells(r, MergeAll(st, up + [r.Full()]))
  {
    MergeAllAppend(st, up, [r.Full()]);
    MergeOne(MergeAll(st, up), r.Full());
    FullRestoresExactlyWhen(MergeAll(st, up), r);
  }

  lemma DeliverUpKeeps(s: System, now: real)
    requires Inv(s) && s.up != []
    ensures Inv(Next(s, DeliverUp(now)))
  {
    var t := Next(s, DeliverUp(now));
    assert s.up == [s.up[0]] + s.up[1..];
    MergeAllAppend(s.cortex, [s.up[0]], s.up[1..]);
    MergeOne(s.cortex, s.up[0]);
    assert s.own ==> NoNews(s.daemon.remembered, s.up[0]);
    assert t.down[|t.down| - 1] == BuildPir(t.cortex, now);
  }

  lemma NextKeeps(s: System, a: Action)
    requires Inv(s) && Enabled(s, a)
    ensures Inv(Next(s, a))
  {
    match a
    case Sense(e) => SenseKeeps(s, e);
    case Answer => FullTells(s.cortex, s.up, s.daemon.remembered);
    case DeliverUp(now) => DeliverUpKeeps(s, now);
    case DeliverDown =>
      if |s.down| > 1 {
        assert s.down[1..][|s.down| - 2] == s.down[|s.down| - 1];
      }
    case Restart(_, _) =>
    case DaemonRestart(keptUp) => FullTells(s.cortex, s.up[..keptUp], Fresh(s.daemon.cooldown).remembered);
  }

  lemma {:induction false} RunKeeps(s: System, actions: seq<Action>)
    requires Inv(s) && Legal(s, actions)
    ensures Inv(After(s, actions))
    decreases |actions|
  {
    if actions != [] {
      NextKeeps(s, actions[0]);
      RunKeeps(Next(s, actions[0]), actions[1..]);
    }
  }

  lemma StartHolds(cooldown: real)
    ensures Inv(Start(cooldown))
  {
    MergeOne(BLANK, Fresh(cooldown).remembered.Full());
  }

  // ----- the result -----------------------------------------------------------------------

  /** What the cortex will hold once it has merged what is queued for it. */
  function Settled(s: System): State { MergeAll(s.cortex, s.up) }

  /** In every run from the start, whatever was sensed, answered, left in flight, and whichever of
      the two restarted: a cortex that was sent a full payload is told all the daemon has to tell
      as soon as it has merged its queue, and agrees with its memory if and only if nothing stale
      of an earlier daemon is left in it; and so does the glass once both queues are drained. */
  lemma EveryRunAgrees(cooldown: real, actions: seq<Action>)
    requires Legal(Start(cooldown), actions)
    ensures var s := After(Start(cooldown), actions);
            var r := s.daemon.remembered;
            && (s.answered ==> Tells(r, Settled(s)) && (CortexAgrees(r, Settled(s)) <==> NothingStale(r, Settled(s))))
            && (s.answered && s.up == [] && s.published ==>
                  (GlassAgrees(r, Draining(s)) <==> NothingStale(r, s.cortex)))
            && (s.answered && s.up == [] && s.published && s.down == [] ==>
                  (GlassAgrees(r, s.glass) <==> NothingStale(r, s.cortex)))
            && (s.own ==> NothingStale(r, Settled(s)))
  {
    StartHolds(cooldown);
    RunKeeps(Start(cooldown), actions);
    var s := After(Start(cooldown), actions);
    if s.own { MergeAllWithoutNews(s.daemon.remembered, s.cortex, s.up); }
  }

  lemma {:induction false} StaysOwn(s: System, actions: seq<Action>)
    requires Legal(s, actions) && s.own && forall a :: a in actions ==> !a.DaemonRestart?
    ensures After(s, actions).own
    decreases |actions|
  {
    if actions != [] {
      assert actions[0] in actions;
      StaysOwn(Next(s, actions[0]), actions[1..]);
    }
  }

  /** So in every run with one daemon, however often the cortex restarts: an answered cortex agrees
      once it has merged its queue, and a glass it has published to once both are drained. */
  lemma OneDaemonAgrees(cooldown: real, actions: seq<Action>)
    requires Legal(Start(cooldown), actions) && forall a :: a in actions ==> !a.DaemonRestart?
    ensures var s := After(Start(cooldown), actions);
            && (s.answered ==> CortexAgrees(s.daemon.remembered, Settled(s)))
            && (s.answered && s.up == [] && s.published ==> GlassAgrees(s.daemon.remembered, Draining(s)))
            && (s.answered && s.up == [] && s.published && s.down == [] ==> GlassAgrees(s.daemon.remembered, s.glass))
  {
    EveryRunAgrees(cooldown, actions);
    StaysOwn(Start(cooldown), actions);
  }

  /** A restart whose queue to the cortex was lost, then one answer and its delivery: every field
      of the memory is back, on_ts included, and the glass gets it with the next message. */
  lemma RestartRecovers(s: System, keptDown: nat, now: real)
    requires Inv(s) && keptDown <= |s.down|
    ensures var actions := [Restart(|s.up|, keptDown), Answer, DeliverUp(now)];
            Legal(s, actions) &&
            var t := After(s, actions);
            && t.up == [] && Viewed(t.cortex) == Draining(t)
            && t.cortex.pirOnTs == s.daemon.remembered.onTs
            && CortexAgrees(s.daemon.remembered, t.cortex)
  {
    var s1 := Next(s, Restart(|s.up|, keptDown));
    var s2 := Next(s1, Answer);
    assert s1.up == [] && s2.up == [s.daemon.remembered.Full()];
    Three(s, Restart(|s.up|, keptDown), Answer, DeliverUp(now));
    Recovered(s, keptDown, now);
  }

  lemma Three(s: System, a: Action, b: Action, c: Action)
    requires Enabled(s, a) && Enabled(Next(s, a), b) && Enabled(Next(Next(s, a), b), c)
    ensures Legal(s, [a, b, c]) && After(s, [a, b, c]) == Next(Next(Next(s, a), b), c)
  {
    var s1 := Next(s, a);
    var s2 := Next(s1, b);
    assert [c] + [] == [c] && [b] + [c] == [b, c] && [a] + [b, c] == [a, b, c];
    Then(s2, c, []);
    Then(s1, b, [c]);
    Then(s, a, [b, c]);
  }

  lemma Recovered(s: System, keptDown: nat, now: real)
    requires Inv(s) && keptDown <= |s.down|
    ensures var s2 := Next(Next(s, Restart(|s.up|, keptDown)), Answer);
            Enabled(s2, DeliverUp(now)) &&
            var t := Next(s2, DeliverUp(now));
            && t.up == [] && Viewed(t.cortex) == Draining(t)
            && t.cortex.pirOnTs == s.daemon.remembered.onTs
            && CortexAgrees(s.daemon.remembered, t.cortex)
  {
    var s2 := Next(Next(s, Restart(|s.up|, keptDown)), Answer);
    OneFullRestoresAll(s.daemon.remembered);
    Answered(s, keptDown);
    LastDelivered(s2, now, s.daemon.remembered.Full());
  }

  lemma Answered(s: System, keptDown: nat)
    requires Inv(s) && keptDown <= |s.down|
    ensures var s2 := Next(Next(s, Restart(|s.up|, keptDown)), Answer);
            Inv(s2) && s2.up == [s.daemon.remembered.Full()] && s2.cortex == BLANK
  {
    var s1 := Next(s, Restart(|s.up|, keptDown));
    NextKeeps(s, Restart(|s.up|, keptDown));
    NextKeeps(s1, Answer);
    assert s1.up == [];
  }

  lemma LastDelivered(s: System, now: real, msg: PirMsg)
    requires Inv(s) && s.up == [msg]
    ensures var t := Next(s, DeliverUp(now));
            t.up == [] && t.cortex == MergePir(s.cortex, msg) && Viewed(t.cortex) == Draining(t)
  {
    NextKeeps(s, DeliverUp(now));
  }

  /** A daemon that has fired, then restarts under a cortex that was told so: the new daemon's
      start-up full() is merged, and the old one's last_ts is still there. */
  lemma DaemonRestartLeavesItStale(s: System, now: real)
    requires Inv(s) && s.answered && s.up == [] && s.daemon.remembered.lastTs.Some?
    ensures var t := Next(Next(s, DaemonRestart(0)), DeliverUp(now));
            && t.up == [] && t.answered && t.daemon.remembered.lastTs.None?
            && t.cortex.pirLastTs == s.daemon.remembered.lastTs
            && !CortexAgrees(t.daemon.remembered, t.cortex)
  {
  }

  lemma Then(s: System, a: Action, rest: seq<Action>)
    requires Enabled(s, a) && Legal(Next(s, a), rest)
    ensures Legal(s, [a] + rest) && After(s, [a] + rest) == After(Next(s, a), rest)
  {
    assert ([a] + rest)[1..] == rest;
  }

  lemma {:induction false} AfterBoth(s: System, a: seq<Action>, b: seq<Action>)
    requires Legal(s, a) && Legal(After(s, a), b)
    ensures Legal(s, a + b) && After(s, a + b) == After(After(s, a), b)
    decreases |a|
  {
    if a == [] {
      assert a + b == b;
    } else {
      var first, rest := a[0], a[1..];
      AfterBoth(Next(s, first), rest, b);
      Then(s, first, rest + b);
      assert a + b == [first] + (rest + b) by {
        assert a == [first] + rest;
        Assoc([first], rest, b);
      }
    }
  }

  function Deliveries(n: nat): seq<Action> { seq(n, _ => DeliverUp(0.0)) }

  /** Delivering all that is queued leaves the cortex as it was to settle. */
  lemma {:induction false} Drain(s: System)
    ensures Legal(s, Deliveries(|s.up|))
    ensures var t := After(s, Deliveries(|s.up|));
            t.up == [] && t.cortex == Settled(s) && t.daemon == s.daemon && t.answered == s.answered
    decreases |s.up|
  {
    if s.up != [] {
      var t := Next(s, DeliverUp(0.0));
      Drain(t);
      assert Deliveries(|s.up|) == [DeliverUp(0.0)] + Deliveries(|t.up|);
      Then(s, DeliverUp(0.0), Deliveries(|t.up|));
      assert s.up == [s.up[0]] + s.up[1..];
      MergeAllAppend(s.cortex, [s.up[0]], s.up[1..]);
      MergeOne(s.cortex, s.up[0]);
    }
  }

  const RISE := Sense(Poll(true, 100.0))
  const HELD := Sense(Poll(true, 100.2))

  /** The daemon rises, fires and restarts, its messages all on their way. */
  lemma FireThenRestart()
    ensures Legal(Start(5.0), [RISE, HELD, DaemonRestart(3)])
    ensures var s := After(Start(5.0), [RISE, HELD, DaemonRestart(3)]);
            && |s.up| == 4 && s.answered && s.daemon == Fresh(5.0) && Settled(s).pirLastTs == Some(100.2)
  {
    var s0 := Start(5.0);
    var s1, s2 := Next(s0, RISE), Next(Next(s0, RISE), HELD);
    var s3 := Next(s2, DaemonRestart(3));
    var rise, fire := NO_PIR.(high := Some(true), onTs := Some(100.0)), NO_PIR.(count := Some(1), lastTs := Some(100.2));
    var full := Fresh(5.0).remembered.Full();
    assert Sent(s0.daemon, RISE.e) == [rise];
    assert s1.up == [full, rise];
    assert Sent(s1.daemon, HELD.e) == [fire];
    assert s2.up == [full, rise, fire];
    assert s3.up == [full, rise, fire, full];
    MergeAllAppend(BLANK, [full, rise, fire], [full]);
    MergeAllAppend(BLANK, [full, rise], [fire]);
    MergeOne(MergeAll(BLANK, [full, rise]), fire);
    MergeOne(MergeAll(BLANK, [full, rise, fire]), full);
    assert [full, rise] + [fire] == [full, rise, fire] && [full, rise, fire] + [full] == s3.up;
    Then(s2, DaemonRestart(3), []);
    Then(s1, HELD, [DaemonRestart(3)]);
    Then(s0, RISE, [HELD, DaemonRestart(3)]);
    assert [RISE] + [HELD, DaemonRestart(3)] == [RISE, HELD, DaemonRestart(3)];
    assert [HELD] + [DaemonRestart(3)] == [HELD, DaemonRestart(3)] && [DaemonRestart(3)] + [] == [DaemonRestart(3)];
  }

  /** A run from the start that ends stale: one fire, the daemon restarts, everything is
      delivered, and the cortex holds a last_ts its daemon never had. */
  lemma RestartedDaemonLeavesStaleFacts()
    ensures Legal(Start(5.0), [RISE, HELD, DaemonRestart(3)] + Deliveries(4))
    ensures var s := After(Start(5.0), [RISE, HELD, DaemonRestart(3)] + Deliveries(4));
            && s.up == [] && s.answered && s.daemon == Fresh(5.0)
            && s.cortex.pirLastTs == Some(100.2) && !CortexAgrees(s.daemon.remembered, s.cortex)
  {
    FireThenRestart();
    var s := After(Start(5.0), [RISE, HELD, DaemonRestart(3)]);
    Drain(s);
    AfterBoth(Start(5.0), [RISE, HELD, DaemonRestart(3)], Deliveries(4));
  }
}
