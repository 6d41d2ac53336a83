/** The PIR daemon: its memory, what a poll makes news of, and when a fire is confirmed. */
module Motion {
  import opened Options
  import opened Wire

  /** The daemon's own memory of what it has published. */
  datatype Remembered = Remembered(high: bool, count: nat, lastTs: Option<real>,
                                   lastHold: Option<real>, onTs: Option<real>)
  {
    /** What an init answer carries. */
    function Full(): PirMsg {
      PirMsg(Some(high), Some(count), lastTs, lastHold, onTs, None)
    }
  }

  datatype News =
    | StateNews(msg: PirMsg)
    | FireNews(msg: PirMsg, count: nat)

  datatype PirState = PirState(cooldown: real, remembered: Remembered, last: bool,
                               pending: nat, lastFire: real, onTs: Option<real>)

  function Fresh(cooldown: real): PirState {
    PirState(cooldown, Remembered(false, 0, None, None, None), false, 0, 0.0, None)
  }

  /** The message a boot seed publishes. */
  function SeedMsg(level: bool, now: real): PirMsg {
    NO_PIR.(high := Some(level), onTs := if level then Some(now) else None)
  }

  function Seeded(s: PirState, level: bool, now: real): PirState {
    if level
    then s.(remembered := s.remembered.(high := true, onTs := Some(now)), onTs := Some(now))
    else s.(remembered := s.remembered.(high := false))
  }

  function Hold(s: PirState, now: real): real {
    match s.onTs
    case Some(t) => now - t
    case None => 0.0
  }

  /** A change of level: memory and message. */
  function Edge(s: PirState, level: bool, now: real): (PirState, seq<News>) {
    if level == s.last then (s, [])
    else if level then
      (s.(onTs := Some(now), remembered := s.remembered.(high := true, onTs := Some(now))),
       [StateNews(NO_PIR.(high := Some(true), onTs := Some(now)))])
    else
      (s.(onTs := None,
          remembered := s.remembered.(high := false, lastHold := Some(Hold(s, now)), onTs := None)),
       [StateNews(NO_PIR.(high := Some(false), lastHold := Some(Hold(s, now))))])
  }

  /** A held level: the streak, and the fire it may confirm. */
  function Streak(s: PirState, level: bool, now: real): (PirState, seq<News>) {
    if !level then (s.(pending := 0, last := false), [])
    else
      var pending := if s.last then s.pending + 1 else 1;
      if pending >= 2 && now - s.lastFire >= s.cooldown then
        var count := s.remembered.count + 1;
        (s.(pending := pending, lastFire := now, last := true,
            remembered := s.remembered.(count := count, lastTs := Some(now))),
         [FireNews(NO_PIR.(count := Some(count), lastTs := Some(now)), count)])
      else (s.(pending := pending, last := true), [])
  }

  function Ticked(s: PirState, level: bool, now: real): (PirState, seq<News>) {
    var (s', edge) := Edge(s, level, now);
    var (s'', fire) := Streak(s', level, now);
    (s'', edge + fire)
  }

  class Pir {
    const cooldown: real
    var remembered: Remembered
    var last: bool
    var pending: nat
    var lastFire: real
    var onTs: Option<real>

    ghost function State(): PirState
      reads this
    {
      PirState(cooldown, remembered, last, pending, lastFire, onTs)
    }

    constructor (cooldown: real)
      ensures State() == Fresh(cooldown)
    {
      this.cooldown := cooldown;
      remembered := Remembered(false, 0, None, None, None);
      last, pending, lastFire, onTs := false, 0, 0.0, None;
    }

    method ResetPending()
      modifies this
      ensures State() == old(State()).(pending := 0)
    {
      pending := 0;
    }

    method Seed(level: bool, now: real) returns (msg: PirMsg)
      modifies this
      ensures State() == Seeded(old(State()), level, now)
      ensures msg == SeedMsg(level, now)
    {
      remembered := remembered.(high := level);
      if level {
        onTs := Some(now);
        remembered := remembered.(onTs := Some(now));
      }
      msg := NO_PIR.(high := Some(level), onTs := if level then Some(now) else None);
    }

    method Tick(level: bool, now: real) returns (out: seq<News>)
      modifies this
      ensures (State(), out) == Ticked(old(State()), level, now)
    {
      out := [];
      if level != last {
        if level {
          onTs := Some(now);
          remembered := remembered.(high := true, onTs := Some(now));
          out := out + [StateNews(NO_PIR.(high := Some(true), onTs := Some(now)))];
        } else {
          var hold := match onTs { case Some(t) => now - t case None => 0.0 };
          onTs := None;
          remembered := remembered.(high := false, lastHold := Some(hold), onTs := None);
          out := out + [StateNews(NO_PIR.(high := Some(false), lastHold := Some(hold)))];
        }
      }
      if level {
        pending := if last then pending + 1 else 1;
        if pending >= 2 && now - lastFire >= cooldown {
          lastFire := now;
          remembered := remembered.(count := remembered.count + 1, lastTs := Some(now));
          out := out + [FireNews(NO_PIR.(count := Some(remembered.count), lastTs := Some(now)),
                                 remembered.count)];
        }
      } else {
        pending := 0;
      }
      last := level;
      assert out == Ticked(old(State()), level, now).1;
    }
  }

  // ----- runs ---------------------------------------------------------------------

  datatype Event =
    | Seed(level: bool, now: real)
    | Poll(level: bool, now: real)
    | ReadError

  function Step(s: PirState, e: Event): PirState {
    match e
    case Seed(level, now) => Seeded(s, level, now)
    case Poll(level, now) => Ticked(s, level, now).0
    case ReadError => s.(pending := 0)
  }

  function Messages(news: seq<News>): seq<PirMsg> {
    seq(|news|, i requires 0 <= i < |news| => news[i].msg)
  }

  /** What one event puts on the wire, in order. */
  function Sent(s: PirState, e: Event): seq<PirMsg> {
    match e
    case Seed(level, now) => [SeedMsg(level, now)]
    case Poll(level, now) => Messages(Ticked(s, level, now).1)
    case ReadError => []
  }

  function Run(s: PirState, es: seq<Event>): PirState {
    if es == [] then s else Step(Run(s, es[..|es| - 1]), es[|es| - 1])
  }

  /** Did this event fire, on a daemon in state s? */
  predicate Fires(s: PirState, e: Event) {
    e.Poll? && exists n :: n in Ticked(s, e.level, e.now).1 && n.FireNews?
  }

  // ----- the fire law ---------------------------------------------------------------

  /** High polls at the end of a history, since the last low poll or read error.  A seed is no
      poll. */
  function TrailingHighs(es: seq<Event>): nat {
    if es == [] then 0 else
    var before := es[..|es| - 1];
    match es[|es| - 1]
    case Poll(level, _) => if level then TrailingHighs(before) + 1 else 0
    case ReadError => 0
    case Seed(_, _) => TrailingHighs(before)
  }

  /** The fires a history ought to have had: a streak of two, and the cooldown since the fire
      before it (since time 0 for the first). */
  function FireTimes(cooldown: real, es: seq<Event>): seq<real> {
    if es == [] then [] else
    var before := es[..|es| - 1];
    var times := FireTimes(cooldown, before);
    match es[|es| - 1]
    case Poll(level, now) =>
      if level && TrailingHighs(before) >= 1 && now - LastOr0(times) >= cooldown
      then times + [now] else times
    case _ => times
  }

  function LastOr0(times: seq<real>): real {
    if times == [] then 0.0 else times[|times| - 1]
  }

  lemma {:induction false} StreakIsTrailingHighs(cooldown: real, es: seq<Event>)
    ensures var s := Run(Fresh(cooldown), es);
            s.pending == TrailingHighs(es) && s.cooldown == cooldown && (!s.last ==> s.pending == 0)
  {
    if es != [] {
      StreakIsTrailingHighs(cooldown, es[..|es| - 1]);
    }
  }

  /** The machine fires exactly when the law says so: the streak and cooldown it keeps in two
      variables are those of the whole history; the count is the number of fires. */
  lemma {:induction false} FiresByTheLaw(cooldown: real, es: seq<Event>)
    ensures var s := Run(Fresh(cooldown), es);
            && s.remembered.count == |FireTimes(cooldown, es)|
            && s.lastFire == LastOr0(FireTimes(cooldown, es))
            && s.remembered.lastTs == (if s.remembered.count == 0 then None else Some(s.lastFire))
  {
    if es != [] {
      FiresByTheLaw(cooldown, es[..|es| - 1]);
      StreakIsTrailingHighs(cooldown, es[..|es| - 1]);
    }
  }

  lemma FiresExactlyWhen(cooldown: real, es: seq<Event>, level: bool, now: real)
    ensures Fires(Run(Fresh(cooldown), es), Poll(level, now)) <==>
            && level && TrailingHighs(es + [Poll(level, now)]) >= 2
            && now - LastOr0(FireTimes(cooldown, es)) >= cooldown
  {
    StreakIsTrailingHighs(cooldown, es);
    FiresByTheLaw(cooldown, es);
    assert (es + [Poll(level, now)])[..|es|] == es;
    var s := Run(Fresh(cooldown), es);
    var (s', edge) := Edge(s, level, now);
    var (_, fire) := Streak(s', level, now);
    assert forall n :: n in edge ==> n.StateNews?;
    if fire != [] {
      assert (edge + fire)[|edge|] == fire[0];
    }
  }

  /** What a fire's news says: its number among all fires so far, and its time. */
  lemma FireSays(cooldown: real, es: seq<Event>, level: bool, now: real, n: News)
    requires n in Ticked(Run(Fresh(cooldown), es), level, now).1 && n.FireNews?
    ensures FireTimes(cooldown, es + [Poll(level, now)]) == FireTimes(cooldown, es) + [now]
    ensures n.count == |FireTimes(cooldown, es)| + 1
    ensures n.msg == NO_PIR.(count := Some(n.count), lastTs := Some(now))
  {
    FiresByTheLaw(cooldown, es);
    StreakIsTrailingHighs(cooldown, es);
    assert (es + [Poll(level, now)])[..|es|] == es;
  }

  lemma {:induction false} FiresAreSpaced(cooldown: real, es: seq<Event>, i: nat, j: nat)
    requires i < j < |FireTimes(cooldown, es)|
    ensures FireTimes(cooldown, es)[j] - FireTimes(cooldown, es)[i] >= ((j - i) as real) * cooldown
    decreases |es|, j - i
  {
    var before := es[..|es| - 1];
    var times, was := FireTimes(cooldown, es), FireTimes(cooldown, before);
    if j < |was| {
      FiresAreSpaced(cooldown, before, i, j);
    } else if i < j - 1 {
      FiresAreSpaced(cooldown, before, i, j - 1);
      assert ((j - i) as real) * cooldown == ((j - 1 - i) as real) * cooldown + cooldown;
    }
  }

  /** However long the motion lasts, an interval of length `span` holds at most
      1 + span / cooldown fires. */
  lemma FireRate(cooldown: real, es: seq<Event>, i: nat, n: nat, span: real)
    requires cooldown > 0.0 && n > 0 && i + n <= |FireTimes(cooldown, es)|
    requires FireTimes(cooldown, es)[i + n - 1] - FireTimes(cooldown, es)[i] <= span
    ensures n as real <= 1.0 + span / cooldown
  {
    var gaps := (n - 1) as real;
    if n > 1 {
      FiresAreSpaced(cooldown, es, i, i + n - 1);
    }
    assert gaps * cooldown <= span;
    AtMostQuotient(gaps, cooldown, span);
  }

  lemma AtMostQuotient(a: real, b: real, c: real)
    requires b > 0.0 && a * b <= c
    ensures a <= c / b
  {
    var q := c / b;
    assert q * b == c;
    if a > q { Above(a, q, b); }
  }

  lemma Above(a: real, q: real, b: real)
    requires a > q && b > 0.0
    ensures a * b > q * b
  {
    assert (a - q) * b > 0.0;
  }

  // ----- edges -----------------------------------------------------------------------

  /** The edge reports a run of polls and read errors publishes: (level, time, hold). */
  function Edges(s: PirState, es: seq<Event>): seq<(bool, real, Option<real>)> {
    if es == [] then [] else
    var before := es[..|es| - 1];
    var prior := Edges(s, before);
    match es[|es| - 1]
    case Poll(level, now) =>
      var news := Edge(Run(s, before), level, now).1;
      if news == [] then prior else prior + [(level, now, news[0].msg.lastHold)]
    case _ => prior
  }

  predicate NoSeeds(es: seq<Event>) { forall e :: e in es ==> !e.Seed? }

  /** From a fresh or boot-seeded daemon: rises and falls alternate, a rise first, and every
      fall's hold is its own time minus the time of the rise before it. */
  lemma {:induction false} EdgesAlternate(s: PirState, es: seq<Event>)
    requires NoSeeds(es) && !s.last
    ensures var edges := Edges(s, es);
            && (forall i: nat :: i < |edges| ==> edges[i].0 == (i % 2 == 0))
            && (forall i: nat :: i < |edges| && i % 2 == 1 ==>
                  edges[i].2 == Some(edges[i].1 - edges[i - 1].1))
            && Run(s, es).last == (|edges| % 2 == 1)
            && (|edges| % 2 == 1 ==> Run(s, es).onTs == Some(edges[|edges| - 1].1))
  {
    if es != [] {
      EdgesAlternate(s, es[..|es| - 1]);
    }
  }

  // ----- the memory and the pin -------------------------------------------------------

  /** The level the pin was last read at. */
  function LastPolled(es: seq<Event>): Option<bool> {
    if es == [] then None
    else if es[|es| - 1].Poll? then Some(es[|es| - 1].level)
    else LastPolled(es[..|es| - 1])
  }

  lemma {:induction false} LastIsPolled(cooldown: real, es: seq<Event>)
    ensures Run(Fresh(cooldown), es).last == LastPolled(es).GetOr(false)
  {
    if es != [] { LastIsPolled(cooldown, es[..|es| - 1]); }
  }

  /** A poll makes news of the level exactly when it differs from the poll before it, low before
      any; and the news is the level polled, with the time of a rise. */
  lemma EdgeSays(cooldown: real, es: seq<Event>, level: bool, now: real)
    ensures var news := Ticked(Run(Fresh(cooldown), es), level, now).1;
            && (level != LastPolled(es).GetOr(false) <==> exists n :: n in news && n.StateNews?)
            && forall n :: n in news && n.StateNews? ==>
                 n.msg.high == Some(level) && n.msg.onTs == if level then Some(now) else None
  {
    LastIsPolled(cooldown, es);
    var s := Run(Fresh(cooldown), es);
    var (s', edge) := Edge(s, level, now);
    var (_, fire) := Streak(s', level, now);
    if edge != [] { assert (edge + fire)[0] == edge[0]; }
  }

  ghost predicate PolledHigh(es: seq<Event>) { exists e :: e in es && e.Poll? && e.level }

  lemma {:induction false} PollsKeepTrack(level: bool, now: real, cooldown: real, es: seq<Event>)
    requires NoSeeds(es)
    ensures var s := Run(Seeded(Fresh(cooldown), level, now), es);
            && s.last == LastPolled(es).GetOr(false)
            && s.remembered.high == (if PolledHigh(es) then s.last else level)
            && (PolledHigh(es) ==> LastPolled(es).Some?) && (s.last ==> PolledHigh(es))
  {
    if es != [] {
      var before, e := es[..|es| - 1], es[|es| - 1];
      assert es == before + [e];
      PollsKeepTrack(level, now, cooldown, before);
      assert e in es;
      if PolledHigh(before) {
        var q :| q in before && q.Poll? && q.level;
        assert q in es;
      }
    }
  }

  /** After a boot seed and any polls and read errors, at least one poll among them, the memory
      holds the level last polled, unless the seed saw it high and no poll ever did: that high is
      never withdrawn. */
  lemma MemoryHoldsThePin(level: bool, now: real, cooldown: real, es: seq<Event>)
    requires NoSeeds(es) && LastPolled(es).Some?
    ensures Run(Seeded(Fresh(cooldown), level, now), es).remembered.high == LastPolled(es).value
            <==> !(level && !PolledHigh(es))
  {
    PollsKeepTrack(level, now, cooldown, es);
  }
}
