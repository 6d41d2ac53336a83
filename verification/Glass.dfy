/** The middle hop and the far end: what the cortex publishes and what a display holds. */
module Glass {
  import opened Options
  import opened Wire
  import opened CortexState

  /** The whole PIR picture; only last_ts and on_ts can be missing from it. */
  function BuildPir(st: State, now: real): PirMsg {
    PirMsg(Some(st.pirHigh), Some(st.pirCount), st.pirLastTs, Some(st.pirLastHold), st.pirOnTs, Some(now))
  }

  /** The held PIR readings of a display. */
  datatype PirView = PirView(high: bool, count: nat, lastTs: Option<real>, onTs: Option<real>, lastHold: real)

  const DARK := PirView(false, 0, None, None, 0.0)

  /** Last frame per topic, taken whole: an absent field is the default, not the held one. */
  function Held(m: PirMsg): PirView {
    PirView(m.high.GetOr(false), m.count.GetOr(0), m.lastTs, m.onTs, m.lastHold.GetOr(0.0))
  }

  /** The PIR part of a display's state. */
  class RenderState {
    var pirHigh: bool
    var pirCount: nat
    var pirLastTs: Option<real>
    var pirOnTs: Option<real>
    var pirLastHold: real

    ghost function View(): PirView
      reads this
    {
      PirView(pirHigh, pirCount, pirLastTs, pirOnTs, pirLastHold)
    }

    constructor ()
      ensures View() == DARK
    {
      pirHigh, pirCount, pirLastTs, pirOnTs, pirLastHold := false, 0, None, None, 0.0;
    }

    /** Topic and body must agree; any other pair leaves the PIR readings alone. */
    method Hold(topic: string, body: Body)
      modifies this
      ensures View() == if topic == "pir" && body.PirBody? then Held(body.pir) else old(View())
      ensures topic == "pir" && body.PirBody? ==>
                && pirHigh == (body.pir.high == Some(true))
                && pirCount == (match body.pir.count case None => 0 case Some(n) => n)
                && pirLastTs == body.pir.lastTs && pirOnTs == body.pir.onTs
                && pirLastHold == (match body.pir.lastHold case None => 0.0 case Some(x) => x)
    {
      if topic == "pir" && body.PirBody? {
        var m := body.pir;
        pirHigh := m.high.GetOr(false);
        pirCount := m.count.GetOr(0);
        pirLastTs := m.lastTs;
        pirOnTs := m.onTs;
        pirLastHold := m.lastHold.GetOr(0.0);
      }
    }
  }
}
