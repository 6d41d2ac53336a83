module Options {
  datatype Option<+T> = None | Some(value: T) {
    function GetOr(default: T): T {
      match this
      case Some(v) => v
      case None => default
    }
  }
}

/** The messages, by presence: a field a daemon did not measure is None. */
module Wire {
  import opened Options

  datatype PirMsg = PirMsg(high: Option<bool>, count: Option<nat>, lastTs: Option<real>,
                           lastHold: Option<real>, onTs: Option<real>, ts: Option<real>)

  const NO_PIR := PirMsg(None, None, None, None, None, None)

  datatype SonarMsg = SonarMsg(cm: Option<real>, count: Option<nat>, ts: Option<real>)

  datatype WeatherMsg = WeatherMsg(tempC: Option<real>, humPct: Option<real>, ts: Option<real>,
                                   count: Option<nat>, pressureHpa: Option<real>)

  const NO_WEATHER := WeatherMsg(None, None, None, None, None)

  datatype FaultRow = FaultRow(level: string, code: string, text: string, face: Option<string>)

  datatype FaultMsg = FaultMsg(rows: seq<FaultRow>, condition: Option<string>, ts: Option<real>)

  datatype Body =
    | PirBody(pir: PirMsg)
    | SonarBody(sonar: SonarMsg)
    | WeatherBody(weather: WeatherMsg)
    | FaultBody(fault: FaultMsg)
    | OtherBody
}
