/** Reading the CloudWatch alarm out of the SNS event, and deciding whether it calls for a
    failover. */
module Trigger {
  import opened Wrappers
  import opened Cloud
  import opened Environment

  /** The alarm notification the handler acts on. */
  datatype AlarmEvent = AlarmEvent(alarmName: string, newState: string, reason: string)

  /** InvalidFormat is answered with 400; TypeFault escapes the parser's own handler. */
  datatype ParseError = InvalidFormat | TypeFault

  const AlarmState := "ALARM"
  const DefaultReason := "Unknown"

  /** Succeeds exactly when the message was decoded and carries both an alarm name and a new
      state; a missing reason is not an error and reads as "Unknown". */
  function ParseTrigger(e: Envelope): (r: Result<AlarmEvent, ParseError>)
    ensures r.Ok? <==> e.Message? && e.alarmName.Some? && e.newStateValue.Some?
    ensures r.Err? ==> (r.error == TypeFault <==> e.WrongType?)
    ensures r.Ok? ==> && r.value.alarmName == e.alarmName.value
                      && r.value.newState == e.newStateValue.value
                      && (e.newStateReason.None? ==> r.value.reason == DefaultReason)
                      && (e.newStateReason.Some? ==> r.value.reason == e.newStateReason.value)
  {
    match e
    case NoMessage => Err(InvalidFormat)
    case Undecodable => Err(InvalidFormat)
    case WrongType => Err(TypeFault)
    case Message(alarmName, newStateValue, newStateReason) =>
      if alarmName.None? || newStateValue.None? then Err(InvalidFormat)
      else
        var reason := match newStateReason case Some(text) => text case None => DefaultReason;
        Ok(AlarmEvent(alarmName.value, newStateValue.value, reason))
  }

  /** Only the configured alarm, in state ALARM, starts a failover. */
  predicate RequiresAction(t: AlarmEvent, cfg: Config) {
    t.newState == AlarmState && t.alarmName == cfg.alarmName
  }
}
