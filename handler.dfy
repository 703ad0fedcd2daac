/** lambda_handler: one failover run, from the alarm event to the response, with the
    best-effort notifications around the promote-wait-repoint sequence. */
module Handler {
  import opened Wrappers
  import opened Cloud
  import opened Environment
  import opened Trigger
  import opened Promotion
  import opened Waiter
  import opened Credentials

  const ExpectedRegion := "us-east-1"
  const StartedSubject := "DR Failover Started"
  const CompletedSubject := "DR Failover Completed Successfully"
  const FailedSubject := "DR Failover Failed"

  /** send_notification: a failed publish is logged and swallowed, so the step always succeeds
      and the caller sees the same thing whether or not the message went out; `publishSucceeds`
      is therefore ignored. */
  function SendNotification(topicArn: string, subject: string, publishSucceeds: bool): Step<()> {
    Step(Ok(()), [Notify(topicArn, subject)])
  }

  /** The part of the run inside the inner try block: promote (or detect an earlier promotion),
      wait with the budget that case calls for, then repoint the secret. */
  function Recovery(cfg: Config, w: World): (s: Step<EndpointInfo>)
    // success reports the endpoint of the settled instance, and needs the secret to be stored
    // and the write accepted
    ensures s.result.Ok? ==> && w.rds.settledProbe.Some? && w.rds.settledProbe.value.endpoint.Some?
                             && s.result.value.endpoint == w.rds.settledProbe.value.endpoint.value.address
                             && s.result.value.port == w.rds.settledProbe.value.endpoint.value.port
    ensures s.result.Ok? ==> w.storedSecret.Some? && w.secretWriteAccepted
    // the secret is only touched once the promotion step succeeded
    ensures s.result.Err? && (s.result.error.SecretFetchFailed? || s.result.error.SecretWriteFailed?) ==>
              PromoteReadReplica(cfg.replicaId, w.rds).result.Ok?
  {
    var promotion := PromoteReadReplica(cfg.replicaId, w.rds);
    match promotion.result
    case Err(failure) => Step(Err(failure), promotion.calls)
    case Ok(outcome) =>
      var minutes := if outcome == AlreadyPromoted then AlreadyPromotedWaitMinutes else PromotionWaitMinutes;
      var wait := WaitStep(cfg.replicaId, w.rds, minutes);
      var calls := promotion.calls + wait.calls;
      match wait.result
      case Err(failure) => Step(Err(failure), calls)
      case Ok(info) =>
        var update := SecretUpdateStep(cfg.secretName, w.storedSecret, w.secretWriteAccepted,
                                       info.endpoint, info.port, w.clock);
        Step(if update.result.Ok? then Ok(info) else Err(update.result.error), calls + update.calls)
  }

  /** The inner try block: each step's calls are appended as it runs; the first error ends it. */
  method Recover(cfg: Config, w: World) returns (s: Step<EndpointInfo>)
    ensures s == Recovery(cfg, w)
  {
    var promotion := PromoteReadReplica(cfg.replicaId, w.rds);
    var calls := promotion.calls;
    if promotion.result.Err? {
      s := Step(Err(promotion.result.error), calls);
      return;
    }
    var minutes := if promotion.result.value == AlreadyPromoted then AlreadyPromotedWaitMinutes else PromotionWaitMinutes;
    var wait := WaitForPromotion(cfg.replicaId, w.rds, minutes);
    calls := calls + wait.calls;
    if wait.result.Err? {
      s := Step(Err(wait.result.error), calls);
      return;
    }
    var info := wait.result.value;
    var update := UpdateSecretWithNewEndpoint(cfg.secretName, w.storedSecret, w.secretWriteAccepted,
                                              info.endpoint, info.port, w.clock);
    calls := calls + update.calls;
    if update.result.Err? {
      s := Step(Err(update.result.error), calls);
    } else {
      s := Step(Ok(info), calls);
    }
  }

  /** The whole run as a value: the response the handler returns and the calls it issued. */
  function Failover(w: World): (r: Run)
    ensures r.response.statusCode in {200, 400, 500}
    // refusals come before any service call
    ensures r.response.statusCode == 400 ==> r.trace == []
    ensures r.response.body.FailoverCompleted? ==> r.response.statusCode == 200 && r.trace != []
  {
    match ValidateEnvironment(w.env)
    case Err(missing) => Run(Response(500, CriticalError(MissingVariables(missing))), [])
    case Ok(cfg) =>
      if cfg.region != ExpectedRegion then
        Run(Response(400, RegionMismatch(cfg.region, ExpectedRegion)), [])
      else
        match ParseTrigger(w.event)
        case Err(InvalidFormat) => Run(Response(400, InvalidMessageFormat), [])
        case Err(TypeFault) => Run(Response(500, CriticalError(MessageTypeError)), [])
        case Ok(trigger) =>
          if !RequiresAction(trigger, cfg) then
            Run(Response(200, NoActionRequired(trigger.alarmName, trigger.newState)), [])
          else
            var started := SendNotification(cfg.topicArn, StartedSubject, w.publishSucceeds).calls;
            var recovery := Recovery(cfg, w);
            match recovery.result
            case Ok(info) =>
              Run(Response(200, FailoverCompleted(info.endpoint, info.port)),
                  started + recovery.calls + SendNotification(cfg.topicArn, CompletedSubject, w.publishSucceeds).calls)
            case Err(failure) =>
              Run(Response(500, FailoverFailed(failure)),
                  started + recovery.calls + SendNotification(cfg.topicArn, FailedSubject, w.publishSucceeds).calls)
  }

  /** The handler, step by step: each service call is appended to the trace as it is made, and
      each raised error ends the run at the handler that catches it. */
  method LambdaHandler(w: World) returns (response: Response, trace: seq<Call>)
    ensures Run(response, trace) == Failover(w)
  {
    trace := [];
    var env := ValidateEnvironment(w.env);
    if env.Err? {
      response := Response(500, CriticalError(MissingVariables(env.error)));
      return;
    }
    var cfg := env.value;
    if cfg.region != ExpectedRegion {
      response := Response(400, RegionMismatch(cfg.region, ExpectedRegion));
      return;
    }
    var parsed := ParseTrigger(w.event);
    if parsed.Err? {
      if parsed.error == InvalidFormat {
        response := Response(400, InvalidMessageFormat);
      } else {
        response := Response(500, CriticalError(MessageTypeError));
      }
      return;
    }
    var trigger := parsed.value;
    if !RequiresAction(trigger, cfg) {
      response := Response(200, NoActionRequired(trigger.alarmName, trigger.newState));
      return;
    }

    var note := SendNotification(cfg.topicArn, StartedSubject, w.publishSucceeds);
    trace := note.calls;

    var recovery := Recover(cfg, w);
    trace := trace + recovery.calls;

    if recovery.result.Ok? {
      note := SendNotification(cfg.topicArn, CompletedSubject, w.publishSucceeds);
      trace := trace + note.calls;
      response := Response(200, FailoverCompleted(recovery.result.value.endpoint, recovery.result.value.port));
    } else {
      note := SendNotification(cfg.topicArn, FailedSubject, w.publishSucceeds);
      trace := trace + note.calls;
      response := Response(500, FailoverFailed(recovery.result.error));
    }
  }
}
