/** What one failover run promises, stated over the run value `Failover(w)` that the handler
    method is proved to produce. */
module HandlerProperties {
  import opened Wrappers
  import opened Cloud
  import opened Environment
  import opened Trigger
  import opened Promotion
  import opened Waiter
  import opened Credentials
  import opened Handler

  /** The configuration is complete, the region is right and the event is the configured alarm
      in state ALARM: the run goes past the filter. */
  predicate ActsOn(w: World) {
    var env := ValidateEnvironment(w.env);
    && env.Ok? && env.value.region == ExpectedRegion
    && ParseTrigger(w.event).Ok? && RequiresAction(ParseTrigger(w.event).value, env.value)
  }

  /** The configuration of a run whose environment is complete. */
  function Configured(w: World): Config
    requires ValidateEnvironment(w.env).Ok?
  {
    ValidateEnvironment(w.env).value
  }

  /** 15 minutes after a real promotion, 1 minute when the instance was already promoted. */
  function WaitMinutes(rds: Rds): nat {
    if IsReadReplica(rds.replicaProbe) then PromotionWaitMinutes else AlreadyPromotedWaitMinutes
  }

  predicate PromotionSucceeds(rds: Rds) {
    !IsReadReplica(rds.replicaProbe) || (Promotable(rds) && rds.promoteAccepted)
  }

  predicate WaitSucceeds(rds: Rds) {
    && Converged(rds.polls, MaxAttempts(WaitMinutes(rds)))
    && rds.settledProbe.Some? && rds.settledProbe.value.endpoint.Some?
  }

  predicate RecoverySucceeds(w: World) {
    PromotionSucceeds(w.rds) && WaitSucceeds(w.rds) && w.storedSecret.Some? && w.secretWriteAccepted
  }

  /** The secret a run writes once the instance has settled with an endpoint. */
  function RepointedSecret(w: World, stored: Secret): Secret
    requires w.rds.settledProbe.Some? && w.rds.settledProbe.value.endpoint.Some?
  {
    var endpoint := w.rds.settledProbe.value.endpoint.value;
    Merged(stored, endpoint.address, endpoint.port, w.clock)
  }

  /** The promote-wait-repoint sequence succeeds exactly when every step does, and then reports
      the settled endpoint. */
  lemma RecoveryOutcome(cfg: Config, w: World)
    ensures Recovery(cfg, w).result.Ok? <==> RecoverySucceeds(w)
    ensures Recovery(cfg, w).result.Ok? ==>
              && Recovery(cfg, w).result.value.endpoint == w.rds.settledProbe.value.endpoint.value.address
              && Recovery(cfg, w).result.value.port == w.rds.settledProbe.value.endpoint.value.port
  {
  }

  /** The calls of the promote-wait-repoint sequence: no notification, one promote call (the
      one with the fixed settings) exactly when promotable, and polls within the budget of the
      case. */
  lemma RecoveryCounts(cfg: Config, w: World)
    ensures var calls := Recovery(cfg, w).calls;
      && Count(calls, NotifyKind) == 0
      && Count(calls, PromoteKind) == (if Promotable(w.rds) then 1 else 0)
      && (Promotable(w.rds) ==> PromoteCall(cfg.replicaId) in calls)
      && Count(calls, PollKind) <= MaxAttempts(WaitMinutes(w.rds))
  {
    var id := cfg.replicaId;
    var promotion := PromoteReadReplica(id, w.rds);
    if promotion.result.Ok? {
      var wait := WaitStep(id, w.rds, WaitMinutes(w.rds));
      CountConcatAll(promotion.calls, wait.calls);
      if wait.result.Ok? {
        var info := wait.result.value;
        var update := SecretUpdateStep(cfg.secretName, w.storedSecret, w.secretWriteAccepted,
                                       info.endpoint, info.port, w.clock);
        CountConcatAll(promotion.calls + wait.calls, update.calls);
      }
    }
  }

  /** One write, of the merged record, exactly when promotion and wait succeeded and the secret
      was fetched; none otherwise. */
  lemma RecoveryWrites(cfg: Config, w: World)
    ensures var calls := Recovery(cfg, w).calls;
      && Count(calls, WriteKind) == (if PromotionSucceeds(w.rds) && WaitSucceeds(w.rds) && w.storedSecret.Some? then 1 else 0)
      && (PromotionSucceeds(w.rds) && WaitSucceeds(w.rds) && w.storedSecret.Some? ==>
            WriteSecret(cfg.secretName, RepointedSecret(w, w.storedSecret.value)) in calls)
  {
    var id := cfg.replicaId;
    var promotion := PromoteReadReplica(id, w.rds);
    if promotion.result.Ok? {
      var wait := WaitStep(id, w.rds, WaitMinutes(w.rds));
      CountConcat(promotion.calls, wait.calls, WriteKind);
      if wait.result.Ok? {
        var info := wait.result.value;
        var update := SecretUpdateStep(cfg.secretName, w.storedSecret, w.secretWriteAccepted,
                                       info.endpoint, info.port, w.clock);
        CountConcat(promotion.calls + wait.calls, update.calls, WriteKind);
      }
    }
  }

  // ---------------------------------------------------------------------------------------
  // Runs stopped by the filter

  /** A missing or empty variable is caught by the outer handler: 500, nothing called. */
  lemma MissingConfigurationIsCritical(w: World)
    requires exists k :: k in RequiredVars && !Present(w.env, k)
    ensures Failover(w).trace == []
    ensures Failover(w).response.statusCode == 500
    ensures Failover(w).response.body.CriticalError? && Failover(w).response.body.cause.MissingVariables?
    ensures forall k :: k in Failover(w).response.body.cause.names <==> k in RequiredVars && !Present(w.env, k)
  {
  }

  /** A run outside us-east-1 is refused with 400 before anything is called. */
  lemma WrongRegionIsRejected(w: World)
    requires forall k :: k in RequiredVars ==> Present(w.env, k)
    requires "AWS_REGION" in w.env && w.env["AWS_REGION"] != ExpectedRegion
    ensures Failover(w) == Run(Response(400, RegionMismatch(w.env["AWS_REGION"], ExpectedRegion)), [])
  {
  }

  /** An event without a decodable message, an alarm name or a new state is refused with 400. */
  lemma MalformedEventIsRejected(w: World)
    requires forall k :: k in RequiredVars ==> Present(w.env, k)
    requires "AWS_REGION" in w.env && w.env["AWS_REGION"] == ExpectedRegion
    requires || w.event.NoMessage? || w.event.Undecodable?
             || (w.event.Message? && (w.event.alarmName.None? || w.event.newStateValue.None?))
    ensures Failover(w) == Run(Response(400, InvalidMessageFormat), [])
  {
  }

  /** A message that decodes to something other than a JSON object raises a TypeError, which
      only the outer handler catches: 500, nothing called. */
  lemma UnindexableMessageIsCritical(w: World)
    requires forall k :: k in RequiredVars ==> Present(w.env, k)
    requires "AWS_REGION" in w.env && w.env["AWS_REGION"] == ExpectedRegion
    requires w.event.WrongType?
    ensures Failover(w) == Run(Response(500, CriticalError(MessageTypeError)), [])
  {
  }

  /** Any other alarm, or the right alarm in any other state, needs no action: 200, echoing the
      alarm and its state, nothing called. */
  lemma OtherAlarmsNeedNoAction(w: World)
    requires forall k :: k in RequiredVars ==> Present(w.env, k)
    requires "AWS_REGION" in w.env && w.env["AWS_REGION"] == ExpectedRegion
    requires w.event.Message? && w.event.alarmName.Some? && w.event.newStateValue.Some?
    requires "PRIMARY_HEALTH_ALARM_NAME" in w.env
    requires w.event.newStateValue.value != AlarmState || w.event.alarmName.value != w.env["PRIMARY_HEALTH_ALARM_NAME"]
    ensures Failover(w) == Run(Response(200, NoActionRequired(w.event.alarmName.value, w.event.newStateValue.value)), [])
  {
  }

  /** Something is called exactly when the run goes past the filter; a 400 never calls
      anything, and past the filter the answer is 200 exactly when every step succeeded. */
  lemma StatusCodes(w: World)
    ensures Failover(w).trace != [] <==> ActsOn(w)
    ensures Failover(w).response.statusCode in {200, 400, 500}
    ensures Failover(w).response.statusCode == 400 ==> !ActsOn(w)
    ensures ActsOn(w) ==> (Failover(w).response.statusCode == 200 <==> RecoverySucceeds(w))
    ensures ActsOn(w) ==> Failover(w).response.statusCode != 400
  {
    if ActsOn(w) {
      RecoveryOutcome(Configured(w), w);
    }
  }

  // ---------------------------------------------------------------------------------------
  // Runs past the filter

  /** Past the filter the trace is the start notification, the promote-wait-repoint calls and
      one closing notification, whose subject matches the answer. */
  lemma FailoverShape(w: World)
    requires ActsOn(w)
    ensures var cfg := Configured(w);
      var recovery := Recovery(cfg, w);
      && (recovery.result.Ok? ==>
            Failover(w) == Run(Response(200, FailoverCompleted(recovery.result.value.endpoint, recovery.result.value.port)),
                               [Notify(cfg.topicArn, StartedSubject)] + recovery.calls + [Notify(cfg.topicArn, CompletedSubject)]))
      && (recovery.result.Err? ==>
            Failover(w) == Run(Response(500, FailoverFailed(recovery.result.error)),
                               [Notify(cfg.topicArn, StartedSubject)] + recovery.calls + [Notify(cfg.topicArn, FailedSubject)]))
  {
  }

  /** Counting the calls of a trace framed by two notifications. */
  lemma FramedCounts(topicArn: string, first: string, calls: seq<Call>, last: string)
    ensures forall k :: Count([Notify(topicArn, first)] + calls + [Notify(topicArn, last)], k) ==
                          Count(calls, k) + if k == NotifyKind then 2 else 0
  {
    var start := [Notify(topicArn, first)];
    CountConcatAll(start, calls);
    CountAppend(start + calls, Notify(topicArn, last));
    CountAppend([], Notify(topicArn, first));
    assert [] + start == start;
  }

  /** Exactly two notifications: "DR Failover Started" first, before any promotion, and last
      either the success or the failure notification, as the answer says. */
  lemma NotificationProtocol(w: World)
    requires ActsOn(w)
    ensures var t := Failover(w).trace;
      && |t| >= 2 && Count(t, NotifyKind) == 2
      && t[0] == Notify(Configured(w).topicArn, StartedSubject)
      && (Failover(w).response.statusCode == 200 ==> t[|t| - 1] == Notify(Configured(w).topicArn, CompletedSubject))
      && (Failover(w).response.statusCode == 500 ==> t[|t| - 1] == Notify(Configured(w).topicArn, FailedSubject))
  {
    var cfg := Configured(w);
    var recovery := Recovery(cfg, w);
    FailoverShape(w);
    RecoveryCounts(cfg, w);
    FramedCounts(cfg.topicArn, StartedSubject, recovery.calls, if recovery.result.Ok? then CompletedSubject else FailedSubject);
  }

  /** Calls of one operation in a whole run: those of the promote-wait-repoint sequence when the
      run gets that far, none otherwise. */
  lemma RunCounts(w: World, k: Kind)
    requires k != NotifyKind
    ensures Count(Failover(w).trace, k) == if ActsOn(w) then Count(Recovery(Configured(w), w).calls, k) else 0
  {
    if ActsOn(w) {
      var cfg := Configured(w);
      var recovery := Recovery(cfg, w);
      FailoverShape(w);
      FramedCounts(cfg.topicArn, StartedSubject, recovery.calls, if recovery.result.Ok? then CompletedSubject else FailedSubject);
    } else {
      StatusCodes(w);
    }
  }

  /** The promote call is issued once, with the fixed settings, exactly when the run goes past
      the filter and the instance is a replica in state 'available'; never otherwise. */
  lemma PromotionOnlyWhenPromotable(w: World)
    ensures Count(Failover(w).trace, PromoteKind) == if ActsOn(w) && Promotable(w.rds) then 1 else 0
    ensures ActsOn(w) && Promotable(w.rds) ==> PromoteCall(Configured(w).replicaId) in Failover(w).trace
  {
    RunCounts(w, PromoteKind);
    if ActsOn(w) {
      RecoveryCounts(Configured(w), w);
      FailoverShape(w);
    }
  }

  /** Running again against an instance that is no longer a replica issues no promote call and
      waits for at most two polls. */
  lemma AlreadyPromotedIsNotPromotedAgain(w: World)
    requires !IsReadReplica(w.rds.replicaProbe)
    ensures Count(Failover(w).trace, PromoteKind) == 0
    ensures Count(Failover(w).trace, PollKind) <= 2
    ensures forall c :: c in Failover(w).trace ==> !c.Promote?
  {
    PromotionOnlyWhenPromotable(w);
    NoCallOfKind(Failover(w).trace, PromoteKind);
    RunCounts(w, PollKind);
    if ActsOn(w) {
      RecoveryCounts(Configured(w), w);
    }
  }

  /** No run polls more often than 2 * 15 times. */
  lemma AttemptBudget(w: World)
    ensures Count(Failover(w).trace, PollKind) <= MaxAttempts(WaitMinutes(w.rds)) <= 30
  {
    RunCounts(w, PollKind);
    if ActsOn(w) {
      RecoveryCounts(Configured(w), w);
    }
  }

  /** The merged record is written once exactly when promotion and wait succeeded and the secret
      was fetched; otherwise nothing is written. */
  lemma SecretWrittenOnlyAfterConvergence(w: World)
    ensures Count(Failover(w).trace, WriteKind) ==
              if ActsOn(w) && PromotionSucceeds(w.rds) && WaitSucceeds(w.rds) && w.storedSecret.Some? then 1 else 0
    ensures ActsOn(w) && PromotionSucceeds(w.rds) && WaitSucceeds(w.rds) && w.storedSecret.Some? ==>
              WriteSecret(Configured(w).secretName, RepointedSecret(w, w.storedSecret.value)) in Failover(w).trace
  {
    RunCounts(w, WriteKind);
    if ActsOn(w) {
      RecoveryWrites(Configured(w), w);
      FailoverShape(w);
    }
  }

  /** A successful run answers with the endpoint the settled instance reports. */
  lemma SuccessReportsSettledEndpoint(w: World)
    requires ActsOn(w) && RecoverySucceeds(w)
    ensures Failover(w).response == Response(200, FailoverCompleted(w.rds.settledProbe.value.endpoint.value.address,
                                                                    w.rds.settledProbe.value.endpoint.value.port))
  {
    RecoveryOutcome(Configured(w), w);
    FailoverShape(w);
  }

  /** A wait that never sees 'available' fails with 500 after spending its whole budget (or every
      observation), and writes nothing. */
  lemma TimeoutSpendsBudget(w: World)
    requires ActsOn(w) && PromotionSucceeds(w.rds)
    requires !Converged(w.rds.polls, MaxAttempts(WaitMinutes(w.rds)))
    ensures var spent := Min(MaxAttempts(WaitMinutes(w.rds)), |w.rds.polls|);
      && Failover(w).response == Response(500, FailoverFailed(WaitTimedOut(spent)))
      && Count(Failover(w).trace, PollKind) == spent
    ensures Count(Failover(w).trace, WriteKind) == 0
    ensures forall c :: c in Failover(w).trace ==> !c.WriteSecret?
  {
    var cfg := Configured(w);
    var promotion := PromoteReadReplica(cfg.replicaId, w.rds);
    var wait := WaitStep(cfg.replicaId, w.rds, WaitMinutes(w.rds));
    CountConcatAll(promotion.calls, wait.calls);
    FailoverShape(w);
    RunCounts(w, PollKind);
    SecretWrittenOnlyAfterConvergence(w);
    NoCallOfKind(Failover(w).trace, WriteKind);
  }

  /** Whether SNS accepts the notifications changes neither the answer nor the calls. */
  lemma PublishFailuresChangeNothing(w: World, publishSucceeds: bool)
    ensures Failover(w.(publishSucceeds := publishSucceeds)) == Failover(w)
  {
  }
}
