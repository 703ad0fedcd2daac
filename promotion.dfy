/** is_read_replica, check_db_instance_state and promote_read_replica: promote the replica only
    when it is still a replica and available. */
module Promotion {
  import opened Wrappers
  import opened Cloud

  const BackupRetentionPeriod := 7
  const PreferredBackupWindow := "03:00-04:00"
  const PreferredMaintenanceWindow := "sun:04:00-sun:05:00"
  const AvailableStatus := "available"

  /** The one promote call the failover ever issues, with its fixed operational settings. */
  function PromoteCall(instanceId: string): Call {
    Promote(instanceId, BackupRetentionPeriod, PreferredBackupWindow, PreferredMaintenanceWindow)
  }

  /** A describe error reads as "not a replica". */
  predicate IsReadReplica(probe: Option<Instance>) {
    probe.Some? && probe.value.replicaSource.Some?
  }

  /** The instance status, or the describe error. */
  function CheckDbInstanceState(probe: Option<Instance>): Result<string, Failure> {
    match probe
    case Some(instance) => Ok(instance.status)
    case None => Err(DescribeFailed)
  }

  /** The replica may be promoted: it still replicates a source and its status is 'available'. */
  predicate Promotable(rds: Rds) {
    IsReadReplica(rds.replicaProbe) && rds.stateProbe.Some? && rds.stateProbe.value.status == AvailableStatus
  }

  datatype Promotion = AlreadyPromoted | Initiated

  function PromoteReadReplica(instanceId: string, rds: Rds): (s: Step<Promotion>)
    // exactly one promote call, with the fixed settings, when and only when promotable
    ensures PromoteCall(instanceId) in s.calls <==> Promotable(rds)
    ensures Count(s.calls, PromoteKind) == if Promotable(rds) then 1 else 0
    // an instance that is no longer a replica is reported, not promoted
    ensures s.result == Ok(AlreadyPromoted) <==> !IsReadReplica(rds.replicaProbe)
    ensures s.result == Ok(Initiated) <==> Promotable(rds) && rds.promoteAccepted
    // a replica in any other status is a precondition failure
    ensures IsReadReplica(rds.replicaProbe) && rds.stateProbe.Some? && !Promotable(rds)
            ==> s.result == Err(NotAvailable(rds.stateProbe.value.status))
    ensures IsReadReplica(rds.replicaProbe) && rds.stateProbe.None? ==> s.result == Err(DescribeFailed)
    ensures Promotable(rds) && !rds.promoteAccepted ==> s.result == Err(PromotionRejected)
    // nothing but describes and the promote call itself
    ensures Count(s.calls, PollKind) == Count(s.calls, FetchKind) == 0
    ensures Count(s.calls, WriteKind) == Count(s.calls, NotifyKind) == 0
  {
    var replicaCheck := [Describe(instanceId)];
    CountAppend([], Describe(instanceId));
    assert [] + [Describe(instanceId)] == replicaCheck;
    if !IsReadReplica(rds.replicaProbe) then Step(Ok(AlreadyPromoted), replicaCheck)
    else
      var calls := replicaCheck + [Describe(instanceId)];
      CountAppend(replicaCheck, Describe(instanceId));
      match CheckDbInstanceState(rds.stateProbe)
      case Err(failure) => Step(Err(failure), calls)
      case Ok(status) =>
        if status != AvailableStatus then Step(Err(NotAvailable(status)), calls)
        else
          var promoted := calls + [PromoteCall(instanceId)];
          CountAppend(calls, PromoteCall(instanceId));
          if rds.promoteAccepted then Step(Ok(Initiated), promoted)
          else Step(Err(PromotionRejected), promoted)
  }
}
