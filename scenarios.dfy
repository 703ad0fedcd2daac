/** Two complete runs against concrete worlds: a failover that succeeds on the first poll, and
    one whose replica never becomes available. */
module Scenarios {
  import opened Wrappers
  import opened Cloud
  import opened Environment
  import opened Promotion
  import opened Waiter
  import opened Credentials
  import opened Handler
  import opened HandlerProperties

  const Env: map<string, string> := map[
    "AWS_REGION" := "us-east-1",
    "PRIMARY_HEALTH_ALARM_NAME" := "primary-health",
    "DR_DB_REPLICA_ID" := "dr-replica",
    "DR_DB_CREDENTIALS_SECRET_NAME" := "dr-credentials",
    "NOTIFICATION_TOPIC_ARN" := "arn:aws:sns:us-east-1:123456789012:dr"
  ]

  const Alarm := Message(Some("primary-health"), Some("ALARM"), Some("unreachable"))

  const Replica := Instance(Some("primary"), "available", Some(Endpoint("replica.example", 5432)))

  const Stored: Secret := map["username" := Text("app"), "password" := Text("secret")]

  function World0(polls: seq<string>, settled: Option<Instance>): World {
    World(Env, Alarm, Rds(Some(Replica), Some(Replica), true, polls, settled),
          Some(Stored), true, Clock(1700000000, 1700000001), false)
  }

  lemma {:induction false} ExampleActsOn(polls: seq<string>, settled: Option<Instance>)
    ensures ActsOn(World0(polls, settled))
    ensures Configured(World0(polls, settled)) ==
              Config("us-east-1", "primary-health", "dr-replica", "dr-credentials", "arn:aws:sns:us-east-1:123456789012:dr")
  {
    var env := World0(polls, settled).env;
    assert forall k :: k in RequiredVars ==> Present(env, k);
  }

  const Settled := Instance(None, "available", Some(Endpoint("db.example", 5432)))

  const Promoted := World0(["available"], Some(Settled))

  const Started := Notify("arn:aws:sns:us-east-1:123456789012:dr", StartedSubject)

  const Repointed := WriteSecret("dr-credentials", Merged(Stored, "db.example", 5432, Clock(1700000000, 1700000001)))

  /** The promotable replica is promoted, seen 'available' at the first poll, settles with an
      endpoint, and the stored secret can be rewritten. */
  lemma {:induction false} PromotedRecovers()
    ensures Promotable(Promoted.rds) && RecoverySucceeds(Promoted)
    ensures RepointedSecret(Promoted, Promoted.storedSecret.value) == Repointed.secretValue
  {
    assert Promoted.rds.polls[0] == AvailableStatus;
  }

  /** The replica is promoted, is available at the first poll as db.example:5432, and the secret
      is repointed there: 200, one promotion, one write of the merged secret, the start
      notification first and the success notification last, even though SNS rejects both. */
  lemma {:induction false} EndToEndSuccess()
    ensures Failover(Promoted).response == Response(200, FailoverCompleted("db.example", 5432))
    ensures Count(Failover(Promoted).trace, PromoteKind) == 1
    ensures Count(Failover(Promoted).trace, WriteKind) == 1
    ensures Repointed in Failover(Promoted).trace
    ensures Count(Failover(Promoted).trace, NotifyKind) == 2
    ensures Failover(Promoted).trace[0] == Started
    ensures Failover(Promoted).trace[|Failover(Promoted).trace| - 1] ==
              Notify("arn:aws:sns:us-east-1:123456789012:dr", CompletedSubject)
  {
    var w := Promoted;
    ExampleActsOn(["available"], Some(Settled));
    PromotedRecovers();
    SuccessReportsSettledEndpoint(w);
    PromotionOnlyWhenPromotable(w);
    SecretWrittenOnlyAfterConvergence(w);
    NotificationProtocol(w);
  }

  const Stuck := World0(seq(40, _ => "modifying"), Some(Replica))

  /** The stuck replica is promotable and promoted, but never seen 'available' within the
      30 polls of its budget. */
  lemma {:induction false} StuckNeverConverges()
    ensures PromotionSucceeds(Stuck.rds)
    ensures MaxAttempts(WaitMinutes(Stuck.rds)) == 30 && |Stuck.rds.polls| == 40
    ensures !Converged(Stuck.rds.polls, MaxAttempts(WaitMinutes(Stuck.rds)))
  {
    var polls := Stuck.rds.polls;
    assert forall i :: 0 <= i < |polls| ==> polls[i] != AvailableStatus;
  }

  /** The replica never leaves 'modifying': after the 30 polls of the 15-minute budget the run
      fails with 500 and the start and failure notifications, and writes nothing. */
  lemma {:induction false} EndToEndTimeout()
    ensures Failover(Stuck).response == Response(500, FailoverFailed(WaitTimedOut(30)))
    ensures Count(Failover(Stuck).trace, PollKind) == 30
    ensures Count(Failover(Stuck).trace, WriteKind) == 0
    ensures Count(Failover(Stuck).trace, NotifyKind) == 2
    ensures Failover(Stuck).trace[0] == Notify("arn:aws:sns:us-east-1:123456789012:dr", StartedSubject)
    ensures Failover(Stuck).trace[|Failover(Stuck).trace| - 1] ==
              Notify("arn:aws:sns:us-east-1:123456789012:dr", FailedSubject)
  {
    ExampleActsOn(seq(40, _ => "modifying"), Some(Replica));
    StuckNeverConverges();
    TimeoutSpendsBudget(Stuck);
    NotificationProtocol(Stuck);
  }
}
