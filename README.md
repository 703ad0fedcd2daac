# Disaster-recovery failover for an RDS read replica

This project models the decision logic of the Lambda function in `Script/rds-promotion.py`. A
CloudWatch alarm reaches the function through SNS. When the configured primary-health alarm
enters `ALARM`, the function:

1. promotes the disaster-recovery read replica to a standalone instance, or notices that an
   earlier run already promoted it;
2. polls until the instance is `available`, within a fixed attempt budget;
3. rewrites the database credential secret so that it points at the instance's endpoint;
4. sends a start notification, then a success or a failure notification, and answers 200, 400
   or 500.

AWS is modelled as a value, `Cloud.World`. It holds:

- the Lambda environment;
- the decoded SNS envelope;
- the answers RDS gives (replica check, state check, whether the promote call is accepted, the
  statuses the waiter observes, the describe after the wait);
- the stored secret, and whether writing it is accepted;
- two clock readings;
- whether SNS accepts a publish.

Every service call, reads included, is recorded in a trace (`seq<Cloud.Call>`). One run is
therefore the pair of a response and a trace, `Cloud.Run`.

The modules follow the structure of the Python file:

| module | models |
|---|---|
| `Environment` | `validate_environment` |
| `Trigger` | decoding the SNS message and the alarm filter in `lambda_handler` |
| `Promotion` | `is_read_replica`, `check_db_instance_state`, `promote_read_replica` |
| `Waiter` | `wait_for_promotion`: the poll loop and the describe after it |
| `Credentials` | `update_secret_with_new_endpoint` and the secret fetch it starts with |
| `Handler` | `send_notification`, the inner try block, `lambda_handler` |
| `HandlerProperties` | properties of a whole run |
| `Scenarios` | two concrete runs, one successful and one that times out |

Code that changes things step by step is modelled as methods proved equal to a specification
function. `Waiter.WaitForPromotion` is a `while` loop. `Credentials.UpdateSecretWithNewEndpoint`
copies the map and then overwrites keys. `Handler.Recover` carries out the inner try block.
`Handler.LambdaHandler` is the handler itself, with its early returns. The properties are then
proved about those functions.

A Python exception becomes an `Err` of `Cloud.Failure`. Each step returns a `Cloud.Step`: its
result together with the calls it made. The handler's response body is `Cloud.Body`.

### Behaviour of the code worth knowing

- **Missing configuration.** `validate_environment` raises `ValueError`. Only the outermost
  `except` catches it, so the answer is 500 and no notification is sent.
- **Message of the wrong JSON type.** An SNS message can decode to JSON that cannot be indexed
  by a string key: a list, a number or a string. Reading a field from it raises `TypeError`.
  The parser's own handler catches only `KeyError`, `JSONDecodeError` and `IndexError`, so the
  outer handler answers 500. An event that is not an object takes the same path
  (`Cloud.Envelope.WrongType`).
- **Failure notifications.** Only failures inside the inner try block send the failure
  notification. Configuration, region and message-format errors return with no notification.
- **Notification count.** A successful run sends two notifications: the start one and the
  success one.
- **A throttled replica check looks like an earlier promotion.** `is_read_replica` answers
  False on any `ClientError`, throttling included. Against an instance that is still
  replicating and `available`, the run then skips the promote call and waits one minute. It
  finds the instance `available`, repoints the secret at the still read-only replica, and
  answers 200 "completed successfully". The model reproduces this: `replicaProbe == None`
  leads to `AlreadyPromoted`, and `HandlerProperties.AlreadyPromotedIsNotPromotedAgain` shows
  that no promote call is made.

## Model

| member | source | states |
|---|---|---|
| `Environment.MissingVarsExact` | Script/rds-promotion.py:32 | a variable is listed as missing exactly when it is required and is absent or empty |
| `Environment.MissingVars` | Script/rds-promotion.py:32 | lists at most as many names as it is given, each one of the given keys with its variable absent or empty |
| `Environment.ValidateEnvironment` | Script/rds-promotion.py:22-36 | succeeds exactly when all five variables are present and non-empty, copying each value into the configuration; otherwise fails with the non-empty list of exactly the missing names |
| `Trigger.RequiresAction` | Script/rds-promotion.py:216 | definition of the filter: act only on the configured alarm in state `ALARM`; what it decides for a run is proved by `HandlerProperties.OtherAlarmsNeedNoAction` and `HandlerProperties.StatusCodes` |
| `Trigger.ParseTrigger` | Script/rds-promotion.py:198-211 | succeeds exactly when the message carries both `AlarmName` and `NewStateValue`; a missing `NewStateReason` reads as `Unknown`; a value that cannot be indexed by key is a type fault, every other defect an invalid format |
| `Promotion.IsReadReplica` | Script/rds-promotion.py:72-80 | definition: a replica when the describe succeeded and the source identifier is present and not null (a describe that raises `ClientError` reads as "not a replica"); its consequences are proved by `Promotion.PromoteReadReplica`, `HandlerProperties.PromotionOnlyWhenPromotable` and `HandlerProperties.AlreadyPromotedIsNotPromotedAgain` |
| `Promotion.Promotable` | Script/rds-promotion.py:86-92 | definition: a replica whose state check answers `available`; its consequences are proved by `Promotion.PromoteReadReplica` and `HandlerProperties.PromotionOnlyWhenPromotable` |
| `Promotion.CheckDbInstanceState` | Script/rds-promotion.py:62-70 | definition: the instance status, or the describe failure; how the promotion uses it is proved by `Promotion.PromoteReadReplica` |
| `Promotion.PromoteReadReplica` | Script/rds-promotion.py:72-115 | a promote call with retention 7 and the fixed backup and maintenance windows is issued, exactly once, exactly when the instance is a replica in state `available`; a non-replica (or a replica check whose describe raised `ClientError`) is reported as already promoted; a replica in another status fails with that status; a failed state check or a rejected promote is an error; no poll, secret or notification call |
| `Waiter.MaxAttempts` | Script/rds-promotion.py:123-128 | the attempt budget times the 30-second delay is exactly the allowed minutes |
| `Waiter.PollStatuses` | Script/rds-promotion.py:123-129 | stops at the first `available` status within the budget and reports how many polls that took; otherwise reports failure after the whole budget, or after every observation when there are fewer |
| `Waiter.RepeatPoll` | Script/rds-promotion.py:123-129 | `n` polls of the one instance, counted as `n` polls and nothing else |
| `Waiter.WaitStep` | Script/rds-promotion.py:117-147 | never polls more than the budget; succeeds exactly when `available` is seen within the budget and the settled instance has an endpoint, and then returns its address, port and status; a timeout fails with the number of polls spent and makes no other call |
| `Waiter.WaitForPromotion` | Script/rds-promotion.py:117-147 | the poll loop gives exactly the outcome and calls of `WaitStep` |
| `Credentials.Merged` | Script/rds-promotion.py:156-162 | the new record keeps every key of the old one, sets `host`, `port`, `last_updated` and `failover_timestamp` to the endpoint and the clock readings, and leaves every other key's value unchanged |
| `Credentials.SecretUpdateStep` | Script/rds-promotion.py:149-175 | when the fetch fails nothing is written and the step fails; otherwise it fetches, then writes the merged record once, and succeeds exactly when the write is accepted |
| `Credentials.UpdateSecretWithNewEndpoint` | Script/rds-promotion.py:149-175 | the copy-then-overwrite gives exactly the result and calls of `SecretUpdateStep` |
| `Handler.SendNotification` | Script/rds-promotion.py:38-48 | definition: one publish call and success whatever the publish outcome; that a failed publish changes nothing in a run is proved by `HandlerProperties.PublishFailuresChangeNothing` |
| `Handler.Recovery` | Script/rds-promotion.py:237-254 | a successful inner sequence reports the settled instance's address and port, and needs the secret to be stored and the write accepted; a secret failure happens only after a successful promotion step |
| `Handler.Recover` | Script/rds-promotion.py:237-254 | the inner try block gives exactly `Recovery`: promote, wait 15 minutes (1 minute when already promoted), repoint the secret, stopping at the first error |
| `Handler.Failover` | Script/rds-promotion.py:177-310 | a run answers 200, 400 or 500; a 400 is given before any service call; a completed failover is a 200 with calls made |
| `Handler.LambdaHandler` | Script/rds-promotion.py:177-310 | the handler returns exactly the response and trace of `Failover` |
| `HandlerProperties.RecoveryOutcome` | Script/rds-promotion.py:237-254 | the inner sequence succeeds exactly when promotion, wait, fetch and write all do, and then reports the settled endpoint |
| `HandlerProperties.RecoveryCounts` | Script/rds-promotion.py:237-254 | the inner sequence sends no notification, promotes once exactly when the instance is promotable, and polls within the budget of its case |
| `HandlerProperties.RecoveryWrites` | Script/rds-promotion.py:237-254 | the inner sequence writes the merged secret once exactly when promotion and wait succeeded and the secret was fetched |
| `HandlerProperties.MissingConfigurationIsCritical` | Script/rds-promotion.py:184 | a missing or empty variable gives 500 with exactly the missing names, and no service call |
| `HandlerProperties.WrongRegionIsRejected` | Script/rds-promotion.py:187-196 | a region other than `us-east-1` gives 400 naming both regions, and no service call |
| `HandlerProperties.MalformedEventIsRejected` | Script/rds-promotion.py:199-211 | a missing record, message, alarm name or state, or undecodable JSON, gives 400 and no service call |
| `HandlerProperties.UnindexableMessageIsCritical` | Script/rds-promotion.py:299-310 | a message of the wrong JSON type gives 500 and no service call |
| `HandlerProperties.OtherAlarmsNeedNoAction` | Script/rds-promotion.py:215-221 | another alarm, or a state other than `ALARM`, gives 200 "no action" with the alarm and state, and no service call |
| `HandlerProperties.StatusCodes` | Script/rds-promotion.py:177-310 | the code is 200, 400 or 500; calls are made exactly when the run gets past the filter; 400 only before that point; after it, 200 exactly when the recovery succeeds |
| `HandlerProperties.FailoverShape` | Script/rds-promotion.py:231-297 | past the filter, the trace is the start notification, the recovery's calls, then the success notification with 200 and the endpoint, or the failure notification with 500 and the cause |
| `HandlerProperties.NotificationProtocol` | Script/rds-promotion.py:231-289 | past the filter, exactly two notifications: the start one first, and last the success one on 200 or the failure one on 500 |
| `HandlerProperties.RunCounts` | Script/rds-promotion.py:177-310 | the run's non-notification calls are exactly those of the recovery when it gets past the filter, and none otherwise |
| `HandlerProperties.PromotionOnlyWhenPromotable` | Script/rds-promotion.py:86-102 | a run promotes once exactly when it gets past the filter and the replica is `available`; never otherwise |
| `HandlerProperties.AlreadyPromotedIsNotPromotedAgain` | Script/rds-promotion.py:241-244 | against an instance that is no longer a replica, a run makes no promote call (none in its trace) and at most two polls |
| `HandlerProperties.AttemptBudget` | Script/rds-promotion.py:117-128 | no run polls more than the budget of its case, which is at most 30 |
| `HandlerProperties.SecretWrittenOnlyAfterConvergence` | Script/rds-promotion.py:244-254 | a run writes the merged secret once exactly when promotion and wait succeeded and the secret was fetched; otherwise it writes nothing |
| `HandlerProperties.SuccessReportsSettledEndpoint` | Script/rds-promotion.py:269-277 | a successful run answers 200 with the address and port the settled instance reports |
| `HandlerProperties.TimeoutSpendsBudget` | Script/rds-promotion.py:142-144 | a wait that never sees `available` gives 500 with the number of polls spent, having polled exactly that often and written nothing (no write call in its trace) |
| `HandlerProperties.PublishFailuresChangeNothing` | Script/rds-promotion.py:40-48 | whether SNS accepts the notifications changes neither the response nor the calls |
| `Scenarios.ExampleActsOn` | Script/rds-promotion.py:184-221 | a complete configuration in `us-east-1`, paired with the configured alarm in `ALARM`, gets past the filter and yields that configuration |
| `Scenarios.PromotedRecovers` | Script/rds-promotion.py:237-254 | the example replica is promotable, converges at the first poll with an endpoint, and its stored secret is rewritten to the merged record |
| `Scenarios.EndToEndSuccess` | Script/rds-promotion.py:231-277 | a replica available at the first poll as `db.example:5432` gives 200 with that endpoint, one promotion, one write of the merged secret, and the start and success notifications, even when SNS rejects both |
| `Scenarios.StuckNeverConverges` | Script/rds-promotion.py:123-129 | a replica stuck in `modifying` for 40 observations is promoted but never converges within its 30-poll budget |
| `Scenarios.EndToEndTimeout` | Script/rds-promotion.py:279-297 | a replica that stays `modifying` gives 500 with a timeout after 30 polls, no write, and the start and failure notifications |

The call counts used throughout are proved with a few lemmas about `Cloud.Count` itself
(`Cloud.CountConcat`, `Cloud.CountConcatAll`, `Cloud.CountAppend`, `Cloud.CountPositive`,
`Cloud.NoCallOfKind`) and one about a trace framed by two notifications
(`HandlerProperties.FramedCounts`).

## Left out

- `Promotion.IsReadReplica`: only a `ClientError` from the replica check is modelled (as
  `replicaProbe == None`, read as "not a replica"). Other failures of that describe are not
  modelled: a botocore connection, timeout or credentials error, or an `IndexError` from an
  empty `DBInstances` list. In the source they propagate out of `promote_read_replica`, and
  the run answers 500 with the failure notification after one describe and no wait.

- Client construction (module lines 13-20), logging, and the text of log and notification
  messages: none of them affects the decision. The model keeps notification subjects and
  topics, not message bodies.
- Elapsed time: `execution_time_seconds` in the response bodies, and the time in error
  messages, are not modelled. Errors carry a `Cloud.Failure` cause instead of their message
  text.
- JSON encoding and decoding: the event arrives already decoded as a `Cloud.Envelope`. The
  secret is a map from keys to a value type holding strings, integers and an opaque case for
  everything else. A `SecretString` that is not valid JSON is folded into a failed fetch
  (`storedSecret == None`). The exception's exact type is not kept.
- `Waiter.WaitForPromotion`: the model treats every status other than `available` as "keep
  polling". The botocore `db_instance_available` waiter used by the source instead gives up at
  once on failure statuses such as `deleted`, `failed` or `incompatible-restore`, raising
  `WaiterError`. So when such a status is followed by `available` within the budget (polls
  `["failed", "available"]`, say), the model's wait succeeds, the run answers 200 and the
  secret is written, whereas the source answers 500 and writes nothing. Errors during polling
  (a describe that fails inside the waiter, which the source also turns into `WaiterError`) are
  not modelled at all: `Rds.polls` holds only statuses. The sleep between polls, and the first
  poll happening without a delay, are not modelled either. A poll sequence shorter than the
  budget ends the wait as a timeout after the observed polls.
- Describe answers are fixed per call site (replica check, state check, the describe after the
  wait). The model does not relate them to each other or to the polls, because the service may
  change its answer between calls.
- Concurrency between runs, Lambda retries and timeouts, and the maximum runtime of a Lambda
  invocation.
- `Credentials.Merged`: the clock readings are whole seconds given as parameters, standing for
  the two `int(time.time())` calls.
- `Handler.SendNotification`: the publish call's own failure modes (throttling, missing topic)
  are collapsed into one boolean, which the function ignores.
- `Trigger.ParseTrigger`: an `AlarmName` or `NewStateValue` that is present but JSON `null` is
  not distinguished from a missing one. The source would read it as `None` and answer "no
  action"; the model answers 400.
