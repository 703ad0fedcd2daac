/** wait_for_promotion: the botocore 'db_instance_available' waiter, seen as a bounded poll over
    the statuses the instance goes through, followed by one describe for the endpoint. */
module Waiter {
  import opened Wrappers
  import opened Cloud
  import opened Promotion

  const PollDelaySeconds := 30
  const PromotionWaitMinutes := 15
  const AlreadyPromotedWaitMinutes := 1

  function Min(a: nat, b: nat): nat {
    if a <= b then a else b
  }

  /** The waiter's MaxAttempts: one poll per 30-second delay of the allowed wait. */
  function MaxAttempts(maxWaitMinutes: nat): (n: nat)
    ensures n * PollDelaySeconds == maxWaitMinutes * 60
  {
    maxWaitMinutes * 2
  }

  /** One of the first `maxAttempts` observed statuses is 'available'. */
  predicate Converged(polls: seq<string>, maxAttempts: nat) {
    exists i :: 0 <= i < |polls| && i < maxAttempts && polls[i] == AvailableStatus
  }

  datatype PollResult = PollResult(available: bool, attempts: nat)

  /** Poll until the first 'available' status, giving up after `maxAttempts` polls or when
      nothing more is observed. */
  function PollStatuses(polls: seq<string>, maxAttempts: nat): (r: PollResult)
    ensures r.attempts <= maxAttempts && r.attempts <= |polls|
    ensures r.available <==> Converged(polls, maxAttempts)
    ensures r.available ==> 0 < r.attempts && polls[r.attempts - 1] == AvailableStatus
    ensures forall i :: 0 <= i < r.attempts - 1 ==> polls[i] != AvailableStatus
    ensures !r.available ==> r.attempts == Min(maxAttempts, |polls|)
    decreases |polls|
  {
    if maxAttempts == 0 || polls == [] then PollResult(false, 0)
    else if polls[0] == AvailableStatus then PollResult(true, 1)
    else
      var rest := PollStatuses(polls[1..], maxAttempts - 1);
      assert forall i :: 1 <= i < |polls| ==> polls[i] == polls[1..][i - 1];
      PollResult(rest.available, rest.attempts + 1)
  }

  /** `n` polls of the instance. */
  function RepeatPoll(instanceId: string, n: nat): (r: seq<Call>)
    ensures |r| == n
    ensures forall c :: c in r ==> c == Poll(instanceId)
    ensures Count(r, PollKind) == n
    ensures Count(r, DescribeKind) == Count(r, PromoteKind) == Count(r, WriteKind) == Count(r, NotifyKind) == 0
  {
    if n == 0 then []
    else
      var r := RepeatPoll(instanceId, n - 1) + [Poll(instanceId)];
      CountAppend(RepeatPoll(instanceId, n - 1), Poll(instanceId));
      r
  }

  /** What wait_for_promotion returns about the settled instance. */
  datatype EndpointInfo = EndpointInfo(endpoint: string, port: int, status: string)

  function WaitStep(instanceId: string, rds: Rds, maxWaitMinutes: nat): (s: Step<EndpointInfo>)
    // the attempt budget is never exceeded
    ensures Count(s.calls, PollKind) <= MaxAttempts(maxWaitMinutes)
    ensures Count(s.calls, PromoteKind) == Count(s.calls, WriteKind) == Count(s.calls, NotifyKind) == 0
    // success exactly when 'available' is seen within the budget and the instance has an endpoint
    ensures s.result.Ok? <==> && Converged(rds.polls, MaxAttempts(maxWaitMinutes))
                              && rds.settledProbe.Some? && rds.settledProbe.value.endpoint.Some?
    ensures s.result.Ok? ==> s.result.value == EndpointInfo(rds.settledProbe.value.endpoint.value.address,
                                                            rds.settledProbe.value.endpoint.value.port,
                                                            rds.settledProbe.value.status)
    // a timeout follows exactly the whole budget (or every observation), and nothing else
    ensures !Converged(rds.polls, MaxAttempts(maxWaitMinutes)) ==>
              var spent := Min(MaxAttempts(maxWaitMinutes), |rds.polls|);
              s.result == Err(WaitTimedOut(spent)) && s.calls == RepeatPoll(instanceId, spent)
  {
    var poll := PollStatuses(rds.polls, MaxAttempts(maxWaitMinutes));
    var polled := RepeatPoll(instanceId, poll.attempts);
    if !poll.available then Step(Err(WaitTimedOut(poll.attempts)), polled)
    else
      var calls := polled + [Describe(instanceId)];
      CountAppend(polled, Describe(instanceId));
      match rds.settledProbe
      case None => Step(Err(DescribeFailed), calls)
      case Some(instance) =>
        match instance.endpoint
        case None => Step(Err(MissingEndpoint), calls)
        case Some(endpoint) => Step(Ok(EndpointInfo(endpoint.address, endpoint.port, instance.status)), calls)
  }

  /** The poll loop the waiter runs, then the describe for the endpoint. */
  method WaitForPromotion(instanceId: string, rds: Rds, maxWaitMinutes: nat) returns (s: Step<EndpointInfo>)
    ensures s == WaitStep(instanceId, rds, maxWaitMinutes)
  {
    var maxAttempts := MaxAttempts(maxWaitMinutes);
    var attempts: nat := 0;
    var available := false;
    var calls: seq<Call> := [];
    while attempts < maxAttempts && attempts < |rds.polls| && !available
      invariant attempts <= maxAttempts && attempts <= |rds.polls|
      invariant calls == RepeatPoll(instanceId, attempts)
      invariant available ==> 0 < attempts && rds.polls[attempts - 1] == AvailableStatus
      invariant available ==> forall i :: 0 <= i < attempts - 1 ==> rds.polls[i] != AvailableStatus
      invariant !available ==> forall i :: 0 <= i < attempts ==> rds.polls[i] != AvailableStatus
    {
      calls := calls + [Poll(instanceId)];
      available := rds.polls[attempts] == AvailableStatus;
      attempts := attempts + 1;
    }
    var expected := PollStatuses(rds.polls, maxAttempts);
    assert available == expected.available;
    assert attempts == expected.attempts;
    if !available {
      s := Step(Err(WaitTimedOut(attempts)), calls);
      return;
    }
    calls := calls + [Describe(instanceId)];
    if rds.settledProbe.None? {
      s := Step(Err(DescribeFailed), calls);
    } else if rds.settledProbe.value.endpoint.None? {
      s := Step(Err(MissingEndpoint), calls);
    } else {
      var endpoint := rds.settledProbe.value.endpoint.value;
      s := Step(Ok(EndpointInfo(endpoint.address, endpoint.port, rds.settledProbe.value.status)), calls);
    }
  }
}
