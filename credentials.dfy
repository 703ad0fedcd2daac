/** update_secret_with_new_endpoint: read the credential secret, overwrite the four connection
    fields on a copy, and write the whole copy back. */
module Credentials {
  import opened Wrappers
  import opened Cloud

  const HostKey := "host"
  const PortKey := "port"
  const LastUpdatedKey := "last_updated"
  const FailoverTimestampKey := "failover_timestamp"

  /** The fields the failover rewrites. */
  function ConnectionKeys(): set<string> {
    {HostKey, PortKey, LastUpdatedKey, FailoverTimestampKey}
  }

  /** The record as written back: the four connection fields set, every other field unchanged. */
  function Merged(current: Secret, host: string, port: int, clock: Clock): (m: Secret)
    ensures m.Keys == current.Keys + ConnectionKeys()
    ensures m[HostKey] == Text(host) && m[PortKey] == Number(port)
    ensures m[LastUpdatedKey] == Number(clock.first) && m[FailoverTimestampKey] == Number(clock.second)
    ensures forall k :: k in current && k !in ConnectionKeys() ==> m[k] == current[k]
  {
    current[HostKey := Text(host)][PortKey := Number(port)]
           [LastUpdatedKey := Number(clock.first)][FailoverTimestampKey := Number(clock.second)]
  }

  function SecretUpdateStep(secretName: string, stored: Option<Secret>, writeAccepted: bool,
                            host: string, port: int, clock: Clock): (s: Step<()>)
    // nothing is written when the fetch fails
    ensures stored.None? ==> s == Step(Err(SecretFetchFailed), [FetchSecret(secretName)])
    // otherwise exactly the merged record is written, once
    ensures stored.Some? ==> s.calls == [FetchSecret(secretName), WriteSecret(secretName, Merged(stored.value, host, port, clock))]
    ensures s.result.Ok? <==> stored.Some? && writeAccepted
    ensures Count(s.calls, WriteKind) == if stored.Some? then 1 else 0
    ensures Count(s.calls, DescribeKind) == Count(s.calls, PromoteKind) == 0
    ensures Count(s.calls, PollKind) == Count(s.calls, NotifyKind) == 0
    ensures stored.Some? && !writeAccepted ==> s.result == Err(SecretWriteFailed)
  {
    CountAppend([], FetchSecret(secretName));
    assert [] + [FetchSecret(secretName)] == [FetchSecret(secretName)];
    match stored
    case None => Step(Err(SecretFetchFailed), [FetchSecret(secretName)])
    case Some(current) =>
      var write := WriteSecret(secretName, Merged(current, host, port, clock));
      var calls := [FetchSecret(secretName), write];
      CountAppend([FetchSecret(secretName)], write);
      assert [FetchSecret(secretName)] + [write] == calls;
      Step(if writeAccepted then Ok(()) else Err(SecretWriteFailed), calls)
  }

  /** Copy the fetched record, overwrite its connection fields one by one, write the copy. */
  method UpdateSecretWithNewEndpoint(secretName: string, stored: Option<Secret>, writeAccepted: bool,
                                     host: string, port: int, clock: Clock) returns (s: Step<()>)
    ensures s == SecretUpdateStep(secretName, stored, writeAccepted, host, port, clock)
  {
    var calls := [FetchSecret(secretName)];
    if stored.None? {
      s := Step(Err(SecretFetchFailed), calls);
      return;
    }
    var updated := stored.value;
    updated := updated[HostKey := Text(host)];
    updated := updated[PortKey := Number(port)];
    updated := updated[LastUpdatedKey := Number(clock.first)];
    updated := updated[FailoverTimestampKey := Number(clock.second)];
    calls := calls + [WriteSecret(secretName, updated)];
    if writeAccepted {
      s := Step(Ok(()), calls);
    } else {
      s := Step(Err(SecretWriteFailed), calls);
    }
  }
}
