/** The world the failover function runs against, abstracted from the AWS services it calls:
    the Lambda environment, the SNS event, the RDS replica, the Secrets Manager secret and SNS
    publishing. What the function does to that world is recorded as a trace of calls. */
module Cloud {
  import opened Wrappers

  /** A JSON value stored in the credential secret. The failover itself only writes strings and
      integers; every other JSON value is kept as opaque text. */
  datatype Value = Text(text: string) | Number(number: int) | Other(raw: string)

  /** The decoded SecretString of the credential secret. */
  type Secret = map<string, Value>

  datatype Endpoint = Endpoint(address: string, port: int)

  /** One answer of DescribeDBInstances for the replica: the identifier of the instance it
      replicates (absent or null once promoted), its DBInstanceStatus and its Endpoint. */
  datatype Instance = Instance(replicaSource: Option<string>, status: string, endpoint: Option<Endpoint>)

  /** The SNS record of the event, once the handler has tried to decode `Records[0].Sns.Message`. */
  datatype Envelope =
    | NoMessage      // `Records`, its first element, `Sns` or `Message` is missing
    | Undecodable    // `Message` is not valid JSON
    | WrongType      // the event or the decoded message is a JSON value that cannot be indexed by key
    | Message(alarmName: Option<string>, newStateValue: Option<string>, newStateReason: Option<string>)

  /** What the RDS service answers during one run. `None` for a describe is a client error. */
  datatype Rds = Rds(
    replicaProbe: Option<Instance>,   // the describe inside is_read_replica; None: it raised ClientError
    stateProbe: Option<Instance>,     // the describe inside check_db_instance_state
    promoteAccepted: bool,            // whether PromoteReadReplica is accepted
    polls: seq<string>,               // the statuses the availability waiter observes, in order
    settledProbe: Option<Instance>)   // the describe after the waiter returns

  /** Two readings of the wall clock, in whole seconds, taken by the secret update. */
  datatype Clock = Clock(first: nat, second: nat)

  datatype World = World(
    env: map<string, string>,
    event: Envelope,
    rds: Rds,
    storedSecret: Option<Secret>,     // None: fetching or decoding the secret fails
    secretWriteAccepted: bool,
    clock: Clock,
    publishSucceeds: bool)

  /** One call the failover issues to a service. */
  datatype Call =
    | Describe(instanceId: string)
    | Promote(instanceId: string, backupRetentionPeriod: int, preferredBackupWindow: string,
              preferredMaintenanceWindow: string)
    | Poll(instanceId: string)
    | FetchSecret(secretId: string)
    | WriteSecret(secretId: string, secretValue: Secret)
    | Notify(topicArn: string, subject: string)

  /** The service operation a call performs. */
  datatype Kind = DescribeKind | PromoteKind | PollKind | FetchKind | WriteKind | NotifyKind

  function KindOf(c: Call): Kind {
    match c
    case Describe(_) => DescribeKind
    case Promote(_, _, _, _) => PromoteKind
    case Poll(_) => PollKind
    case FetchSecret(_) => FetchKind
    case WriteSecret(_, _) => WriteKind
    case Notify(_, _) => NotifyKind
  }

  /** How many calls of a trace perform operation `k`. */
  function Count(t: seq<Call>, k: Kind): nat {
    if t == [] then 0 else (if KindOf(t[0]) == k then 1 else 0) + Count(t[1..], k)
  }

  /** Counting distributes over the concatenation of traces. */
  lemma {:induction false} CountConcat(a: seq<Call>, b: seq<Call>, k: Kind)
    ensures Count(a + b, k) == Count(a, k) + Count(b, k)
  {
    if a != [] {
      assert (a + b)[1..] == a[1..] + b;
      CountConcat(a[1..], b, k);
    } else {
      assert a + b == b;
    }
  }

  /** Counting distributes over concatenation, for every operation at once. */
  lemma CountConcatAll(a: seq<Call>, b: seq<Call>)
    ensures forall k :: Count(a + b, k) == Count(a, k) + Count(b, k)
  {
    forall k ensures Count(a + b, k) == Count(a, k) + Count(b, k) {
      CountConcat(a, b, k);
    }
  }

  /** Appending one call adds one to the count of its operation only. */
  lemma CountAppend(t: seq<Call>, c: Call)
    ensures forall k :: Count(t + [c], k) == Count(t, k) + if KindOf(c) == k then 1 else 0
  {
    forall k ensures Count(t + [c], k) == Count(t, k) + if KindOf(c) == k then 1 else 0 {
      CountConcat(t, [c], k);
      assert [c][1..] == [];
      assert Count([c], k) == (if KindOf(c) == k then 1 else 0) + Count([], k);
    }
  }

  /** A trace that performs an operation holds a call of that operation. */
  lemma {:induction false} CountPositive(t: seq<Call>, c: Call)
    requires c in t
    ensures Count(t, KindOf(c)) > 0
  {
    if t[0] != c {
      CountPositive(t[1..], c);
    }
  }

  /** A trace that counts no call of `k` holds none. */
  lemma NoCallOfKind(t: seq<Call>, k: Kind)
    requires Count(t, k) == 0
    ensures forall c :: c in t ==> KindOf(c) != k
  {
    forall c | c in t ensures KindOf(c) != k {
      CountPositive(t, c);
    }
  }

  /** Why a run, or one step of it, failed. */
  datatype Failure =
    | MissingVariables(names: seq<string>)   // validate_environment raised
    | MessageTypeError                       // a TypeError while reading the SNS message
    | DescribeFailed                         // describe_db_instances raised a client error
    | NotAvailable(status: string)           // the replica is not in state 'available'
    | PromotionRejected                      // promote_read_replica was refused by RDS
    | WaitTimedOut(attempts: nat)            // the waiter gave up after that many polls
    | MissingEndpoint                        // the settled instance reports no Endpoint
    | SecretFetchFailed
    | SecretWriteFailed

  /** The outcome of one step of the run together with the calls it issued. */
  datatype Step<+T> = Step(result: Result<T, Failure>, calls: seq<Call>)

  /** The decoded JSON body of the handler's response (execution time is not modelled). */
  datatype Body =
    | CriticalError(cause: Failure)
    | RegionMismatch(region: string, expected: string)
    | InvalidMessageFormat
    | NoActionRequired(alarm: string, state: string)
    | FailoverCompleted(endpoint: string, port: int)
    | FailoverFailed(cause: Failure)

  datatype Response = Response(statusCode: int, body: Body)

  /** A whole run: what the handler returns and every call it issued, in order. */
  datatype Run = Run(response: Response, trace: seq<Call>)
}
