/** validate_environment: the five Lambda environment variables the failover cannot run without. */
module Environment {
  import opened Wrappers

  const RequiredVars: seq<string> := [
    "AWS_REGION",
    "PRIMARY_HEALTH_ALARM_NAME",
    "DR_DB_REPLICA_ID",
    "DR_DB_CREDENTIALS_SECRET_NAME",
    "NOTIFICATION_TOPIC_ARN"
  ]

  /** The validated configuration of one run. */
  datatype Config = Config(
    region: string,
    alarmName: string,
    replicaId: string,
    secretName: string,
    topicArn: string)

  /** A variable counts as set when it is defined and not the empty string (Python truthiness). */
  predicate Present(env: map<string, string>, key: string) {
    key in env && env[key] != ""
  }

  /** The keys, in their given order, whose variables are not set. */
  function MissingVars(keys: seq<string>, env: map<string, string>): (r: seq<string>)
    ensures |r| <= |keys|
    // every key listed is one of the keys, and its variable is not set
    ensures forall i :: 0 <= i < |r| ==> r[i] in keys && !Present(env, r[i])
  {
    if keys == [] then []
    else (if Present(env, keys[0]) then [] else [keys[0]]) + MissingVars(keys[1..], env)
  }

  /** A key is reported missing exactly when it is one of the keys and its variable is not set. */
  lemma {:induction false} MissingVarsExact(keys: seq<string>, env: map<string, string>)
    ensures forall k :: k in MissingVars(keys, env) <==> k in keys && !Present(env, k)
  {
    if keys != [] {
      MissingVarsExact(keys[1..], env);
      assert keys == [keys[0]] + keys[1..];
    }
  }

  /** Fails, listing what is missing, exactly when one of the required variables is absent or
      empty; otherwise returns their values. */
  function ValidateEnvironment(env: map<string, string>): (r: Result<Config, seq<string>>)
    ensures r.Ok? <==> forall k :: k in RequiredVars ==> Present(env, k)
    ensures r.Err? ==> r.error != [] && forall k :: k in r.error <==> k in RequiredVars && !Present(env, k)
    ensures r.Ok? ==> && Present(env, "AWS_REGION") && r.value.region == env["AWS_REGION"]
                      && Present(env, "PRIMARY_HEALTH_ALARM_NAME") && r.value.alarmName == env["PRIMARY_HEALTH_ALARM_NAME"]
                      && Present(env, "DR_DB_REPLICA_ID") && r.value.replicaId == env["DR_DB_REPLICA_ID"]
                      && Present(env, "DR_DB_CREDENTIALS_SECRET_NAME") && r.value.secretName == env["DR_DB_CREDENTIALS_SECRET_NAME"]
                      && Present(env, "NOTIFICATION_TOPIC_ARN") && r.value.topicArn == env["NOTIFICATION_TOPIC_ARN"]
  {
    MissingVarsExact(RequiredVars, env);
    var missing := MissingVars(RequiredVars, env);
    if missing != [] then
      assert missing[0] in missing;
      Err(missing)
    else
      assert forall k :: k in RequiredVars ==> Present(env, k);
      assert RequiredVars[0] in RequiredVars && RequiredVars[1] in RequiredVars && RequiredVars[2] in RequiredVars
        && RequiredVars[3] in RequiredVars && RequiredVars[4] in RequiredVars;
      Ok(Config(env["AWS_REGION"], env["PRIMARY_HEALTH_ALARM_NAME"], env["DR_DB_REPLICA_ID"],
                env["DR_DB_CREDENTIALS_SECRET_NAME"], env["NOTIFICATION_TOPIC_ARN"]))
  }
}
