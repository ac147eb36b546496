/** A User-Agent header value: a list of agents, each a service name, an
    optional instance id and a version. The format checks on those strings
    belong to a validator class that is not part of this model; they are
    taken as parameters, with the one fact the construction code relies on
    stated as a predicate: the default version is valid. */
module UserAgent {
  import opened Wrappers

  const DEFAULT_VERSION: string := "0.0.0"

  /** The format validators for service names, instance ids and versions. */
  datatype Validators = Validators(
    isValidServiceName: string -> bool,
    isValidInstance: string -> bool,
    isValidVersion: string -> bool)

  /** The fact the construction code relies on ("should never hit" the
      version check). */
  predicate DefaultVersionValid(v: Validators)
  {
    v.isValidVersion(DEFAULT_VERSION)
  }

  datatype Agent = Agent(serviceName: string, instanceId: Option<string>, version: string)

  datatype UserAgent = UserAgent(agents: seq<Agent>)

  /** The argument checks that fail building an agent. */
  datatype AgentError =
    | IllegalServiceName(serviceName: string)
    | IllegalInstanceId(instanceId: string)
    | IllegalVersion(version: string)

  /** An agent's consistency check, run when it is built: the service name,
      then the instance id only when present, then the version. */
  function Check(v: Validators, a: Agent): (r: Option<AgentError>)
    ensures r.None? <==> v.isValidServiceName(a.serviceName)
                         && (a.instanceId.Some? ==> v.isValidInstance(a.instanceId.value))
                         && v.isValidVersion(a.version)
    ensures !v.isValidServiceName(a.serviceName) ==> r == Some(IllegalServiceName(a.serviceName))
    ensures v.isValidServiceName(a.serviceName) && a.instanceId.Some? && !v.isValidInstance(a.instanceId.value)
            ==> r == Some(IllegalInstanceId(a.instanceId.value))
    ensures v.isValidServiceName(a.serviceName) && (a.instanceId.Some? ==> v.isValidInstance(a.instanceId.value))
              && !v.isValidVersion(a.version)
            ==> r == Some(IllegalVersion(a.version))
  {
    if !v.isValidServiceName(a.serviceName) then Some(IllegalServiceName(a.serviceName))
    else if a.instanceId.Some? && !v.isValidInstance(a.instanceId.value) then Some(IllegalInstanceId(a.instanceId.value))
    else if !v.isValidVersion(a.version) then Some(IllegalVersion(a.version))
    else None
  }

  /** Building an agent: the agent if its check passes, else the error. */
  function BuildAgent(v: Validators, a: Agent): (r: Result<Agent, AgentError>)
    ensures r.Ok? <==> Check(v, a).None?
    ensures r.Ok? ==> r.value == a
  {
    match Check(v, a)
    case None => Ok(a)
    case Some(e) => Err(e)
  }

  /** The version an agent gets: the given one if valid, else the default. */
  function VersionOrDefault(v: Validators, version: string): (r: string)
    ensures v.isValidVersion(version) ==> r == version
    ensures !v.isValidVersion(version) ==> r == DEFAULT_VERSION
    ensures DefaultVersionValid(v) ==> v.isValidVersion(r)
  {
    if v.isValidVersion(version) then version else DEFAULT_VERSION
  }

  /** `of(serviceName, instanceId, version)`. */
  function OfInstance(v: Validators, serviceName: string, instanceId: string, version: string)
    : (r: Result<UserAgent, AgentError>)
    ensures DefaultVersionValid(v) ==>
      (r.Ok? <==> v.isValidServiceName(serviceName) && v.isValidInstance(instanceId))
    ensures r.Ok? ==> |r.value.agents| == 1 && r.value.agents[0].serviceName == serviceName
    ensures r.Ok? ==> r.value.agents[0].instanceId == Some(instanceId)
    ensures r.Ok? && v.isValidVersion(version) ==> r.value.agents[0].version == version
    ensures r.Ok? && !v.isValidVersion(version) ==> r.value.agents[0].version == DEFAULT_VERSION
  {
    match BuildAgent(v, Agent(serviceName, Some(instanceId), VersionOrDefault(v, version)))
    case Ok(a) => Ok(UserAgent([a]))
    case Err(e) => Err(e)
  }

  /** `of(serviceName, version)`: like OfInstance, with no instance id. */
  function Of(v: Validators, serviceName: string, version: string): (r: Result<UserAgent, AgentError>)
    ensures DefaultVersionValid(v) ==> (r.Ok? <==> v.isValidServiceName(serviceName))
    ensures r.Ok? ==> |r.value.agents| == 1 && r.value.agents[0].serviceName == serviceName
    ensures r.Ok? ==> r.value.agents[0].instanceId.None?
    ensures r.Ok? && v.isValidVersion(version) ==> r.value.agents[0].version == version
    ensures r.Ok? && !v.isValidVersion(version) ==> r.value.agents[0].version == DEFAULT_VERSION
  {
    match BuildAgent(v, Agent(serviceName, None, VersionOrDefault(v, version)))
    case Ok(a) => Ok(UserAgent([a]))
    case Err(e) => Err(e)
  }

  /** All agents of this followed by all agents of other. */
  function Merge(u: UserAgent, other: UserAgent): (r: UserAgent)
    ensures |r.agents| == |u.agents| + |other.agents|
    ensures r.agents[..|u.agents|] == u.agents && r.agents[|u.agents|..] == other.agents
  {
    UserAgent(u.agents + other.agents)
  }

  /** Every agent of a user agent passes its check. */
  predicate AllChecked(v: Validators, u: UserAgent)
  {
    forall i :: 0 <= i < |u.agents| ==> Check(v, u.agents[i]).None?
  }

  /** Merging is associative. */
  lemma {:induction false} MergeAssociative(a: UserAgent, b: UserAgent, c: UserAgent)
    ensures Merge(Merge(a, b), c) == Merge(a, Merge(b, c))
  {
  }

  /** Merging keeps every agent valid, so merged user agents of built
      agents never hold an agent that fails its check. */
  lemma {:induction false} MergeKeepsAgentsChecked(v: Validators, a: UserAgent, b: UserAgent)
    requires AllChecked(v, a) && AllChecked(v, b)
    ensures AllChecked(v, Merge(a, b))
  {
  }

  /** Given that the default version is valid, the version check in an
      agent built by either factory never fails: a failure is always about
      the service name or the instance id. */
  lemma {:induction false} VersionCheckUnreachable(v: Validators, serviceName: string,
                                                   instanceId: Option<string>, version: string)
    requires DefaultVersionValid(v)
    ensures Check(v, Agent(serviceName, instanceId, VersionOrDefault(v, version))) != Some(IllegalVersion(VersionOrDefault(v, version)))
    ensures instanceId.Some? ==>
      (OfInstance(v, serviceName, instanceId.value, version).Err? ==>
         OfInstance(v, serviceName, instanceId.value, version).error != IllegalVersion(VersionOrDefault(v, version)))
    ensures Of(v, serviceName, version).Err? ==>
      Of(v, serviceName, version).error == IllegalServiceName(serviceName)
  {
  }

  /** Without that fact the version check is reachable: a validator that
      rejects every version makes both factories fail on a valid name. */
  lemma VersionCheckReachableWithoutDefault(serviceName: string, version: string)
    ensures var v := Validators(_ => true, _ => true, _ => false);
      Of(v, serviceName, version) == Err(IllegalVersion(DEFAULT_VERSION))
  {
  }
}
