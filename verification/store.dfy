/**
 * The web client's Vuex store (frontend/src/store): the state the pages read
 * through the getters and the synchronous mutations that write it.  Vuex hands
 * a mutation the state to change in place; here each mutation returns the new
 * state instead.
 */
module Store {
  import opened Wrappers

  /** The part of an environment the getters look at; `data` in setEnvironment is a whole new one. */
  datatype EnvView = EnvView(id: string, name: string, state: string)

  datatype StoreState = StoreState(
    environments: seq<EnvView>,
    version: string,
    error: string,
    isLoading: bool,
    environmentsLoading: map<string, bool>,
    instancesLoading: map<string, bool>,
    totalBillsAccrued: real,
    totalBillsSaved: real)

  /** The body of a summary or details response. */
  datatype EnvList = EnvList(envList: seq<EnvView>, totalBillsAccrued: real, totalBillsSaved: real)

  // ---------------------------------------------------------------- getters

  function IsAppLoading(s: StoreState): bool
  {
    s.isLoading
  }

  /** `flags[id] === true`: an absent key reads as undefined, which is not true. */
  predicate Flagged(flags: map<string, bool>, id: string)
  {
    id in flags && flags[id]
  }

  function IsEnvironmentLoading(s: StoreState, id: string): bool
  {
    Flagged(s.environmentsLoading, id)
  }

  function IsInstanceLoading(s: StoreState, id: string): bool
  {
    Flagged(s.instancesLoading, id)
  }

  /** `environments.find`: the position of the first environment with the id. */
  function FindEnv(envs: seq<EnvView>, envId: string): (r: Option<nat>)
    ensures r.None? <==> forall i :: 0 <= i < |envs| ==> envs[i].id != envId
    ensures r.Some? ==> r.value < |envs| && envs[r.value].id == envId
                        && forall j :: 0 <= j < r.value ==> envs[j].id != envId
  {
    if |envs| == 0 then None
    else if envs[0].id == envId then Some(0)
    else
      match FindEnv(envs[1..], envId)
      case None => None
      case Some(k) => Some(k + 1)
  }

  /**
   * isEnvironmentStateStatus: whether the first environment with the id is in
   * `status`; false when there is none.
   */
  function IsEnvironmentStateStatus(s: StoreState, envId: string, status: string): (r: bool)
    ensures r <==> exists i :: 0 <= i < |s.environments| && s.environments[i].id == envId
                              && s.environments[i].state == status
                              && forall j :: 0 <= j < i ==> s.environments[j].id != envId
  {
    match FindEnv(s.environments, envId)
    case None => false
    case Some(i) => s.environments[i].state == status
  }

  function IsEnvironmentStateRunning(s: StoreState, id: string): bool { IsEnvironmentStateStatus(s, id, "running") }
  function IsEnvironmentStateStopped(s: StoreState, id: string): bool { IsEnvironmentStateStatus(s, id, "stopped") }
  function IsEnvironmentStateMixed(s: StoreState, id: string): bool { IsEnvironmentStateStatus(s, id, "mixed") }
  function IsEnvironmentStateChanging(s: StoreState, id: string): bool { IsEnvironmentStateStatus(s, id, "changing") }

  /** The four state getters never hold together: at most one of them is true for an id. */
  lemma AtMostOneStatus(s: StoreState, id: string)
    ensures (if IsEnvironmentStateRunning(s, id) then 1 else 0) + (if IsEnvironmentStateStopped(s, id) then 1 else 0)
            + (if IsEnvironmentStateMixed(s, id) then 1 else 0) + (if IsEnvironmentStateChanging(s, id) then 1 else 0) <= 1
  {
    assert "running"[0] != "stopped"[0] && "running"[0] != "mixed"[0] && "running"[0] != "changing"[0];
    assert "stopped"[0] != "mixed"[0] && "stopped"[0] != "changing"[0] && "mixed"[0] != "changing"[0];
  }

  /** With no environment of that id every state getter is false. */
  lemma UnknownEnvHasNoStatus(s: StoreState, id: string, status: string)
    requires forall i :: 0 <= i < |s.environments| ==> s.environments[i].id != id
    ensures !IsEnvironmentStateStatus(s, id, status)
  {
  }

  // ---------------------------------------------------------------- mutations

  function SetVersion(s: StoreState, v: string): (r: StoreState)
    ensures r.version == v && r.(version := s.version) == s
  {
    s.(version := v)
  }

  /** setEnvironments: the list and both totals come from the response. */
  function SetEnvironments(s: StoreState, data: EnvList): (r: StoreState)
    ensures r.environments == data.envList
    ensures r.totalBillsAccrued == data.totalBillsAccrued && r.totalBillsSaved == data.totalBillsSaved
    ensures r.(environments := s.environments, totalBillsAccrued := s.totalBillsAccrued, totalBillsSaved := s.totalBillsSaved) == s
  {
    s.(environments := data.envList, totalBillsAccrued := data.totalBillsAccrued, totalBillsSaved := data.totalBillsSaved)
  }

  /** setEnvironment: every environment with the id (not only the first) is replaced by `data`, in place. */
  function SetEnvironment(s: StoreState, id: string, data: EnvView): (r: StoreState)
    ensures |r.environments| == |s.environments|
    ensures forall i :: 0 <= i < |s.environments| ==>
              r.environments[i] == if s.environments[i].id == id then data else s.environments[i]
    ensures r.(environments := s.environments) == s
  {
    s.(environments := seq(|s.environments|, i requires 0 <= i < |s.environments| =>
                             if s.environments[i].id == id then data else s.environments[i]))
  }

  /** setEnvironmentLoading: a fresh map with one key set. */
  function SetEnvironmentLoading(s: StoreState, id: string, flag: bool): (r: StoreState)
    ensures IsEnvironmentLoading(r, id) == flag
    ensures forall other :: other != id ==> IsEnvironmentLoading(r, other) == IsEnvironmentLoading(s, other)
    ensures r.(environmentsLoading := s.environmentsLoading) == s
  {
    s.(environmentsLoading := s.environmentsLoading[id := flag])
  }

  function SetError(s: StoreState, err: string): (r: StoreState)
    ensures r.error == err && r.(error := s.error) == s
  {
    s.(error := err)
  }

  function SetIsLoading(s: StoreState, flag: bool): (r: StoreState)
    ensures IsAppLoading(r) == flag && r.(isLoading := s.isLoading) == s
  {
    s.(isLoading := flag)
  }

  /** Replacing an environment with a fresh copy of itself (same id) moves the state getters to the copy's state. */
  lemma SetEnvironmentUpdatesStatus(s: StoreState, id: string, data: EnvView, status: string)
    requires data.id == id
    requires exists i :: 0 <= i < |s.environments| && s.environments[i].id == id
    ensures IsEnvironmentStateStatus(SetEnvironment(s, id, data), id, status) <==> data.state == status
  {
    var r := SetEnvironment(s, id, data);
    var i :| 0 <= i < |s.environments| && s.environments[i].id == id;
    var k := FindEnv(r.environments, id);
    assert r.environments[i].id == id;
    assert k.Some?;
  }

  /** A fetch of one environment marks it loading, then not; other environments keep their flags. */
  lemma FetchEnvironmentLoadingCycle(s: StoreState, id: string, data: EnvView, other: string)
    requires other != id
    ensures var during := SetEnvironmentLoading(s, id, true);
            var after := SetEnvironmentLoading(SetEnvironment(during, id, data), id, false);
            && IsEnvironmentLoading(during, id) && !IsEnvironmentLoading(after, id)
            && IsEnvironmentLoading(after, other) == IsEnvironmentLoading(s, other)
  {
  }

  // ---------------------------------------------------------------- committing by name

  /** A commit as the actions issue it: a mutation name and its payload. */
  datatype Commit =
    | Named(name: string, payload: Payload)

  datatype Payload =
    | Text(text: string)
    | Flag(flag: bool)
    | List(data: EnvList)
    | One(id: string, env: EnvView)
    | IdFlag(id: string, idFlag: bool)
    | IdStatus(id: string, status: string, envId: string)

  /**
   * Vuex applies the mutation registered under the name, and ignores (after
   * logging) a name that is not registered.  These are the mutations of
   * mutations.js.  The JavaScript mutations store whatever payload they get;
   * the model types each payload, and a commit whose payload does not fit
   * the named mutation leaves the state as it is.
   */
  function CommitAsWritten(s: StoreState, c: Commit): (r: StoreState)
    ensures r.instancesLoading == s.instancesLoading
  {
    match (c.name, c.payload)
    case ("setVersion", Text(v)) => SetVersion(s, v)
    case ("setEnvironments", List(d)) => SetEnvironments(s, d)
    case ("setEnvironment", One(id, d)) => SetEnvironment(s, id, d)
    case ("setEnvironmentLoading", IdFlag(id, f)) => SetEnvironmentLoading(s, id, f)
    case ("setError", Text(e)) => SetError(s, e)
    case ("setIsLoading", Flag(f)) => SetIsLoading(s, f)
    case _ => s
  }

  function ApplyAsWritten(s: StoreState, cs: seq<Commit>): StoreState
  {
    if |cs| == 0 then s else CommitAsWritten(ApplyAsWritten(s, cs[..|cs| - 1]), cs[|cs| - 1])
  }

  /** No sequence of commits ever changes the instance flags, so isInstanceLoading keeps its first answer. */
  lemma {:induction false} InstanceLoadingNeverSet(s: StoreState, cs: seq<Commit>, id: string)
    ensures IsInstanceLoading(ApplyAsWritten(s, cs), id) == IsInstanceLoading(s, id)
  {
    if |cs| > 0 {
      InstanceLoadingNeverSet(s, cs[..|cs| - 1], id);
    }
  }

  /** The commits startInstance issues before its request returns: the loading flag of the instance. */
  function StartInstanceOpening(id: string): seq<Commit>
  {
    [Named("setInstanceLoading", IdFlag(id, true))]
  }

  /** startInstance asks for the instance's loading flag, but with the mutations as written it never shows. */
  lemma StartInstanceShowsNothing(s: StoreState, id: string)
    requires !IsInstanceLoading(s, id)
    ensures !IsInstanceLoading(ApplyAsWritten(s, StartInstanceOpening(id)), id)
  {
    InstanceLoadingNeverSet(s, StartInstanceOpening(id), id);
  }

  /** The mutation the actions expect: setInstanceLoading, shaped like setEnvironmentLoading. */
  function SetInstanceLoading(s: StoreState, id: string, flag: bool): (r: StoreState)
    ensures IsInstanceLoading(r, id) == flag
    ensures forall other :: other != id ==> IsInstanceLoading(r, other) == IsInstanceLoading(s, other)
    ensures r.(instancesLoading := s.instancesLoading) == s
  {
    s.(instancesLoading := s.instancesLoading[id := flag])
  }

  /** The registered mutations with setInstanceLoading added. */
  function CommitCorrected(s: StoreState, c: Commit): (r: StoreState)
    ensures c.name != "setInstanceLoading" ==> r == CommitAsWritten(s, c)
  {
    match (c.name, c.payload)
    case ("setInstanceLoading", IdFlag(id, f)) => SetInstanceLoading(s, id, f)
    case ("setInstanceLoading", _) => s
    case _ => CommitAsWritten(s, c)
  }

  function ApplyCorrected(s: StoreState, cs: seq<Commit>): StoreState
  {
    if |cs| == 0 then s else CommitCorrected(ApplyCorrected(s, cs[..|cs| - 1]), cs[|cs| - 1])
  }

  /** With setInstanceLoading registered, startInstance's first commit does mark the instance loading. */
  lemma StartInstanceShowsLoading(s: StoreState, id: string)
    ensures IsInstanceLoading(ApplyCorrected(s, StartInstanceOpening(id)), id)
  {
    assert StartInstanceOpening(id)[..0] == [];
  }
}
