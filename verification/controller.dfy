/**
 * The power controller (backend/aws.go): starting and stopping environments,
 * single instances and auto-scaling groups.  AWS is not called; each request is
 * recorded as a `Call`, and `aws` says which requests succeed.
 */
module Controller {
  import opened Wrappers
  import opened Types
  import opened Billing
  import opened Lookup
  import opened ServerState
  import Mock

  /** AWS's answer to each request: true when it succeeds. */
  type Answers = Call -> bool

  /** What a toggle helper did: its error, the requests it sent, and the toggled-off set after it. */
  datatype Toggle = Toggle(outcome: Outcome, calls: seq<Call>, toggled: ToggledOff)

  function Answer(ok: bool): Outcome
  {
    if ok then Pass else Fail(ProviderFailed)
  }

  /** toggleInstances: one start or stop request for all ids, through the client of `region`. */
  function ToggleInstances(cfg: Config, ids: seq<string>, desiredState: string, region: string,
                           toggled: ToggledOff, aws: Answers): (r: Toggle)
    ensures |ids| < 1 ==> r == Toggle(Fail(NoInstanceIDs), [], toggled)
    ensures |ids| >= 1 && desiredState != "start" && desiredState != "stop" ==>
              r == Toggle(Fail(UnsupportedState), [], toggled)
    ensures |ids| >= 1 && desiredState == "start" ==> r.calls == [StartInstances(region, ids)]
    ensures |ids| >= 1 && desiredState == "stop" ==> r.calls == [StopInstances(region, ids)]
    ensures |r.calls| == 1 ==> (r.outcome == Pass <==> aws(r.calls[0]))
    ensures r.outcome.Fail? ==> r.toggled == toggled
    ensures r.outcome == Pass && desiredState == "stop" ==>
              forall x :: x in r.toggled <==> x in toggled || (cfg.experimentalEnabled && x in ids)
    ensures r.outcome == Pass && desiredState == "start" ==>
              forall x :: x in r.toggled <==> x in toggled && !(cfg.experimentalEnabled && x in ids)
  {
    if |ids| < 1 then Toggle(Fail(NoInstanceIDs), [], toggled)
    else if desiredState == "start" then
      var call := StartInstances(region, ids);
      var ok := aws(call);
      Toggle(Answer(ok), [call], if cfg.experimentalEnabled && ok then DeleteToggledOff(toggled, ids) else toggled)
    else if desiredState == "stop" then
      var call := StopInstances(region, ids);
      var ok := aws(call);
      Toggle(Answer(ok), [call], if cfg.experimentalEnabled && ok then PutToggledOff(toggled, ids) else toggled)
    else Toggle(Fail(UnsupportedState), [], toggled)
  }

  /** Stopping then starting the same ids, both accepted, leaves none of them marked. */
  lemma StopThenStartInstances(cfg: Config, ids: seq<string>, region: string, toggled: ToggledOff, aws: Answers)
    requires |ids| >= 1
    requires aws(StopInstances(region, ids)) && aws(StartInstances(region, ids))
    ensures var stop := ToggleInstances(cfg, ids, "stop", region, toggled, aws);
            var start := ToggleInstances(cfg, ids, "start", region, stop.toggled, aws);
            && stop.outcome == Pass && start.outcome == Pass
            && (cfg.experimentalEnabled ==> start.toggled == DeleteToggledOff(toggled, ids))
            && (!cfg.experimentalEnabled ==> start.toggled == toggled)
  {
    DeleteUndoesPut(toggled, ids);
  }

  /** The capacity toggleASGs sets (both desired and minimum): 1 to start, 0 to stop. */
  function Capacity(desiredState: string): int
  {
    if desiredState == "start" then 1 else 0
  }

  /** One update request per group, in order. */
  function ASGCalls(names: seq<string>, region: string, capacity: int): (r: seq<Call>)
    ensures |r| == |names|
    ensures forall k :: 0 <= k < |names| ==> r[k] == UpdateASG(region, names[k], capacity, capacity)
  {
    seq(|names|, k requires 0 <= k < |names| => UpdateASG(region, names[k], capacity, capacity))
  }

  datatype Sweep = Sweep(lastOk: bool, toggled: ToggledOff)

  /**
   * The loop of toggleASGs: `err` is overwritten by every request, so the last
   * request decides the error; after EVERY accepted request, with billing on,
   * all the names (not just that group's) are marked toggled off.
   */
  function ASGLoop(calls: seq<Call>, names: seq<string>, billing: bool, toggled: ToggledOff, aws: Answers): (r: Sweep)
    ensures |calls| > 0 ==> r.lastOk == aws(calls[|calls| - 1])
    ensures forall x :: x in r.toggled <==>
              x in toggled || (billing && (exists k :: 0 <= k < |calls| && aws(calls[k])) && x in names)
  {
    if |calls| == 0 then Sweep(true, toggled)
    else
      var prefix := calls[..|calls| - 1];
      var acc := ASGLoop(prefix, names, billing, toggled, aws);
      var ok := aws(calls[|calls| - 1]);
      assert forall k :: 0 <= k < |prefix| ==> prefix[k] == calls[k];
      Sweep(ok, if billing && ok then PutToggledOff(acc.toggled, names) else acc.toggled)
  }

  /** toggleASGs: one capacity update per group, through the client of `region`. */
  function ToggleASGs(cfg: Config, names: seq<string>, desiredState: string, region: string,
                      toggled: ToggledOff, aws: Answers): (r: Toggle)
    ensures |names| < 1 ==> r == Toggle(Fail(NoASGNames), [], toggled)
    ensures |names| >= 1 && desiredState != "start" && desiredState != "stop" ==>
              r == Toggle(Fail(UnsupportedState), [], toggled)
    ensures |names| >= 1 && (desiredState == "start" || desiredState == "stop") ==>
              && r.calls == ASGCalls(names, region, Capacity(desiredState))
              && (r.outcome == Pass <==> aws(r.calls[|r.calls| - 1]))
              && forall x :: x in r.toggled <==>
                               x in toggled
                               || (cfg.experimentalEnabled && (exists k :: 0 <= k < |r.calls| && aws(r.calls[k])) && x in names)
  {
    if |names| < 1 then Toggle(Fail(NoASGNames), [], toggled)
    else if desiredState == "start" || desiredState == "stop" then
      var calls := ASGCalls(names, region, Capacity(desiredState));
      var sweep := ASGLoop(calls, names, cfg.experimentalEnabled, toggled, aws);
      Toggle(Answer(sweep.lastOk), calls, sweep.toggled)
    else Toggle(Fail(UnsupportedState), [], toggled)
  }

  /** Starting a group marks it toggled off, exactly as stopping does. */
  lemma StartingGroupsMarksThem(cfg: Config, names: seq<string>, region: string, toggled: ToggledOff, aws: Answers)
    requires cfg.experimentalEnabled && |names| >= 1
    requires aws(UpdateASG(region, names[0], 1, 1))
    ensures forall k :: 0 <= k < |names| ==> names[k] in ToggleASGs(cfg, names, "start", region, toggled, aws).toggled
  {
    var r := ToggleASGs(cfg, names, "start", region, toggled, aws);
    assert aws(r.calls[0]);
  }

  /** The errors of the two halves of an environment operation, joined as shutdownEnv/startupEnv join them. */
  function Combine(instances: Outcome, groups: Outcome): (r: Outcome)
    ensures r == Pass <==> instances == Pass && groups == Pass
  {
    if instances == Pass && groups == Pass then Pass else Fail(Combined(instances.Fail?, groups.Fail?))
  }

  /** The instance count shutdownEnv weighs against the ceiling: running plain ids plus running group members. */
  function RunningCount(table: Table, envId: string): int
  {
    |GetInstanceIDs(table, envId, "running")| + GetASGs(table, envId, "running").memberCount
  }

  /** Both halves of an environment operation: the plain instances first, then the groups. */
  function PowerBoth(cfg: Config, s: State, region: string, ids: seq<string>, names: seq<string>,
                     desiredState: string, aws: Answers): (r: Step)
    requires desiredState == "start" || desiredState == "stop"
    ensures r.after == s.(toggled := r.after.toggled)
    ensures r.calls == (if |ids| > 0 then [if desiredState == "start" then StartInstances(region, ids) else StopInstances(region, ids)] else [])
                       + (if |names| > 0 then ASGCalls(names, region, Capacity(desiredState)) else [])
    ensures r.outcome == Pass <==>
              && (|ids| == 0 || aws(if desiredState == "start" then StartInstances(region, ids) else StopInstances(region, ids)))
              && (|names| == 0 || aws(UpdateASG(region, names[|names| - 1], Capacity(desiredState), Capacity(desiredState))))
  {
    var inst := if |ids| > 0 then ToggleInstances(cfg, ids, desiredState, region, s.toggled, aws)
                else Toggle(Pass, [], s.toggled);
    var grp := if |names| > 0 then ToggleASGs(cfg, names, desiredState, region, inst.toggled, aws)
               else Toggle(Pass, [], inst.toggled);
    Step(Combine(inst.outcome, grp.outcome), inst.calls + grp.calls, s.(toggled := grp.toggled))
  }

  /**
   * shutdownEnv.  An unknown id is not an error; more running instances than
   * the ceiling (plain ids plus group members) refuses without a request; a
   * count equal to the ceiling proceeds.
   */
  function ShutdownEnv(cfg: Config, s: State, envId: string, aws: Answers): (r: Step)
    ensures cfg.mockEnabled ==> r == Mock.MockShutdownEnv(cfg, s, envId)
    ensures !cfg.mockEnabled ==> r.after == s.(toggled := r.after.toggled)
    ensures !cfg.mockEnabled && GetEnvironmentByID(s.table, envId).None? ==> r == Step(Pass, [], s)
    ensures !cfg.mockEnabled && GetEnvironmentByID(s.table, envId).Some? ==>
              (r.outcome == Fail(Safety(RunningCount(s.table, envId))) <==> RunningCount(s.table, envId) > cfg.maxInstancesToShutdown)
    ensures !cfg.mockEnabled && RunningCount(s.table, envId) > cfg.maxInstancesToShutdown ==> r.calls == [] && r.after == s
    ensures !cfg.mockEnabled && GetEnvironmentByID(s.table, envId).Some? && RunningCount(s.table, envId) <= cfg.maxInstancesToShutdown ==>
              r == PowerBoth(cfg, s, GetEnvironmentByID(s.table, envId).value.region,
                             GetInstanceIDs(s.table, envId, "running"), GetASGs(s.table, envId, "running").names, "stop", aws)
  {
    if cfg.mockEnabled then Mock.MockShutdownEnv(cfg, s, envId)
    else
      match GetEnvironmentByID(s.table, envId)
      case None => Step(Pass, [], s)
      case Some(env) =>
        var asgs := GetASGs(s.table, envId, "running");
        var ids := GetInstanceIDs(s.table, envId, "running");
        var total := |ids| + asgs.memberCount;
        if total > cfg.maxInstancesToShutdown then Step(Fail(Safety(total)), [], s)
        else PowerBoth(cfg, s, env.region, ids, asgs.names, "stop", aws)
  }

  /** Whatever AWS answers, a shutdown that sends any request stays within the ceiling. */
  lemma ShutdownWithinCeiling(cfg: Config, s: State, envId: string, aws: Answers)
    requires ShutdownEnv(cfg, s, envId, aws).calls != []
    ensures RunningCount(s.table, envId) <= cfg.maxInstancesToShutdown
            || (cfg.mockEnabled && |GetInstanceIDs(s.table, envId, "running")| <= cfg.maxInstancesToShutdown)
  {
  }

  /** Every request a real shutdown sends is a stop: of the running plain ids, or a group scaled to zero. */
  lemma ShutdownOnlyStops(cfg: Config, s: State, envId: string, aws: Answers, k: int)
    requires !cfg.mockEnabled
    requires 0 <= k < |ShutdownEnv(cfg, s, envId, aws).calls|
    ensures var call := ShutdownEnv(cfg, s, envId, aws).calls[k];
            || (call.StopInstances? && call.ids == GetInstanceIDs(s.table, envId, "running"))
            || (call.UpdateASG? && call.desiredCapacity == 0 && call.minSize == 0
                && call.name in GetASGs(s.table, envId, "running").names)
  {
    var env := GetEnvironmentByID(s.table, envId).value;
    PowerStopCalls(cfg, s, env.region, GetInstanceIDs(s.table, envId, "running"),
                   GetASGs(s.table, envId, "running").names, aws, k);
  }

  /** Every request of a stop names the given ids or scales one of the given groups to zero. */
  lemma PowerStopCalls(cfg: Config, s: State, region: string, ids: seq<string>, names: seq<string>, aws: Answers, k: int)
    requires 0 <= k < |PowerBoth(cfg, s, region, ids, names, "stop", aws).calls|
    ensures var call := PowerBoth(cfg, s, region, ids, names, "stop", aws).calls[k];
            || (call.StopInstances? && call.ids == ids)
            || (call.UpdateASG? && call.desiredCapacity == 0 && call.minSize == 0 && call.name in names)
  {
    var calls := PowerBoth(cfg, s, region, ids, names, "stop", aws).calls;
    var pre := if |ids| > 0 then [StopInstances(region, ids)] else [];
    if k >= |pre| {
      assert calls[k] == ASGCalls(names, region, 0)[k - |pre|];
    }
  }

  /** startupEnv: the same as shutdownEnv for stopped rows, without a ceiling. */
  function StartupEnv(cfg: Config, s: State, envId: string, aws: Answers): (r: Step)
    ensures cfg.mockEnabled ==> r == Mock.MockStartupEnv(cfg, s, envId)
    ensures !cfg.mockEnabled ==> r.after == s.(toggled := r.after.toggled)
    ensures !cfg.mockEnabled && GetEnvironmentByID(s.table, envId).None? ==> r == Step(Pass, [], s)
    ensures !cfg.mockEnabled && GetEnvironmentByID(s.table, envId).Some? ==>
              r == PowerBoth(cfg, s, GetEnvironmentByID(s.table, envId).value.region,
                             GetInstanceIDs(s.table, envId, "stopped"), GetASGs(s.table, envId, "stopped").names, "start", aws)
  {
    if cfg.mockEnabled then Mock.MockStartupEnv(cfg, s, envId)
    else
      match GetEnvironmentByID(s.table, envId)
      case None => Step(Pass, [], s)
      case Some(env) =>
        PowerBoth(cfg, s, env.region, GetInstanceIDs(s.table, envId, "stopped"),
                  GetASGs(s.table, envId, "stopped").names, "start", aws)
  }

  predicate HasPrefix(s: string, p: string)
  {
    |p| <= |s| && s[..|p|] == p
  }

  /** The Step of a toggle helper run against the cached state. */
  function Apply(s: State, t: Toggle): Step
  {
    Step(t.outcome, t.calls, s.(toggled := t.toggled))
  }

  /**
   * toggleInstance.  The state is checked before any lookup; the resolved AWS
   * id then picks the path: an "i-" prefix is an EC2 instance, any other
   * non-empty id names a group, and "" means no row carries the internal id.
   */
  function ToggleInstance(cfg: Config, s: State, id: string, desiredState: string, aws: Answers): (r: Step)
    ensures cfg.mockEnabled ==> r == Mock.MockToggleInstance(cfg, s, id, desiredState)
    ensures !cfg.mockEnabled ==> r.after == s.(toggled := r.after.toggled)
    ensures !cfg.mockEnabled && desiredState != "start" && desiredState != "stop" ==>
              r == Step(Fail(InvalidDesiredState), [], s)
    ensures !cfg.mockEnabled && (desiredState == "start" || desiredState == "stop") && !HasRowId(s.table, id) ==>
              r == Step(Fail(NoMapping), [], s)
    ensures !cfg.mockEnabled && (desiredState == "start" || desiredState == "stop") ==>
              r == ToggleAwsId(cfg, s, id, GetAWSInstanceID(s.table, id), desiredState, aws)
  {
    if cfg.mockEnabled then Mock.MockToggleInstance(cfg, s, id, desiredState)
    else if desiredState != "start" && desiredState != "stop" then Step(Fail(InvalidDesiredState), [], s)
    else ToggleAwsId(cfg, s, id, GetAWSInstanceID(s.table, id), desiredState, aws)
  }

  /**
   * The second half of toggleInstance, once the AWS id of internal id `id` is
   * resolved: an "i-" prefix is an EC2 instance (its client is found through
   * the internal id), any other non-empty id names a group (found by name),
   * and "" means no row carried the internal id.
   */
  function ToggleAwsId(cfg: Config, s: State, id: string, awsId: string, desiredState: string, aws: Answers): (r: Step)
    requires desiredState == "start" || desiredState == "stop"
    ensures r.after == s.(toggled := r.after.toggled)
    ensures |r.calls| <= 1
    ensures HasPrefix(awsId, "i-") && |r.calls| == 1 ==>
              r.calls[0] == (if desiredState == "start" then StartInstances(r.calls[0].region, [awsId])
                             else StopInstances(r.calls[0].region, [awsId]))
    ensures !HasPrefix(awsId, "i-") && awsId != "" && |r.calls| == 1 ==>
              r.calls[0] == UpdateASG(r.calls[0].region, awsId, Capacity(desiredState), Capacity(desiredState))
    ensures awsId == "" ==> r == Step(Fail(NoMapping), [], s)
    ensures HasPrefix(awsId, "i-") ==> r == ToggleOneInstance(cfg, s, InstanceRegion(s.table, id), awsId, desiredState, aws)
    ensures !HasPrefix(awsId, "i-") && awsId != "" ==> r == ToggleOneASG(cfg, s, ASGRegion(s.table, awsId), awsId, desiredState, aws)
  {
    if HasPrefix(awsId, "i-") then ToggleOneInstance(cfg, s, InstanceRegion(s.table, id), awsId, desiredState, aws)
    else if awsId != "" then ToggleOneASG(cfg, s, ASGRegion(s.table, awsId), awsId, desiredState, aws)
    else Step(Fail(NoMapping), [], s)
  }

  /** The EC2 path of toggleInstance: no client for the region is an error, else one request for the instance. */
  function ToggleOneInstance(cfg: Config, s: State, region: Option<string>, awsId: string, desiredState: string,
                             aws: Answers): (r: Step)
    requires desiredState == "start" || desiredState == "stop"
    ensures r.after == s.(toggled := r.after.toggled)
    ensures region.None? || region.value !in cfg.regions ==> r == Step(Fail(NoClient), [], s)
    ensures region.Some? && region.value in cfg.regions ==>
              r.calls == [if desiredState == "start" then StartInstances(region.value, [awsId]) else StopInstances(region.value, [awsId])]
    ensures region.Some? && region.value in cfg.regions ==>
              && (r.outcome == Pass <==> aws(r.calls[0]))
              && forall x :: x in r.after.toggled <==>
                   if x != awsId || !(cfg.experimentalEnabled && r.outcome == Pass) then x in s.toggled
                   else desiredState == "stop"
  {
    if region.None? || region.value !in cfg.regions then Step(Fail(NoClient), [], s)
    else Apply(s, ToggleInstances(cfg, [awsId], desiredState, region.value, s.toggled, aws))
  }

  /** The group path of toggleInstance: no client for the region is an error, else one update for the group. */
  function ToggleOneASG(cfg: Config, s: State, region: Option<string>, awsId: string, desiredState: string,
                        aws: Answers): (r: Step)
    requires desiredState == "start" || desiredState == "stop"
    ensures r.after == s.(toggled := r.after.toggled)
    ensures region.None? || region.value !in cfg.regions ==> r == Step(Fail(NoClient), [], s)
    ensures region.Some? && region.value in cfg.regions ==>
              r.calls == [UpdateASG(region.value, awsId, Capacity(desiredState), Capacity(desiredState))]
    ensures region.Some? && region.value in cfg.regions ==>
              && (r.outcome == Pass <==> aws(r.calls[0]))
              && forall x :: x in r.after.toggled <==>
                   x in s.toggled || (cfg.experimentalEnabled && r.outcome == Pass && x == awsId)
  {
    if region.None? || region.value !in cfg.regions then Step(Fail(NoClient), [], s)
    else Apply(s, ToggleASGs(cfg, [awsId], desiredState, region.value, s.toggled, aws))
  }

  /**
   * Stopping the one row that carries an internal id, a plain instance whose id
   * starts with "i-" in a configured region: one stop request for it, and with
   * billing on an accepted stop marks it toggled off.
   */
  lemma ToggleUniqueInstance(cfg: Config, s: State, id: string, i: int, c: int, aws: Answers)
    requires !cfg.mockEnabled
    requires Mock.OnlyRowWithId(s.table, id, i, c)
    requires !s.table[i].instances[c].isASG && HasPrefix(s.table[i].instances[c].instanceId, "i-")
    requires s.table[i].instances[c].region in cfg.regions
    ensures var vm := s.table[i].instances[c];
            var r := ToggleInstance(cfg, s, id, "stop", aws);
            && r.calls == [StopInstances(vm.region, [vm.instanceId])]
            && (r.outcome == Pass <==> aws(StopInstances(vm.region, [vm.instanceId])))
            && (r.outcome == Pass && cfg.experimentalEnabled ==> vm.instanceId in r.after.toggled)
  {
    var vm := s.table[i].instances[c];
    UniqueRowId(s.table, id, i, c);
    var region := InstanceRegion(s.table, id);
    var j, d :| 0 <= j < |s.table| && 0 <= d < |s.table[j].instances|
                && s.table[j].instances[d].id == id && s.table[j].instances[d].region == region.value;
    assert j == i && d == c;
  }
}
