/**
 * The earlier single-region server (main.go): environments keyed by name only,
 * a three-valued state, no groups, no billing.  It keeps its own cache type;
 * its filters are the same predicates as the current server's (Filter), and
 * its ids are the same join-then-truncate digest (Identity.ComputeID).
 */
module Legacy {
  import opened Wrappers
  import opened Types
  import opened Filter
  import opened InstanceDetails
  import opened ServerState

  const EnvRunning: string := "running"
  const EnvDown: string := "stopped"
  const EnvChanging: string := "changing-state"

  datatype LegacyVM = LegacyVM(id: string, instanceType: string, name: string, state: string,
                               environment: string, vcpu: int, memoryGB: real)

  datatype LegacyEnv = LegacyEnv(name: string, instances: seq<LegacyVM>, totalVCPU: int,
                                 totalMemoryGB: real, state: string)

  type LegacyTable = seq<LegacyEnv>

  predicate Terminal(vm: LegacyVM)
  {
    vm.state == "running" || vm.state == "stopped"
  }

  // ---------------------------------------------------------------- updateEnvDetails

  datatype Totals = Totals(vcpu: int, memoryGB: real, state: string)

  /**
   * The inner loop of updateEnvDetails: every visited row adds to the totals,
   * a stopped row marks the environment stopped, and the first row in neither
   * terminal state marks it changing and ends the loop.
   */
  function ScanRows(rows: seq<LegacyVM>, acc: Totals): Totals
    decreases |rows|
  {
    if |rows| == 0 then acc
    else
      var vm := rows[0];
      var next := acc.(vcpu := acc.vcpu + vm.vcpu, memoryGB := acc.memoryGB + vm.memoryGB);
      if !Terminal(vm) then next.(state := EnvChanging)
      else ScanRows(rows[1..], if vm.state == "stopped" then next.(state := EnvDown) else next)
  }

  /** How many rows the loop visits: up to and including the first row in neither terminal state. */
  function Visited(rows: seq<LegacyVM>): (n: nat)
    ensures n <= |rows|
  {
    if |rows| == 0 then 0 else if !Terminal(rows[0]) then 1 else 1 + Visited(rows[1..])
  }

  function SumVCPU(rows: seq<LegacyVM>): int
  {
    if |rows| == 0 then 0 else rows[0].vcpu + SumVCPU(rows[1..])
  }

  function SumMemory(rows: seq<LegacyVM>): real
  {
    if |rows| == 0 then 0.0 else rows[0].memoryGB + SumMemory(rows[1..])
  }

  ghost predicate AnyNonTerminal(rows: seq<LegacyVM>)
  {
    exists c :: 0 <= c < |rows| && !Terminal(rows[c])
  }

  ghost predicate AnyStopped(rows: seq<LegacyVM>)
  {
    exists c :: 0 <= c < |rows| && rows[c].state == "stopped"
  }

  lemma {:induction false} ScanTotals(rows: seq<LegacyVM>, acc: Totals)
    ensures ScanRows(rows, acc).vcpu == acc.vcpu + SumVCPU(rows[..Visited(rows)])
    ensures ScanRows(rows, acc).memoryGB == acc.memoryGB + SumMemory(rows[..Visited(rows)])
    decreases |rows|
  {
    if |rows| > 0 {
      var vm := rows[0];
      var next := acc.(vcpu := acc.vcpu + vm.vcpu, memoryGB := acc.memoryGB + vm.memoryGB);
      var k := Visited(rows);
      assert rows[..k][1..] == rows[1..][..k - 1];
      if Terminal(vm) {
        ScanTotals(rows[1..], if vm.state == "stopped" then next.(state := EnvDown) else next);
      } else {
        assert rows[..k][1..] == [];
      }
    }
  }

  lemma {:induction false} ScanState(rows: seq<LegacyVM>, acc: Totals)
    ensures AnyNonTerminal(rows) ==> ScanRows(rows, acc).state == EnvChanging
    ensures !AnyNonTerminal(rows) && AnyStopped(rows) ==> ScanRows(rows, acc).state == EnvDown
    ensures !AnyNonTerminal(rows) && !AnyStopped(rows) ==> ScanRows(rows, acc).state == acc.state
    decreases |rows|
  {
    if |rows| > 0 {
      var vm := rows[0];
      var next := acc.(vcpu := acc.vcpu + vm.vcpu, memoryGB := acc.memoryGB + vm.memoryGB);
      if Terminal(vm) {
        var acc2 := if vm.state == "stopped" then next.(state := EnvDown) else next;
        ScanState(rows[1..], acc2);
        assert AnyNonTerminal(rows) ==> AnyNonTerminal(rows[1..]) by {
          if AnyNonTerminal(rows) {
            var c :| 0 <= c < |rows| && !Terminal(rows[c]);
            assert rows[1..][c - 1] == rows[c];
          }
        }
        assert AnyStopped(rows[1..]) ==> AnyStopped(rows) by {
          if AnyStopped(rows[1..]) {
            var c :| 0 <= c < |rows[1..]| && rows[1..][c].state == "stopped";
            assert rows[c + 1] == rows[1..][c];
          }
        }
        assert !AnyStopped(rows) ==> !AnyStopped(rows[1..]) && vm.state != "stopped" by {
          if !AnyStopped(rows) {
            forall c | 0 <= c < |rows[1..]| ensures rows[1..][c].state != "stopped" {
              assert rows[1..][c] == rows[c + 1];
            }
          }
        }
        assert !AnyNonTerminal(rows) ==> !AnyNonTerminal(rows[1..]) by {
          if !AnyNonTerminal(rows) {
            forall c | 0 <= c < |rows[1..]| ensures Terminal(rows[1..][c]) {
              assert rows[1..][c] == rows[c + 1];
            }
          }
        }
      }
    }
  }

  /**
   * One iteration of updateEnvDetails.  The state starts as running; the totals
   * are NOT reset, so they grow from whatever the environment held.
   */
  function UpdateEnv(env: LegacyEnv): (r: LegacyEnv)
    ensures r.name == env.name && r.instances == env.instances
    ensures r.totalVCPU == env.totalVCPU + SumVCPU(env.instances[..Visited(env.instances)])
    ensures r.totalMemoryGB == env.totalMemoryGB + SumMemory(env.instances[..Visited(env.instances)])
    ensures r.state == EnvChanging <==> AnyNonTerminal(env.instances)
    ensures r.state == EnvDown <==> !AnyNonTerminal(env.instances) && AnyStopped(env.instances)
    ensures r.state == EnvRunning <==> !AnyNonTerminal(env.instances) && !AnyStopped(env.instances)
  {
    var t := ScanRows(env.instances, Totals(env.totalVCPU, env.totalMemoryGB, EnvRunning));
    ScanTotals(env.instances, Totals(env.totalVCPU, env.totalMemoryGB, EnvRunning));
    ScanState(env.instances, Totals(env.totalVCPU, env.totalMemoryGB, EnvRunning));
    assert EnvRunning != EnvDown by {
      assert EnvRunning[0] != EnvDown[0];
    }
    env.(totalVCPU := t.vcpu, totalMemoryGB := t.memoryGB, state := t.state)
  }

  /** updateEnvDetails over the whole table. */
  function UpdateEnvDetails(table: LegacyTable): (r: LegacyTable)
    ensures |r| == |table| && forall i :: 0 <= i < |table| ==> r[i] == UpdateEnv(table[i])
  {
    seq(|table|, i requires 0 <= i < |table| => UpdateEnv(table[i]))
  }

  /** Without a row in a transitional state the loop visits every row, so the totals cover them all. */
  lemma {:induction false} AllVisitedWhenSettled(rows: seq<LegacyVM>)
    requires !AnyNonTerminal(rows)
    ensures Visited(rows) == |rows|
    decreases |rows|
  {
    if |rows| > 0 {
      assert Terminal(rows[0]);
      assert !AnyNonTerminal(rows[1..]) by {
        forall c | 0 <= c < |rows[1..]| ensures Terminal(rows[1..][c]) {
          assert rows[1..][c] == rows[c + 1];
        }
      }
      AllVisitedWhenSettled(rows[1..]);
    }
  }

  // ---------------------------------------------------------------- grouping

  predicate LegacyHasEnv(table: LegacyTable, name: string)
  {
    exists i :: 0 <= i < |table| && table[i].name == name
  }

  predicate LegacyNamesUnique(table: LegacyTable)
  {
    forall i, j :: 0 <= i < j < |table| ==> table[i].name != table[j].name
  }

  /** addInstance of main.go: only the type filter (no terminated check); group by environment name. */
  function AddInstance(ignoreTypes: seq<string>, table: LegacyTable, vm: LegacyVM): (r: LegacyTable)
    ensures !CheckInstanceType(ignoreTypes, vm.instanceType) ==> r == table
    ensures CheckInstanceType(ignoreTypes, vm.instanceType) ==>
              && |r| == |table| + (if LegacyHasEnv(table, vm.environment) then 0 else 1)
              && (forall i :: 0 <= i < |table| ==>
                    r[i] == if table[i].name == vm.environment then table[i].(instances := table[i].instances + [vm]) else table[i])
              && (!LegacyHasEnv(table, vm.environment) ==> r[|table|] == LegacyEnv(vm.environment, [vm], 0, 0.0, ""))
    ensures LegacyNamesUnique(table) ==> LegacyNamesUnique(r)
    ensures forall n :: LegacyHasEnv(r, n) <==>
              LegacyHasEnv(table, n) || (CheckInstanceType(ignoreTypes, vm.instanceType) && n == vm.environment)
  {
    if !CheckInstanceType(ignoreTypes, vm.instanceType) then table
    else
      var appended := seq(|table|, i requires 0 <= i < |table| =>
                            if table[i].name == vm.environment then table[i].(instances := table[i].instances + [vm]) else table[i]);
      assert forall i :: 0 <= i < |table| ==> appended[i].name == table[i].name;
      if LegacyHasEnv(table, vm.environment) then appended
      else
        var r := appended + [LegacyEnv(vm.environment, [vm], 0, 0.0, "")];
        assert r[|table|].name == vm.environment;
        r
  }

  // ---------------------------------------------------------------- refresh

  /** One instance as DescribeInstances reports it. */
  datatype LegacyRaw = LegacyRaw(instanceId: string, state: string, instanceType: string, tags: seq<Tag>)

  /** The per-instance part of refreshTable: id, state and type; environment and name from the tags; size from the catalogue. */
  function Normalize(environmentTagKey: string, catalogue: seq<TypeDetails>, raw: LegacyRaw): (r: LegacyVM)
    ensures r.id == raw.instanceId && r.state == raw.state && r.instanceType == raw.instanceType
    ensures r.environment == LastNonEmptyValue(raw.tags, environmentTagKey) && r.name == LastValue(raw.tags, NameKey)
    ensures GetInstanceTypeDetails(catalogue, raw.instanceType).found ==>
              r.vcpu == GetInstanceTypeDetails(catalogue, raw.instanceType).details.vcpu
              && r.memoryGB == GetInstanceTypeDetails(catalogue, raw.instanceType).details.memoryGB
    ensures !GetInstanceTypeDetails(catalogue, raw.instanceType).found ==> r.vcpu == 0 && r.memoryGB == 0.0
  {
    var d := GetInstanceTypeDetails(catalogue, raw.instanceType);
    LegacyVM(raw.instanceId, raw.instanceType, LastValue(raw.tags, NameKey), raw.state,
             LastNonEmptyValue(raw.tags, environmentTagKey),
             if d.found then d.details.vcpu else 0, if d.found then d.details.memoryGB else 0.0)
  }

  /** Whether the rebuild files the instance under environment n: a valid name, equal to n, and a kept type. */
  predicate FiledUnder(cfg: Config, catalogue: seq<TypeDetails>, raw: LegacyRaw, n: string)
  {
    var vm := Normalize(cfg.environmentTagKey, catalogue, raw);
    && ValidateEnvName(cfg.envNameIgnore, vm.environment)
    && CheckInstanceType(cfg.instanceTypeIgnore, vm.instanceType) && vm.environment == n
  }

  /** The rebuild loop of refreshTable: normalise each instance and add those with a valid environment name. */
  function Rebuild(cfg: Config, catalogue: seq<TypeDetails>, raws: seq<LegacyRaw>): (r: LegacyTable)
    ensures LegacyNamesUnique(r)
    ensures forall i :: 0 <= i < |r| ==> r[i].totalVCPU == 0 && r[i].totalMemoryGB == 0.0
  {
    if |raws| == 0 then []
    else
      var acc := Rebuild(cfg, catalogue, raws[..|raws| - 1]);
      var vm := Normalize(cfg.environmentTagKey, catalogue, raws[|raws| - 1]);
      if ValidateEnvName(cfg.envNameIgnore, vm.environment) then AddInstance(cfg.instanceTypeIgnore, acc, vm) else acc
  }

  /** After the rebuild an environment named n exists iff some instance is filed under n. */
  lemma RebuildHasEnv(cfg: Config, catalogue: seq<TypeDetails>, raws: seq<LegacyRaw>, n: string)
    ensures LegacyHasEnv(Rebuild(cfg, catalogue, raws), n) <==> exists k :: 0 <= k < |raws| && FiledUnder(cfg, catalogue, raws[k], n)
  {
    var filed := raw => FiledUnder(cfg, catalogue, raw, n);
    RebuildHasEnvAny(cfg, catalogue, raws, n);
    AnyOfExists(raws, filed);
  }

  /** Some instance of the list passes `p`, checked from the back. */
  predicate AnyOf(raws: seq<LegacyRaw>, p: LegacyRaw -> bool)
  {
    |raws| > 0 && (AnyOf(raws[..|raws| - 1], p) || p(raws[|raws| - 1]))
  }

  lemma {:induction false} RebuildHasEnvAny(cfg: Config, catalogue: seq<TypeDetails>, raws: seq<LegacyRaw>, n: string)
    ensures LegacyHasEnv(Rebuild(cfg, catalogue, raws), n) <==> AnyOf(raws, raw => FiledUnder(cfg, catalogue, raw, n))
  {
    if |raws| > 0 {
      RebuildHasEnvAny(cfg, catalogue, raws[..|raws| - 1], n);
      RebuildStep(cfg, catalogue, raws, n);
    }
  }

  lemma {:induction false} AnyOfExists(raws: seq<LegacyRaw>, p: LegacyRaw -> bool)
    ensures AnyOf(raws, p) <==> exists k :: 0 <= k < |raws| && p(raws[k])
  {
    if |raws| > 0 {
      var prefix := raws[..|raws| - 1];
      AnyOfExists(prefix, p);
      if exists k :: 0 <= k < |prefix| && p(prefix[k]) {
        var k :| 0 <= k < |prefix| && p(prefix[k]);
        assert raws[k] == prefix[k];
      }
      if exists k :: 0 <= k < |raws| && p(raws[k]) {
        var k :| 0 <= k < |raws| && p(raws[k]);
        if k < |prefix| {
          assert prefix[k] == raws[k];
        }
      }
    }
  }

  /** One iteration of the rebuild adds at most the environment of the last instance. */
  lemma RebuildStep(cfg: Config, catalogue: seq<TypeDetails>, raws: seq<LegacyRaw>, n: string)
    requires |raws| > 0
    ensures LegacyHasEnv(Rebuild(cfg, catalogue, raws), n) <==>
              LegacyHasEnv(Rebuild(cfg, catalogue, raws[..|raws| - 1]), n) || FiledUnder(cfg, catalogue, raws[|raws| - 1], n)
  {
    var vm := Normalize(cfg.environmentTagKey, catalogue, raws[|raws| - 1]);
    var acc := Rebuild(cfg, catalogue, raws[..|raws| - 1]);
    if ValidateEnvName(cfg.envNameIgnore, vm.environment) {
      assert LegacyHasEnv(AddInstance(cfg.instanceTypeIgnore, acc, vm), n) <==>
               LegacyHasEnv(acc, n) || (CheckInstanceType(cfg.instanceTypeIgnore, vm.instanceType) && n == vm.environment);
    }
  }

  /** refreshTable of main.go: a failed describe call returns before the cache is cleared. */
  function RefreshTable(cfg: Config, catalogue: seq<TypeDetails>, table: LegacyTable,
                        reply: Result<seq<LegacyRaw>>): (r: Result<LegacyTable>)
    ensures reply.Err? ==> r == Err(reply.error)
    ensures reply.Ok? ==> r.Ok? && |r.value| == |Rebuild(cfg, catalogue, reply.value)|
    ensures reply.Ok? ==> forall i :: 0 <= i < |r.value| ==> r.value[i] == UpdateEnv(Rebuild(cfg, catalogue, reply.value)[i])
  {
    match reply
    case Err(e) => Err(e)
    case Ok(raws) => Ok(UpdateEnvDetails(Rebuild(cfg, catalogue, raws)))
  }

  /** What the server holds after a refresh: the new table, or the old one when the describe call failed. */
  function CacheAfterRefresh(cfg: Config, catalogue: seq<TypeDetails>, table: LegacyTable,
                             reply: Result<seq<LegacyRaw>>): (r: LegacyTable)
    ensures reply.Err? ==> r == table
  {
    match RefreshTable(cfg, catalogue, table, reply)
    case Err(_) => table
    case Ok(t) => t
  }

  /** After a refresh the totals of an environment with every row settled cover all of its rows. */
  lemma RefreshTotalsCoverSettledRows(cfg: Config, catalogue: seq<TypeDetails>, raws: seq<LegacyRaw>, i: int)
    requires 0 <= i < |Rebuild(cfg, catalogue, raws)|
    requires !AnyNonTerminal(Rebuild(cfg, catalogue, raws)[i].instances)
    ensures var env := RefreshTable(cfg, catalogue, [], Ok(raws)).value[i];
            env.totalVCPU == SumVCPU(env.instances) && env.totalMemoryGB == SumMemory(env.instances)
  {
    AllVisitedWhenSettled(Rebuild(cfg, catalogue, raws)[i].instances);
    assert Rebuild(cfg, catalogue, raws)[i].instances[..|Rebuild(cfg, catalogue, raws)[i].instances|]
           == Rebuild(cfg, catalogue, raws)[i].instances;
  }

  // ---------------------------------------------------------------- power

  /** getInstanceIds: the id of every row of every environment with the name, whatever its state. */
  function GetInstanceIds(table: LegacyTable, envName: string): (r: seq<string>)
    ensures forall x :: x in r <==>
              exists i, c :: 0 <= i < |table| && table[i].name == envName
                             && 0 <= c < |table[i].instances| && table[i].instances[c].id == x
    ensures |r| == NamedRowCount(table, envName)
  {
    if |table| == 0 then []
    else
      var prefix, env := table[..|table| - 1], table[|table| - 1];
      assert forall i :: 0 <= i < |prefix| ==> prefix[i] == table[i];
      var ids := seq(|env.instances|, c requires 0 <= c < |env.instances| => env.instances[c].id);
      assert forall c :: 0 <= c < |env.instances| ==> ids[c] == env.instances[c].id;
      GetInstanceIds(prefix, envName) + (if env.name == envName then ids else [])
  }

  /** How many rows the environments named `name` hold together, a repeated id counted each time. */
  function NamedRowCount(table: LegacyTable, name: string): nat
  {
    if |table| == 0 then 0
    else NamedRowCount(table[..|table| - 1], name) + (if table[|table| - 1].name == name then |table[|table| - 1].instances| else 0)
  }

  /** A legacy power operation: its error and the requests it sent to the single region's client. */
  datatype LegacyStep = LegacyStep(outcome: Outcome, calls: seq<Call>)

  /** shutdownEnv of main.go: the ceiling counts every id of the environment. */
  function ShutdownEnv(maxInstancesToShutdown: int, region: string, table: LegacyTable, envName: string,
                       aws: Call -> bool): (r: LegacyStep)
    ensures var ids := GetInstanceIds(table, envName);
            && (|ids| > maxInstancesToShutdown ==> r == LegacyStep(Fail(Safety(|ids|)), []))
            && (|ids| == 0 && maxInstancesToShutdown >= 0 ==> r == LegacyStep(Fail(NoAssociatedInstances), []))
            && (0 < |ids| <= maxInstancesToShutdown ==>
                  && r.calls == [StopInstances(region, ids)]
                  && (r.outcome == Pass <==> aws(StopInstances(region, ids))))
  {
    var ids := GetInstanceIds(table, envName);
    if |ids| > maxInstancesToShutdown then LegacyStep(Fail(Safety(|ids|)), [])
    else if |ids| > 0 then
      var call := StopInstances(region, ids);
      LegacyStep(if aws(call) then Pass else Fail(ProviderFailed), [call])
    else LegacyStep(Fail(NoAssociatedInstances), [])
  }

  /** startupEnv of main.go: no ceiling. */
  function StartupEnv(region: string, table: LegacyTable, envName: string, aws: Call -> bool): (r: LegacyStep)
    ensures var ids := GetInstanceIds(table, envName);
            && (|ids| == 0 ==> r == LegacyStep(Fail(NoAssociatedInstances), []))
            && (|ids| > 0 ==> r.calls == [StartInstances(region, ids)] && (r.outcome == Pass <==> aws(StartInstances(region, ids))))
  {
    var ids := GetInstanceIds(table, envName);
    if |ids| > 0 then
      var call := StartInstances(region, ids);
      LegacyStep(if aws(call) then Pass else Fail(ProviderFailed), [call])
    else LegacyStep(Fail(NoAssociatedInstances), [])
  }

  /** A legacy shutdown never sends a request naming more ids than the ceiling. */
  lemma ShutdownWithinCeiling(maxInstancesToShutdown: int, region: string, table: LegacyTable, envName: string,
                              aws: Call -> bool, k: int)
    requires 0 <= k < |ShutdownEnv(maxInstancesToShutdown, region, table, envName, aws).calls|
    ensures |ShutdownEnv(maxInstancesToShutdown, region, table, envName, aws).calls[k].ids| <= maxInstancesToShutdown
  {
  }

  // ---------------------------------------------------------------- summary

  datatype Summary = Summary(name: string, runningInstances: int, totalInstances: int,
                             totalVCPU: int, totalMemoryGB: real, state: string)

  /** The counting loop of getEnvSummary. */
  function CountRunning(rows: seq<LegacyVM>): (n: nat)
    ensures n <= |rows|
  {
    if |rows| == 0 then 0 else CountRunning(rows[..|rows| - 1]) + (if rows[|rows| - 1].state == "running" then 1 else 0)
  }

  lemma {:induction false} CountRunningAll(rows: seq<LegacyVM>)
    ensures CountRunning(rows) == |rows| <==> forall c :: 0 <= c < |rows| ==> rows[c].state == "running"
  {
    if |rows| > 0 {
      var prefix := rows[..|rows| - 1];
      CountRunningAll(prefix);
      assert forall c :: 0 <= c < |prefix| ==> prefix[c] == rows[c];
    }
  }

  /** getEnvSummary: one summary per environment, in order. */
  function GetEnvSummary(table: LegacyTable): (r: seq<Summary>)
    ensures |r| == |table|
    ensures forall i :: 0 <= i < |table| ==>
              && r[i].name == table[i].name && r[i].state == table[i].state
              && r[i].totalVCPU == table[i].totalVCPU && r[i].totalMemoryGB == table[i].totalMemoryGB
              && r[i].totalInstances == |table[i].instances|
              && r[i].runningInstances == CountRunning(table[i].instances)
  {
    seq(|table|, i requires 0 <= i < |table| =>
          Summary(table[i].name, CountRunning(table[i].instances), |table[i].instances|,
                  table[i].totalVCPU, table[i].totalMemoryGB, table[i].state))
  }

  /**
   * After updateEnvDetails, a summary reports every instance running exactly when
   * the environment's state is running.
   */
  lemma SummaryAgreesWithState(table: LegacyTable, i: int)
    requires 0 <= i < |table|
    ensures var s := GetEnvSummary(UpdateEnvDetails(table))[i];
            (s.runningInstances == s.totalInstances) <==> s.state == EnvRunning
  {
    var rows := table[i].instances;
    CountRunningAll(rows);
    if forall c :: 0 <= c < |rows| ==> rows[c].state == "running" {
      assert !AnyStopped(rows) by {
        assert "running"[0] != "stopped"[0];
      }
    }
  }
}
