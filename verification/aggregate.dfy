/**
 * updateEnvDetails (backend/aws.go): recompute each environment's ids, counts,
 * vCPU and memory totals and composite state from its rows, and attach the
 * billing totals when billing is on.
 */
module Aggregate {
  import opened Wrappers
  import opened Types
  import opened Identity

  // ---------------------------------------------------------------- reference definitions

  /** Number of rows whose state is exactly `state`. */
  function CountState(rows: seq<VM>, state: string): (n: nat)
    ensures n <= |rows|
  {
    if |rows| == 0 then 0
    else CountState(rows[..|rows| - 1], state) + (if rows[|rows| - 1].state == state then 1 else 0)
  }

  function SumVCPU(rows: seq<VM>): int
  {
    if |rows| == 0 then 0 else SumVCPU(rows[..|rows| - 1]) + rows[|rows| - 1].vcpu
  }

  function SumMemory(rows: seq<VM>): real
  {
    if |rows| == 0 then 0.0 else SumMemory(rows[..|rows| - 1]) + rows[|rows| - 1].memoryGB
  }

  /** The state an environment's rows call for, stated row by row. */
  ghost predicate StateAgreesWithRows(state: string, rows: seq<VM>)
  {
    && (state == EnvStateRunning <==> forall i :: 0 <= i < |rows| ==> rows[i].state == "running")
    && (state == EnvStateStopped <==> |rows| > 0 && forall i :: 0 <= i < |rows| ==> rows[i].state == "stopped")
    && (state == EnvStateMixed <==>
          && (forall i :: 0 <= i < |rows| ==> rows[i].state == "running" || rows[i].state == "stopped")
          && (exists i :: 0 <= i < |rows| && rows[i].state == "running")
          && (exists i :: 0 <= i < |rows| && rows[i].state == "stopped"))
    && (state == EnvStateChanging <==>
          exists i :: 0 <= i < |rows| && rows[i].state != "running" && rows[i].state != "stopped")
  }

  /** Every aggregate of `env` is the one its rows call for. */
  ghost predicate Aggregated(env: Environment)
  {
    && env.totalInstances == |env.instances|
    && env.runningInstances == CountState(env.instances, "running")
    && env.stoppedInstances == CountState(env.instances, "stopped")
    && env.totalVCPU == SumVCPU(env.instances)
    && env.totalMemoryGB == SumMemory(env.instances)
    && StateAgreesWithRows(env.state, env.instances)
  }

  // ---------------------------------------------------------------- the computation

  datatype Tally = Tally(running: int, stopped: int, vcpu: int, memory: real)

  /** The counting loop of updateEnvDetails after the first |rows| rows: one pass, four totals. */
  function TallyRows(rows: seq<VM>): (t: Tally)
    ensures t.running == CountState(rows, "running") && t.stopped == CountState(rows, "stopped")
    ensures t.vcpu == SumVCPU(rows) && t.memory == SumMemory(rows)
  {
    if |rows| == 0 then Tally(0, 0, 0, 0.0)
    else
      var acc := TallyRows(rows[..|rows| - 1]);
      var vm := rows[|rows| - 1];
      Tally(if vm.state == "running" then acc.running + 1 else acc.running,
            if vm.state == "stopped" then acc.stopped + 1 else acc.stopped,
            acc.vcpu + vm.vcpu,
            acc.memory + vm.memoryGB)
  }

  /** The switch of updateEnvDetails: running, then stopped, then mixed, else changing. */
  function ClassifyState(total: int, running: int, stopped: int): string
  {
    if total == running then EnvStateRunning
    else if total == stopped then EnvStateStopped
    else if total == running + stopped then EnvStateMixed
    else EnvStateChanging
  }

  /** The row with its application id recomputed from provider, region and instance id. */
  function WithRowId(sha1: Digest, vm: VM): VM
  {
    vm.(id := ComputeID(sha1, [Provider, vm.region, vm.instanceId]))
  }

  function WithRowIds(sha1: Digest, rows: seq<VM>): (r: seq<VM>)
    ensures |r| == |rows| && forall c :: 0 <= c < |rows| ==> r[c] == WithRowId(sha1, rows[c])
  {
    seq(|rows|, c requires 0 <= c < |rows| => WithRowId(sha1, rows[c]))
  }

  /** `after` is `before` with ids recomputed: same name, region and rows, up to the row ids. */
  ghost predicate Relabelled(sha1: Digest, before: Environment, after: Environment)
  {
    && after.provider == Provider
    && after.id == ComputeID(sha1, [Provider, before.region, before.name])
    && after.name == before.name
    && after.region == before.region
    && |after.instances| == |before.instances|
    && forall c :: 0 <= c < |before.instances| ==> after.instances[c] == WithRowId(sha1, before.instances[c])
  }

  /** The bills attached to an environment: looked up by id when billing is on, else kept. */
  function AttachBill(experimental: bool, bills: map<string, real>, id: string, current: Option<real>): Option<real>
  {
    if experimental && id in bills then Some(bills[id]) else current
  }

  /** One iteration of the outer loop of updateEnvDetails. */
  function UpdateEnv(sha1: Digest, env: Environment, experimental: bool,
                     accrued: map<string, real>, saved: map<string, real>): (r: Environment)
    ensures Aggregated(r)
    ensures Relabelled(sha1, env, r)
    ensures r.billsAccrued == AttachBill(experimental, accrued, r.id, env.billsAccrued)
    ensures r.billsSaved == AttachBill(experimental, saved, r.id, env.billsSaved)
  {
    var id := ComputeID(sha1, [Provider, env.region, env.name]);
    var rows := WithRowIds(sha1, env.instances);
    var t := TallyRows(rows);
    ClassifyMatchesRows(rows);
    env.(provider := Provider,
         id := id,
         billsAccrued := AttachBill(experimental, accrued, id, env.billsAccrued),
         billsSaved := AttachBill(experimental, saved, id, env.billsSaved),
         instances := rows,
         totalInstances := |rows|,
         runningInstances := t.running,
         stoppedInstances := t.stopped,
         totalVCPU := t.vcpu,
         totalMemoryGB := t.memory,
         state := ClassifyState(|rows|, t.running, t.stopped))
  }

  /** updateEnvDetails over the whole table. */
  function UpdateEnvDetails(sha1: Digest, table: Table, experimental: bool,
                            accrued: map<string, real>, saved: map<string, real>): (r: Table)
    ensures |r| == |table|
    ensures forall i :: 0 <= i < |table| ==> Aggregated(r[i]) && Relabelled(sha1, table[i], r[i])
    ensures forall i :: 0 <= i < |table| ==>
              && r[i].billsAccrued == AttachBill(experimental, accrued, r[i].id, table[i].billsAccrued)
              && r[i].billsSaved == AttachBill(experimental, saved, r[i].id, table[i].billsSaved)
  {
    seq(|table|, i requires 0 <= i < |table| => UpdateEnv(sha1, table[i], experimental, accrued, saved))
  }

  // ---------------------------------------------------------------- why the precedence is right

  lemma {:induction false} CountAll(rows: seq<VM>, state: string)
    ensures CountState(rows, state) == |rows| <==> forall i :: 0 <= i < |rows| ==> rows[i].state == state
  {
    if |rows| > 0 {
      var prefix := rows[..|rows| - 1];
      CountAll(prefix, state);
      assert forall i :: 0 <= i < |prefix| ==> prefix[i] == rows[i];
    }
  }

  lemma {:induction false} CountSome(rows: seq<VM>, state: string)
    ensures CountState(rows, state) > 0 <==> exists i :: 0 <= i < |rows| && rows[i].state == state
  {
    if |rows| > 0 {
      var prefix := rows[..|rows| - 1];
      CountSome(prefix, state);
      assert forall i :: 0 <= i < |prefix| ==> prefix[i] == rows[i];
      if CountState(rows, state) == 0 {
        assert forall i :: 0 <= i < |prefix| ==> prefix[i].state != state;
      }
    }
  }

  /** Running plus stopped covers every row exactly when no row is in another state. */
  lemma {:induction false} CountBoth(rows: seq<VM>)
    ensures CountState(rows, "running") + CountState(rows, "stopped") == |rows| <==>
            forall i :: 0 <= i < |rows| ==> rows[i].state == "running" || rows[i].state == "stopped"
  {
    if |rows| > 0 {
      var prefix := rows[..|rows| - 1];
      CountBoth(prefix);
      assert forall i :: 0 <= i < |prefix| ==> prefix[i] == rows[i];
      assert CountState(prefix, "running") + CountState(prefix, "stopped") <= |prefix| by {
        CountDisjoint(prefix);
      }
    }
  }

  lemma {:induction false} CountDisjoint(rows: seq<VM>)
    ensures CountState(rows, "running") + CountState(rows, "stopped") <= |rows|
  {
    if |rows| > 0 {
      CountDisjoint(rows[..|rows| - 1]);
    }
  }

  /** The precedence of updateEnvDetails classifies exactly as the rows call for. */
  lemma ClassifyMatchesRows(rows: seq<VM>)
    ensures StateAgreesWithRows(ClassifyState(|rows|, CountState(rows, "running"), CountState(rows, "stopped")), rows)
  {
    CountAll(rows, "running");
    CountAll(rows, "stopped");
    CountSome(rows, "running");
    CountSome(rows, "stopped");
    CountBoth(rows);
    CountDisjoint(rows);
  }
}
