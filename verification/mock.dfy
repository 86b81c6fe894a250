/**
 * The mock controller (backend/mock.go, backend/mockdata.go): the same power
 * operations carried out on the cache itself, and the mock refresh that loads
 * the fixture and regroups it.
 *
 * The power operations change row states only; the aggregates of an
 * environment stay as they were until the next refresh runs updateEnvDetails.
 */
module Mock {
  import opened Wrappers
  import opened Types
  import opened Identity
  import opened InstanceDetails
  import opened Filter
  import opened Cache
  import opened Aggregate
  import opened Billing
  import opened Lookup
  import opened ServerState

  // ---------------------------------------------------------------- positions

  /** The index of the first environment with the id. */
  function FirstEnvIndex(table: Table, envId: string): (r: Option<nat>)
    ensures r.None? <==> forall i :: 0 <= i < |table| ==> table[i].id != envId
    ensures r.Some? ==> r.value < |table| && table[r.value].id == envId
                        && forall j :: 0 <= j < r.value ==> table[j].id != envId
  {
    if |table| == 0 then None
    else
      var p := FirstEnvIndex(table[..|table| - 1], envId);
      assert forall i :: 0 <= i < |table| - 1 ==> table[..|table| - 1][i] == table[i];
      if p.Some? then p
      else if table[|table| - 1].id == envId then Some(|table| - 1)
      else None
  }

  /** The index of the first row with the internal id. */
  function FirstRowIndex(rows: seq<VM>, id: string): (r: Option<nat>)
    ensures r.None? <==> forall c :: 0 <= c < |rows| ==> rows[c].id != id
    ensures r.Some? ==> r.value < |rows| && rows[r.value].id == id
                        && forall d :: 0 <= d < r.value ==> rows[d].id != id
  {
    if |rows| == 0 then None
    else
      var p := FirstRowIndex(rows[..|rows| - 1], id);
      assert forall c :: 0 <= c < |rows| - 1 ==> rows[..|rows| - 1][c] == rows[c];
      if p.Some? then p
      else if rows[|rows| - 1].id == id then Some(|rows| - 1)
      else None
  }

  // ---------------------------------------------------------------- environment power

  function WithState(rows: seq<VM>, state: string): (r: seq<VM>)
    ensures |r| == |rows| && forall c :: 0 <= c < |rows| ==> r[c] == rows[c].(state := state)
  {
    seq(|rows|, c requires 0 <= c < |rows| => rows[c].(state := state))
  }

  /**
   * The loop of mockShutdownEnv/mockStartupEnv: its `break` leaves the outer
   * loop, so only the first environment with the id is touched, and every row
   * of it (ASG rows included, whatever their state) takes `state`.
   */
  function PowerFirstEnv(table: Table, envId: string, state: string): (r: Table)
    ensures |r| == |table|
    ensures forall i :: 0 <= i < |table| ==> r[i] == table[i].(instances := r[i].instances)
    ensures forall i :: 0 <= i < |table| && FirstEnvIndex(table, envId) != Some(i) ==> r[i] == table[i]
    ensures FirstEnvIndex(table, envId).Some? ==>
              var e := FirstEnvIndex(table, envId).value;
              && |r[e].instances| == |table[e].instances|
              && forall c :: 0 <= c < |table[e].instances| ==> r[e].instances[c] == table[e].instances[c].(state := state)
  {
    match FirstEnvIndex(table, envId)
    case None => table
    case Some(e) => table[e := table[e].(instances := WithState(table[e].instances, state))]
  }

  /** The plain ids of the environment that are in `state`, as a membership test. */
  ghost predicate PlainIdIn(table: Table, envId: string, state: string, x: string)
  {
    exists vm :: InEnv(table, envId, vm) && !vm.isASG && vm.state == state && vm.instanceId == x
  }

  /** mockShutdownEnv: its ceiling counts the running plain ids only, not ASG members. */
  function MockShutdownEnv(cfg: Config, s: State, envId: string): (r: Step)
    ensures r.calls == [] && r.after.ledger == s.ledger
    ensures var n := |GetInstanceIDs(s.table, envId, "running")|;
            && (n > cfg.maxInstancesToShutdown ==> r.outcome == Fail(Safety(n)))
            && (n == 0 && cfg.maxInstancesToShutdown >= 0 ==> r.outcome == Fail(NoAssociatedInstances))
            && (r.outcome == Pass <==> 0 < n <= cfg.maxInstancesToShutdown)
    ensures r.outcome.Fail? ==> r.after == s
    ensures r.outcome == Pass ==> r.after.table == PowerFirstEnv(s.table, envId, "stopped")
    ensures r.outcome == Pass ==>
              forall x :: x in r.after.toggled <==>
                            x in s.toggled || (cfg.experimentalEnabled && PlainIdIn(s.table, envId, "running", x))
  {
    var ids := GetInstanceIDs(s.table, envId, "running");
    if |ids| > cfg.maxInstancesToShutdown then Step(Fail(Safety(|ids|)), [], s)
    else if |ids| > 0 then
      Step(Pass, [], s.(table := PowerFirstEnv(s.table, envId, "stopped"),
                        toggled := if cfg.experimentalEnabled then PutToggledOff(s.toggled, ids) else s.toggled))
    else Step(Fail(NoAssociatedInstances), [], s)
  }

  /** mockStartupEnv: no ceiling. */
  function MockStartupEnv(cfg: Config, s: State, envId: string): (r: Step)
    ensures r.calls == [] && r.after.ledger == s.ledger
    ensures r.outcome == Pass <==> |GetInstanceIDs(s.table, envId, "stopped")| > 0
    ensures r.outcome.Fail? ==> r == Step(Fail(NoAssociatedInstances), [], s)
    ensures r.outcome == Pass ==> r.after.table == PowerFirstEnv(s.table, envId, "running")
    ensures r.outcome == Pass ==>
              forall x :: x in r.after.toggled <==>
                            x in s.toggled && !(cfg.experimentalEnabled && PlainIdIn(s.table, envId, "stopped", x))
  {
    var ids := GetInstanceIDs(s.table, envId, "stopped");
    if |ids| > 0 then
      Step(Pass, [], s.(table := PowerFirstEnv(s.table, envId, "running"),
                        toggled := if cfg.experimentalEnabled then DeleteToggledOff(s.toggled, ids) else s.toggled))
    else Step(Fail(NoAssociatedInstances), [], s)
  }

  /** An environment whose id no other environment shares. */
  ghost predicate OnlyEnvWithId(table: Table, e: int)
  {
    0 <= e < |table| && forall j :: 0 <= j < |table| && j != e ==> table[j].id != table[e].id
  }

  /** A plain row of the environment in `state` is listed by getInstanceIDs. */
  lemma PlainRowListed(table: Table, e: int, c: int, state: string)
    requires 0 <= e < |table| && 0 <= c < |table[e].instances|
    requires !table[e].instances[c].isASG && table[e].instances[c].state == state
    ensures table[e].instances[c].instanceId in GetInstanceIDs(table, table[e].id, state)
    ensures PlainIdIn(table, table[e].id, state, table[e].instances[c].instanceId)
  {
    assert InEnv(table, table[e].id, table[e].instances[c]);
  }

  /** A successful mock shutdown of an environment with its own id found a running plain row in it. */
  lemma ShutdownFoundRow(cfg: Config, s: State, e: int) returns (c: int)
    requires OnlyEnvWithId(s.table, e)
    requires MockShutdownEnv(cfg, s, s.table[e].id).outcome == Pass
    ensures 0 <= c < |s.table[e].instances| && !s.table[e].instances[c].isASG
    ensures s.table[e].instances[c].state == "running"
  {
    var envId := s.table[e].id;
    var ids := GetInstanceIDs(s.table, envId, "running");
    assert ids[0] in ids;
    var vm :| InEnv(s.table, envId, vm) && !vm.isASG && vm.state == "running" && vm.instanceId == ids[0];
    var i, d :| 0 <= i < |s.table| && s.table[i].id == envId && 0 <= d < |s.table[i].instances| && s.table[i].instances[d] == vm;
    assert i == e;
    c := d;
  }

  /**
   * Shutdown then startup of an environment with its own id: both succeed, every
   * row of it ends up running, and with billing on none of its plain ids stays
   * in the toggled-off set.
   */
  lemma MockShutdownThenStartup(cfg: Config, s: State, e: int)
    requires OnlyEnvWithId(s.table, e)
    requires MockShutdownEnv(cfg, s, s.table[e].id).outcome == Pass
    ensures var mid := MockShutdownEnv(cfg, s, s.table[e].id).after;
            var fin := MockStartupEnv(cfg, mid, s.table[e].id);
            && fin.outcome == Pass
            && |fin.after.table| == |s.table|
            && (forall c :: 0 <= c < |s.table[e].instances| ==>
                              fin.after.table[e].instances[c] == s.table[e].instances[c].(state := "running"))
            && (forall j :: 0 <= j < |s.table| && j != e ==> fin.after.table[j] == s.table[j])
            && (cfg.experimentalEnabled ==>
                  forall c :: 0 <= c < |s.table[e].instances| && !s.table[e].instances[c].isASG ==>
                                s.table[e].instances[c].instanceId !in fin.after.toggled)
  {
    var mid := ShutdownAfter(cfg, s, e);
    assert MockStartupEnv(cfg, mid, s.table[e].id).after.table == PowerFirstEnv(mid.table, s.table[e].id, "running");
    PowerKeepsOnlyEnv(mid.table, e, "running");
    if cfg.experimentalEnabled {
      StartupUnmarksPlainRows(cfg, mid, e);
    }
  }

  /** The state after a successful mock shutdown of an environment with its own id, and what holds of it. */
  lemma ShutdownAfter(cfg: Config, s: State, e: int) returns (mid: State)
    requires OnlyEnvWithId(s.table, e)
    requires MockShutdownEnv(cfg, s, s.table[e].id).outcome == Pass
    ensures mid == MockShutdownEnv(cfg, s, s.table[e].id).after
    ensures OnlyEnvWithId(mid.table, e) && mid.table[e].id == s.table[e].id && |mid.table| == |s.table|
    ensures |mid.table[e].instances| == |s.table[e].instances|
    ensures forall c :: 0 <= c < |s.table[e].instances| ==> mid.table[e].instances[c] == s.table[e].instances[c].(state := "stopped")
    ensures forall j :: 0 <= j < |s.table| && j != e ==> mid.table[j] == s.table[j]
    ensures MockStartupEnv(cfg, mid, s.table[e].id).outcome == Pass
  {
    mid := MockShutdownEnv(cfg, s, s.table[e].id).after;
    PowerKeepsOnlyEnv(s.table, e, "stopped");
    var c := ShutdownFoundRow(cfg, s, e);
    PlainRowListed(mid.table, e, c, "stopped");
  }

  /** Powering an environment with its own id changes its rows' state only, and keeps its id its own. */
  lemma PowerKeepsOnlyEnv(table: Table, e: int, state: string)
    requires OnlyEnvWithId(table, e)
    ensures var r := PowerFirstEnv(table, table[e].id, state);
            && OnlyEnvWithId(r, e) && r[e].id == table[e].id
            && |r[e].instances| == |table[e].instances|
            && (forall c :: 0 <= c < |table[e].instances| ==> r[e].instances[c] == table[e].instances[c].(state := state))
            && (forall j :: 0 <= j < |table| && j != e ==> r[j] == table[j])
  {
    assert FirstEnvIndex(table, table[e].id) == Some(e);
  }

  /** A successful startup of an environment with its own id unmarks every plain row of it (billing on). */
  lemma StartupUnmarksPlainRows(cfg: Config, s: State, e: int)
    requires cfg.experimentalEnabled && OnlyEnvWithId(s.table, e)
    requires forall c :: 0 <= c < |s.table[e].instances| ==> s.table[e].instances[c].state == "stopped"
    requires MockStartupEnv(cfg, s, s.table[e].id).outcome == Pass
    ensures forall c :: 0 <= c < |s.table[e].instances| && !s.table[e].instances[c].isASG ==>
              s.table[e].instances[c].instanceId !in MockStartupEnv(cfg, s, s.table[e].id).after.toggled
  {
    forall c | 0 <= c < |s.table[e].instances| && !s.table[e].instances[c].isASG
      ensures s.table[e].instances[c].instanceId !in MockStartupEnv(cfg, s, s.table[e].id).after.toggled
    {
      PlainRowListed(s.table, e, c, "stopped");
    }
  }

  // ---------------------------------------------------------------- one instance

  /** The first row with the id takes `state`; every other row is kept. */
  function SetRowState(rows: seq<VM>, id: string, state: string): (r: seq<VM>)
    ensures |r| == |rows|
    ensures forall c :: 0 <= c < |rows| ==>
              r[c] == if FirstRowIndex(rows, id) == Some(c) then rows[c].(state := state) else rows[c]
  {
    match FirstRowIndex(rows, id)
    case None => rows
    case Some(c) => rows[c := rows[c].(state := state)]
  }

  /**
   * The nested loop of mockToggleInstance: its `break` leaves the inner loop
   * only, so the first matching row of EVERY environment changes.
   */
  function ToggleFirstRows(table: Table, id: string, state: string): (r: Table)
    ensures |r| == |table|
    ensures forall i :: 0 <= i < |table| ==> r[i] == table[i].(instances := SetRowState(table[i].instances, id, state))
  {
    seq(|table|, i requires 0 <= i < |table| => table[i].(instances := SetRowState(table[i].instances, id, state)))
  }

  /** The row of environment `i` that mockToggleInstance changes has instance id `x`. */
  ghost predicate Touched(table: Table, id: string, x: string)
  {
    exists i, c :: 0 <= i < |table| && FirstRowIndex(table[i].instances, id) == Some(c)
                   && c < |table[i].instances| && table[i].instances[c].instanceId == x
  }

  /** The instance ids of the rows mockToggleInstance changes, environment by environment. */
  function TouchedIds(table: Table, id: string): (r: seq<string>)
    ensures forall x :: x in r <==> Touched(table, id, x)
  {
    if |table| == 0 then []
    else
      var prefix, env := table[..|table| - 1], table[|table| - 1];
      assert forall i :: 0 <= i < |prefix| ==> prefix[i] == table[i];
      TouchedIds(prefix, id) +
        match FirstRowIndex(env.instances, id)
        case None => []
        case Some(c) => [env.instances[c].instanceId]
  }

  /** mockToggleInstance. */
  function MockToggleInstance(cfg: Config, s: State, id: string, desiredState: string): (r: Step)
    ensures r.calls == [] && r.after.ledger == s.ledger
    ensures desiredState != "start" && desiredState != "stop" ==> r == Step(Fail(InvalidDesiredState), [], s)
    ensures (desiredState == "start" || desiredState == "stop") && !HasRowId(s.table, id) ==>
              r == Step(Fail(NoMapping), [], s)
    ensures (desiredState == "start" || desiredState == "stop") ==>
              (r.outcome == Pass <==> GetAWSInstanceID(s.table, id) != "")
    ensures r.outcome.Fail? ==> r.after == s
    ensures r.outcome == Pass ==>
              r.after.table == ToggleFirstRows(s.table, id, if desiredState == "start" then "running" else "stopped")
    ensures r.outcome == Pass && desiredState == "start" ==>
              forall x :: x in r.after.toggled <==> x in s.toggled && !(cfg.experimentalEnabled && Touched(s.table, id, x))
    ensures r.outcome == Pass && desiredState == "stop" ==>
              forall x :: x in r.after.toggled <==> x in s.toggled || (cfg.experimentalEnabled && Touched(s.table, id, x))
  {
    if desiredState != "start" && desiredState != "stop" then Step(Fail(InvalidDesiredState), [], s)
    else if GetAWSInstanceID(s.table, id) == "" then Step(Fail(NoMapping), [], s)
    else
      var start := desiredState == "start";
      var touched := TouchedIds(s.table, id);
      Step(Pass, [], s.(table := ToggleFirstRows(s.table, id, if start then "running" else "stopped"),
                        toggled := if !cfg.experimentalEnabled then s.toggled
                                   else if start then DeleteToggledOff(s.toggled, touched)
                                   else PutToggledOff(s.toggled, touched)))
  }

  /** Exactly one row, at (i, c), carries the internal id. */
  ghost predicate OnlyRowWithId(table: Table, id: string, i: int, c: int)
  {
    && 0 <= i < |table| && 0 <= c < |table[i].instances| && table[i].instances[c].id == id
    && forall j, d :: 0 <= j < |table| && 0 <= d < |table[j].instances| && table[j].instances[d].id == id ==> j == i && d == c
  }

  /**
   * With internal ids unique, toggling one instance changes that row's state and
   * nothing else, and moves its instance id in or out of the toggled-off set.
   */
  lemma MockToggleUnique(cfg: Config, s: State, id: string, desiredState: string, i: int, c: int)
    requires desiredState == "start" || desiredState == "stop"
    requires OnlyRowWithId(s.table, id, i, c)
    requires AWSIdOf(s.table[i].instances[c]) != ""
    ensures var r := MockToggleInstance(cfg, s, id, desiredState);
            var vm := s.table[i].instances[c];
            && r.outcome == Pass
            && r.after.table == s.table[i := s.table[i].(instances := s.table[i].instances[c := vm.(state := if desiredState == "start" then "running" else "stopped")])]
            && (cfg.experimentalEnabled && desiredState == "start" ==>
                  forall x :: x in r.after.toggled <==> x in s.toggled && x != vm.instanceId)
            && (cfg.experimentalEnabled && desiredState == "stop" ==>
                  forall x :: x in r.after.toggled <==> x in s.toggled || x == vm.instanceId)
  {
    UniqueRowId(s.table, id, i, c);
    UniqueFirstRows(s.table, id, i, c, if desiredState == "start" then "running" else "stopped");
    UniqueTouched(s.table, id, i, c);
  }

  /** With the id on one row only, the first-match pass changes that row alone. */
  lemma UniqueFirstRows(table: Table, id: string, i: int, c: int, state: string)
    requires OnlyRowWithId(table, id, i, c)
    ensures ToggleFirstRows(table, id, state)
            == table[i := table[i].(instances := table[i].instances[c := table[i].instances[c].(state := state)])]
  {
    assert FirstRowIndex(table[i].instances, id) == Some(c);
    forall j | 0 <= j < |table| && j != i
      ensures FirstRowIndex(table[j].instances, id).None?
    {
    }
  }

  /** With the id on one row only, that row's instance id is the only one the pass touches. */
  lemma UniqueTouched(table: Table, id: string, i: int, c: int)
    requires OnlyRowWithId(table, id, i, c)
    ensures forall x :: Touched(table, id, x) <==> x == table[i].instances[c].instanceId
  {
    assert FirstRowIndex(table[i].instances, id) == Some(c);
    forall x ensures Touched(table, id, x) <==> x == table[i].instances[c].instanceId {
      if Touched(table, id, x) {
        var j, d :| 0 <= j < |table| && FirstRowIndex(table[j].instances, id) == Some(d)
                    && d < |table[j].instances| && table[j].instances[d].instanceId == x;
        assert j == i;
      }
    }
  }

  // ---------------------------------------------------------------- refresh

  /** Where the rebuild looks up prices: the row's own region (mockdata.go) or one fixed region (mock.go). */
  datatype PricingRegion = RowRegion | FixedRegion(region: string)

  function PricingRegionOf(pr: PricingRegion, vm: VM): string
  {
    match pr
    case RowRegion => vm.region
    case FixedRegion(region) => region
  }

  /** Every row of every environment, in table order. */
  function Flatten(table: Table): seq<VM>
  {
    if |table| == 0 then [] else Flatten(table[..|table| - 1]) + table[|table| - 1].instances
  }

  function EnrichRows(rows: seq<VM>, catalogue: seq<TypeDetails>, pr: PricingRegion): (r: seq<VM>)
    ensures |r| == |rows|
    ensures forall c :: 0 <= c < |rows| ==> r[c] == EnrichInstance(rows[c], catalogue, PricingRegionOf(pr, rows[c]))
  {
    seq(|rows|, c requires 0 <= c < |rows| => EnrichInstance(rows[c], catalogue, PricingRegionOf(pr, rows[c])))
  }

  /** The rows whose environment name validateEnvName accepts, in order. */
  function KeepValidNames(ignore: seq<string>, rows: seq<VM>): (r: seq<VM>)
    ensures forall vm :: vm in r <==> vm in rows && ValidateEnvName(ignore, vm.environment)
  {
    if |rows| == 0 then []
    else
      var prefix, vm := rows[..|rows| - 1], rows[|rows| - 1];
      assert rows == prefix + [vm];
      KeepValidNames(ignore, prefix) + (if ValidateEnvName(ignore, vm.environment) then [vm] else [])
  }

  /** The rows the rebuild loop hands to addInstance. */
  function RebuildInput(cfg: Config, catalogue: seq<TypeDetails>, pr: PricingRegion, table: Table): seq<VM>
  {
    KeepValidNames(cfg.envNameIgnore, EnrichRows(Flatten(table), catalogue, pr))
  }

  /** The rebuild loop of mockRefreshTable: enrich every row, drop invalid names, regroup the rest. */
  function Rebuild(cfg: Config, catalogue: seq<TypeDetails>, pr: PricingRegion, table: Table): (r: Table)
    ensures Grouped(r)
  {
    Build(cfg, [], RebuildInput(cfg, catalogue, pr, table))
  }

  /** Every row of the rebuilt table is an enriched row with a valid name that addInstance admits. */
  lemma RebuildKeepsOnlyValid(cfg: Config, catalogue: seq<TypeDetails>, pr: PricingRegion, table: Table, i: int, c: int)
    requires 0 <= i < |Rebuild(cfg, catalogue, pr, table)|
    requires 0 <= c < |Rebuild(cfg, catalogue, pr, table)[i].instances|
    ensures var vm := Rebuild(cfg, catalogue, pr, table)[i].instances[c];
            && vm in EnrichRows(Flatten(table), catalogue, pr)
            && ValidateEnvName(cfg.envNameIgnore, vm.environment)
            && Admits(cfg, vm)
  {
    var input := RebuildInput(cfg, catalogue, pr, table);
    var r := Rebuild(cfg, catalogue, pr, table);
    GroupingFromEmpty(cfg, input, i);
    var vm := r[i].instances[c];
    assert vm in Select(AdmittedRows(cfg, input), r[i].name);
    SelectMembers(AdmittedRows(cfg, input), r[i].name);
    AdmittedMembers(cfg, input);
  }

  /** Every enriched row with a valid name that addInstance admits lands in the environment of its name. */
  lemma RebuildLosesNothing(cfg: Config, catalogue: seq<TypeDetails>, pr: PricingRegion, table: Table, vm: VM)
    requires vm in EnrichRows(Flatten(table), catalogue, pr)
    requires ValidateEnvName(cfg.envNameIgnore, vm.environment) && Admits(cfg, vm)
    ensures exists i :: 0 <= i < |Rebuild(cfg, catalogue, pr, table)|
                        && Rebuild(cfg, catalogue, pr, table)[i].name == vm.environment
                        && vm in Rebuild(cfg, catalogue, pr, table)[i].instances
  {
    var input := RebuildInput(cfg, catalogue, pr, table);
    var r := Rebuild(cfg, catalogue, pr, table);
    AdmittedMembers(cfg, input);
    SelectMembers(AdmittedRows(cfg, input), vm.environment);
    BuildHasEnv(cfg, [], input, vm.environment);
    var i :| 0 <= i < |r| && r[i].name == vm.environment;
    GroupingFromEmpty(cfg, input, i);
  }

  /** The table mockRefreshTable works on: the fixture when the cache is empty, the cache otherwise. */
  function Loaded(table: Table, fixture: Table): Table
  {
    if |table| == 0 then fixture else table
  }

  /**
   * mockRefreshTable of backend/mockdata.go: a failed mock delay returns first;
   * billing and the rebuild run only with experimental features on; the
   * aggregation always runs last.
   */
  function MockRefreshTable(cfg: Config, sha1: Digest, catalogue: seq<TypeDetails>, s: State,
                            delayOk: bool, fixture: Table, now: int): (r: Step)
    ensures r.calls == [] && r.after.toggled == s.toggled
    ensures !delayOk ==> r == Step(Fail(MockDelayFailed), [], s)
    ensures delayOk ==> r.outcome == Pass
    ensures delayOk ==> forall i :: 0 <= i < |r.after.table| ==> Aggregated(r.after.table[i])
    ensures delayOk && !cfg.experimentalEnabled ==>
              && r.after.ledger == s.ledger
              && |r.after.table| == |Loaded(s.table, fixture)|
              && forall i :: 0 <= i < |r.after.table| ==> Relabelled(sha1, Loaded(s.table, fixture)[i], r.after.table[i])
    ensures delayOk && cfg.experimentalEnabled ==>
              && r.after.ledger == CalculateEnvBills(s.ledger, Loaded(s.table, fixture), s.toggled, now)
              && Grouped(r.after.table)
    ensures delayOk && cfg.experimentalEnabled ==>
              && |r.after.table| == |Rebuild(cfg, catalogue, RowRegion, Loaded(s.table, fixture))|
              && forall i :: 0 <= i < |r.after.table| ==>
                   Relabelled(sha1, Rebuild(cfg, catalogue, RowRegion, Loaded(s.table, fixture))[i], r.after.table[i])
    ensures delayOk && cfg.experimentalEnabled ==>
              forall i :: 0 <= i < |r.after.table| ==>
                && r.after.table[i].billsAccrued == AttachBill(true, r.after.ledger.accrued, r.after.table[i].id, None)
                && r.after.table[i].billsSaved == AttachBill(true, r.after.ledger.saved, r.after.table[i].id, None)
    ensures delayOk && !cfg.experimentalEnabled ==>
              forall i :: 0 <= i < |r.after.table| ==>
                && r.after.table[i].billsAccrued == Loaded(s.table, fixture)[i].billsAccrued
                && r.after.table[i].billsSaved == Loaded(s.table, fixture)[i].billsSaved
  {
    if !delayOk then Step(Fail(MockDelayFailed), [], s)
    else
      var loaded := Loaded(s.table, fixture);
      var ledger := if cfg.experimentalEnabled then CalculateEnvBills(s.ledger, loaded, s.toggled, now) else s.ledger;
      var rebuilt := if cfg.experimentalEnabled then Rebuild(cfg, catalogue, RowRegion, loaded) else loaded;
      BuildUnbilled(cfg, [], RebuildInput(cfg, catalogue, RowRegion, loaded));
      var t := UpdateEnvDetails(sha1, rebuilt, cfg.experimentalEnabled, ledger.accrued, ledger.saved);
      RelabelKeepsGrouped(sha1, rebuilt, t);
      Step(Pass, [], State(t, ledger, s.toggled))
  }

  /**
   * mockRefreshTable of backend/mock.go: the fixture is loaded when the cache is
   * empty, billing runs with experimental features on, and the rebuild always
   * runs, pricing every row in ca-central-1.
   */
  function MockRefreshTableFile(cfg: Config, sha1: Digest, catalogue: seq<TypeDetails>, s: State,
                                fixture: Table, now: int): (r: Step)
    ensures r.outcome == Pass && r.calls == [] && r.after.toggled == s.toggled
    ensures Grouped(r.after.table)
    ensures forall i :: 0 <= i < |r.after.table| ==> Aggregated(r.after.table[i])
    ensures r.after.ledger == if cfg.experimentalEnabled
                              then CalculateEnvBills(s.ledger, Loaded(s.table, fixture), s.toggled, now) else s.ledger
    ensures |r.after.table| == |Rebuild(cfg, catalogue, FixedRegion("ca-central-1"), Loaded(s.table, fixture))|
    ensures forall i :: 0 <= i < |r.after.table| ==>
              Relabelled(sha1, Rebuild(cfg, catalogue, FixedRegion("ca-central-1"), Loaded(s.table, fixture))[i], r.after.table[i])
    ensures forall i :: 0 <= i < |r.after.table| ==>
              && r.after.table[i].billsAccrued == AttachBill(cfg.experimentalEnabled, r.after.ledger.accrued, r.after.table[i].id, None)
              && r.after.table[i].billsSaved == AttachBill(cfg.experimentalEnabled, r.after.ledger.saved, r.after.table[i].id, None)
  {
    var loaded := Loaded(s.table, fixture);
    var ledger := if cfg.experimentalEnabled then CalculateEnvBills(s.ledger, loaded, s.toggled, now) else s.ledger;
    var rebuilt := Rebuild(cfg, catalogue, FixedRegion("ca-central-1"), loaded);
    BuildUnbilled(cfg, [], RebuildInput(cfg, catalogue, FixedRegion("ca-central-1"), loaded));
    var t := UpdateEnvDetails(sha1, rebuilt, cfg.experimentalEnabled, ledger.accrued, ledger.saved);
    RelabelKeepsGrouped(sha1, rebuilt, t);
    Step(Pass, [], State(t, ledger, s.toggled))
  }
}
