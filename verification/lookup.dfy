/**
 * Read-only queries over the cache that the power controller uses
 * (backend/aws.go): which ids and ASGs of an environment are in a state, which
 * environment an id names, and which AWS name an internal row id stands for.
 */
module Lookup {
  import opened Wrappers
  import opened Types
  import Aggregate

  /** Every row of every environment whose id is `envId`, in table order (the two nested loops). */
  function EnvRows(table: Table, envId: string): seq<VM>
  {
    if |table| == 0 then []
    else
      var env := table[|table| - 1];
      EnvRows(table[..|table| - 1], envId) + (if env.id == envId then env.instances else [])
  }

  ghost predicate InEnv(table: Table, envId: string, vm: VM)
  {
    exists i, c :: 0 <= i < |table| && table[i].id == envId && 0 <= c < |table[i].instances| && table[i].instances[c] == vm
  }

  lemma EnvRowsMembers(table: Table, envId: string)
    ensures forall vm :: vm in EnvRows(table, envId) <==> InEnv(table, envId, vm)
  {
    forall vm ensures vm in EnvRows(table, envId) <==> InEnv(table, envId, vm) {
      EnvRowsMember(table, envId, vm);
    }
  }

  lemma {:induction false} EnvRowsMember(table: Table, envId: string, vm: VM)
    ensures vm in EnvRows(table, envId) <==> InEnv(table, envId, vm)
  {
    if |table| > 0 {
      var prefix, env := table[..|table| - 1], table[|table| - 1];
      EnvRowsMember(prefix, envId, vm);
      assert EnvRows(table, envId) == EnvRows(prefix, envId) + (if env.id == envId then env.instances else []);
      if InEnv(table, envId, vm) {
        var i, c :| 0 <= i < |table| && table[i].id == envId && 0 <= c < |table[i].instances| && table[i].instances[c] == vm;
        if i < |prefix| {
          assert prefix[i] == table[i];
          assert InEnv(prefix, envId, vm);
        }
      }
      if vm in EnvRows(prefix, envId) {
        var i, c :| 0 <= i < |prefix| && prefix[i].id == envId && 0 <= c < |prefix[i].instances| && prefix[i].instances[c] == vm;
        assert table[i] == prefix[i];
      }
      if env.id == envId && vm in env.instances {
        var c :| 0 <= c < |env.instances| && env.instances[c] == vm;
        assert table[|table| - 1].instances[c] == vm;
      }
    }
  }

  /** The instance ids of the plain (non-ASG) rows in `state`. */
  function PlainIds(rows: seq<VM>, state: string): (r: seq<string>)
    ensures |r| <= |rows|
    ensures forall x :: x in r <==> exists c :: 0 <= c < |rows| && !rows[c].isASG && rows[c].state == state && rows[c].instanceId == x
  {
    if |rows| == 0 then []
    else
      var vm := rows[|rows| - 1];
      var p := PlainIds(rows[..|rows| - 1], state);
      assert forall c :: 0 <= c < |rows| - 1 ==> rows[..|rows| - 1][c] == rows[c];
      p + (if !vm.isASG && vm.state == state then [vm.instanceId] else [])
  }

  /** The names of the ASG rows in `state`. */
  function ASGNames(rows: seq<VM>, state: string): (r: seq<string>)
    ensures |r| <= |rows|
    ensures forall x :: x in r <==> exists c :: 0 <= c < |rows| && rows[c].isASG && rows[c].state == state && rows[c].name == x
  {
    if |rows| == 0 then []
    else
      var vm := rows[|rows| - 1];
      var p := ASGNames(rows[..|rows| - 1], state);
      assert forall c :: 0 <= c < |rows| - 1 ==> rows[..|rows| - 1][c] == rows[c];
      p + (if vm.isASG && vm.state == state then [vm.name] else [])
  }

  /** The summed member counts of the ASG rows in `state`. */
  function ASGMembers(rows: seq<VM>, state: string): int
  {
    if |rows| == 0 then 0
    else
      var vm := rows[|rows| - 1];
      ASGMembers(rows[..|rows| - 1], state) + (if vm.isASG && vm.state == state then vm.asgInstanceCount else 0)
  }

  /** getInstanceIDs: the plain instance ids in `state` of every environment whose id is `envId`. */
  function GetInstanceIDs(table: Table, envId: string, state: string): (r: seq<string>)
    ensures forall x :: x in r <==>
              exists vm :: InEnv(table, envId, vm) && !vm.isASG && vm.state == state && vm.instanceId == x
    ensures |r| <= |EnvRows(table, envId)|
  {
    var rows := EnvRows(table, envId);
    EnvRowsMembers(table, envId);
    assert forall vm :: vm in rows <==> exists c :: 0 <= c < |rows| && rows[c] == vm;
    PlainIds(rows, state)
  }

  datatype ASGSelection = ASGSelection(names: seq<string>, memberCount: int)

  /** getASGs: the ASG names in `state` of the environment and their summed member counts. */
  function GetASGs(table: Table, envId: string, state: string): (r: ASGSelection)
    ensures forall x :: x in r.names <==>
              exists vm :: InEnv(table, envId, vm) && vm.isASG && vm.state == state && vm.name == x
    ensures r.memberCount == ASGMembers(EnvRows(table, envId), state)
  {
    var rows := EnvRows(table, envId);
    EnvRowsMembers(table, envId);
    assert forall vm :: vm in rows <==> exists c :: 0 <= c < |rows| && rows[c] == vm;
    ASGSelection(ASGNames(rows, state), ASGMembers(rows, state))
  }

  /** Plain ids and ASG names partition the rows of a state: every such row lands in exactly one of them. */
  lemma {:induction false} PlainAndASGPartition(rows: seq<VM>, state: string)
    ensures |PlainIds(rows, state)| + |ASGNames(rows, state)| == Aggregate.CountState(rows, state)
  {
    if |rows| > 0 {
      PlainAndASGPartition(rows[..|rows| - 1], state);
    }
  }

  /** Member counts are never negative, so their sum is not either. */
  lemma {:induction false} ASGMembersNonNegative(rows: seq<VM>, state: string)
    requires forall c :: 0 <= c < |rows| ==> rows[c].asgInstanceCount >= 0
    ensures ASGMembers(rows, state) >= 0
  {
    if |rows| > 0 {
      ASGMembersNonNegative(rows[..|rows| - 1], state);
    }
  }

  /** getEnvironmentByID: the first environment with the id. */
  function GetEnvironmentByID(table: Table, envId: string): (r: Option<Environment>)
    ensures r.None? <==> forall i :: 0 <= i < |table| ==> table[i].id != envId
    ensures r.Some? ==> exists i :: 0 <= i < |table| && table[i] == r.value && table[i].id == envId
                                    && forall j :: 0 <= j < i ==> table[j].id != envId
  {
    if |table| == 0 then None
    else if table[0].id == envId then Some(table[0])
    else
      var r := GetEnvironmentByID(table[1..], envId);
      assert forall j :: 0 <= j < |table| - 1 ==> table[1..][j] == table[j + 1];
      r
  }

  /** The id the proxy resolves a row to: the group's name for an ASG, the instance id otherwise. */
  function AWSIdOf(vm: VM): string
  {
    if vm.isASG then vm.name else vm.instanceId
  }

  /** The first row of `rows` carrying internal id `id`. */
  function FirstRowWithId(rows: seq<VM>, id: string): (r: Option<VM>)
    ensures r.None? <==> forall c :: 0 <= c < |rows| ==> rows[c].id != id
    ensures r.Some? ==> exists c :: 0 <= c < |rows| && rows[c] == r.value && rows[c].id == id
                                    && forall d :: 0 <= d < c ==> rows[d].id != id
  {
    if |rows| == 0 then None
    else if rows[0].id == id then Some(rows[0])
    else
      var r := FirstRowWithId(rows[1..], id);
      assert forall d :: 0 <= d < |rows| - 1 ==> rows[1..][d] == rows[d + 1];
      r
  }

  ghost predicate HasRowId(table: Table, id: string)
  {
    exists i, c :: 0 <= i < |table| && 0 <= c < |table[i].instances| && table[i].instances[c].id == id
  }

  /**
   * getAWSInstanceID.  Its `break` leaves only the inner loop, so the outer loop
   * goes on: the LAST environment holding a row with the id decides, and within
   * it the first such row.  No matching row gives "".
   */
  function GetAWSInstanceID(table: Table, id: string): (r: string)
    ensures !HasRowId(table, id) ==> r == ""
    ensures HasRowId(table, id) ==>
              exists i, c :: 0 <= i < |table| && 0 <= c < |table[i].instances| && table[i].instances[c].id == id
                             && r == AWSIdOf(table[i].instances[c])
  {
    if |table| == 0 then ""
    else
      var prefix := table[..|table| - 1];
      var env := table[|table| - 1];
      assert forall i :: 0 <= i < |prefix| ==> prefix[i] == table[i];
      match FirstRowWithId(env.instances, id)
      case Some(vm) => AWSIdOf(vm)
      case None =>
        assert HasRowId(table, id) ==> HasRowId(prefix, id);
        GetAWSInstanceID(prefix, id)
  }

  /**
   * The answer comes from the last environment holding a row with the id: that
   * environment's first such row gives it, and no later environment holds one.
   */
  ghost predicate LastHolderDecides(table: Table, id: string, r: string)
  {
    exists i :: 0 <= i < |table| && FirstRowWithId(table[i].instances, id).Some?
                && r == AWSIdOf(FirstRowWithId(table[i].instances, id).value)
                && forall j :: i < j < |table| ==> FirstRowWithId(table[j].instances, id).None?
  }

  /** getAWSInstanceID answers from the last environment that holds a row with the id. */
  lemma {:induction false} LastHolderWins(table: Table, id: string)
    requires HasRowId(table, id)
    ensures LastHolderDecides(table, id, GetAWSInstanceID(table, id))
  {
    var prefix := table[..|table| - 1];
    var last := FirstRowWithId(table[|table| - 1].instances, id);
    GetAWSInstanceIDSnoc(table, id);
    if last.Some? {
      assert LastHolderDecides(table, id, AWSIdOf(last.value)) by {
        assert FirstRowWithId(table[|table| - 1].instances, id).Some?;
      }
    } else {
      HasRowIdPrefix(table, id);
      LastHolderWins(prefix, id);
      LastHolderExtends(table, id, GetAWSInstanceID(prefix, id));
    }
  }

  /** The lookup split into the last environment and the ones before it. */
  lemma GetAWSInstanceIDSnoc(table: Table, id: string)
    requires |table| > 0
    ensures GetAWSInstanceID(table, id)
            == match FirstRowWithId(table[|table| - 1].instances, id)
               case Some(vm) => AWSIdOf(vm)
               case None => GetAWSInstanceID(table[..|table| - 1], id)
  {
  }

  /** With no matching row in the last environment, a matching row lies in the ones before it. */
  lemma HasRowIdPrefix(table: Table, id: string)
    requires HasRowId(table, id) && FirstRowWithId(table[|table| - 1].instances, id).None?
    ensures HasRowId(table[..|table| - 1], id)
  {
    var i, c :| 0 <= i < |table| && 0 <= c < |table[i].instances| && table[i].instances[c].id == id;
    assert table[..|table| - 1][i] == table[i];
  }

  /** An answer decided in the earlier environments stays decided when the last one holds no match. */
  lemma LastHolderExtends(table: Table, id: string, r: string)
    requires |table| > 0 && FirstRowWithId(table[|table| - 1].instances, id).None?
    requires LastHolderDecides(table[..|table| - 1], id, r)
    ensures LastHolderDecides(table, id, r)
  {
    var prefix := table[..|table| - 1];
    var k :| 0 <= k < |prefix| && FirstRowWithId(prefix[k].instances, id).Some?
             && r == AWSIdOf(FirstRowWithId(prefix[k].instances, id).value)
             && forall j :: k < j < |prefix| ==> FirstRowWithId(prefix[j].instances, id).None?;
    assert prefix[k] == table[k];
    forall j | k < j < |table|
      ensures FirstRowWithId(table[j].instances, id).None?
    {
      if j < |prefix| {
        assert prefix[j] == table[j];
      }
    }
  }

  /** When one row alone carries the id, the lookup returns that row's AWS id. */
  lemma {:induction false} UniqueRowId(table: Table, id: string, i: int, c: int)
    requires 0 <= i < |table| && 0 <= c < |table[i].instances| && table[i].instances[c].id == id
    requires forall j, d :: 0 <= j < |table| && 0 <= d < |table[j].instances| && table[j].instances[d].id == id ==> j == i && d == c
    ensures GetAWSInstanceID(table, id) == AWSIdOf(table[i].instances[c])
  {
    var prefix, env := table[..|table| - 1], table[|table| - 1];
    if i == |table| - 1 {
      assert FirstRowWithId(env.instances, id) == Some(env.instances[c]);
    } else {
      assert FirstRowWithId(env.instances, id).None? by {
        assert forall d :: 0 <= d < |env.instances| ==> env.instances[d].id != id;
      }
      assert prefix[i] == table[i];
      UniqueRowId(prefix, id, i, c);
    }
  }

  /** When a later environment repeats an id, that later environment wins. */
  lemma LastEnvironmentWins(table: Table, id: string, vm: VM)
    requires |table| > 0
    requires FirstRowWithId(table[|table| - 1].instances, id) == Some(vm)
    ensures GetAWSInstanceID(table, id) == AWSIdOf(vm)
  {
  }

  /**
   * The region is that of the first row with the id in the first environment
   * holding one; no environment before it holds one.  getInstanceAwsClient
   * returns at its first match.
   */
  ghost predicate FirstHolderRegion(table: Table, id: string, region: string)
  {
    exists i :: 0 <= i < |table| && FirstRowWithId(table[i].instances, id).Some?
                && FirstRowWithId(table[i].instances, id).value.region == region
                && forall j :: 0 <= j < i ==> FirstRowWithId(table[j].instances, id).None?
  }

  /** The same first-match rule for getAwsASGClient, over ASG rows with the name. */
  ghost predicate FirstGroupRegion(table: Table, name: string, region: string)
  {
    exists i :: 0 <= i < |table| && FirstASGNamed(table[i].instances, name).Some?
                && FirstASGNamed(table[i].instances, name).value.region == region
                && forall j :: 0 <= j < i ==> FirstASGNamed(table[j].instances, name).None?
  }

  /** getInstanceAwsClient's lookup: the region of the first row, in table order, with the internal id. */
  function InstanceRegion(table: Table, id: string): (r: Option<string>)
    ensures r.None? <==> !HasRowId(table, id)
    ensures r.Some? ==> exists i, c :: 0 <= i < |table| && 0 <= c < |table[i].instances|
                                       && table[i].instances[c].id == id && table[i].instances[c].region == r.value
    ensures r.Some? ==> FirstHolderRegion(table, id, r.value)
  {
    if |table| == 0 then None
    else
      assert forall i :: 0 <= i < |table| - 1 ==> table[1..][i] == table[i + 1];
      match FirstRowWithId(table[0].instances, id)
      case Some(vm) => Some(vm.region)
      case None => InstanceRegion(table[1..], id)
  }

  /** getAwsASGClient's lookup: the region of the first ASG row with the name. */
  function ASGRegion(table: Table, name: string): (r: Option<string>)
    ensures r.None? <==> forall i, c :: 0 <= i < |table| && 0 <= c < |table[i].instances| ==>
                                          !(table[i].instances[c].isASG && table[i].instances[c].name == name)
    ensures r.Some? ==> exists i, c :: 0 <= i < |table| && 0 <= c < |table[i].instances|
                                       && table[i].instances[c].isASG && table[i].instances[c].name == name
                                       && table[i].instances[c].region == r.value
    ensures r.Some? ==> FirstGroupRegion(table, name, r.value)
  {
    if |table| == 0 then None
    else
      assert forall i :: 0 <= i < |table| - 1 ==> table[1..][i] == table[i + 1];
      match FirstASGNamed(table[0].instances, name)
      case Some(vm) => Some(vm.region)
      case None => ASGRegion(table[1..], name)
  }

  function FirstASGNamed(rows: seq<VM>, name: string): (r: Option<VM>)
    ensures r.None? <==> forall c :: 0 <= c < |rows| ==> !(rows[c].isASG && rows[c].name == name)
    ensures r.Some? ==> exists c :: 0 <= c < |rows| && rows[c] == r.value && rows[c].isASG && rows[c].name == name
                                    && forall d :: 0 <= d < c ==> !(rows[d].isASG && rows[d].name == name)
  {
    if |rows| == 0 then None
    else if rows[0].isASG && rows[0].name == name then Some(rows[0])
    else
      assert forall d :: 0 <= d < |rows| - 1 ==> rows[1..][d] == rows[d + 1];
      FirstASGNamed(rows[1..], name)
  }
}
