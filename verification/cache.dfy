/**
 * The cache reconciler's grouping step: addInstance (backend/aws.go) files each
 * admitted row under the environment whose name equals the row's environment
 * tag, creating the environment (with the row's region) when none exists.
 */
module Cache {
  import opened Wrappers
  import opened Types
  import opened Filter
  import Aggregate
  import Identity

  predicate NamesUnique(table: Table)
  {
    forall i, j :: 0 <= i < j < |table| ==> table[i].name != table[j].name
  }

  predicate HasEnv(table: Table, name: string)
  {
    exists i :: 0 <= i < |table| && table[i].name == name
  }

  /** Every row filed under environment name `n`, across every environment of that name, in table order. */
  function RowsNamed(table: Table, n: string): seq<VM>
  {
    if |table| == 0 then []
    else RowsNamed(table[..|table| - 1], n) + (if table[|table| - 1].name == n then table[|table| - 1].instances else [])
  }

  /** The rows of `xs` whose environment tag is `n`, in order. */
  function Select(xs: seq<VM>, n: string): seq<VM>
  {
    if |xs| == 0 then []
    else Select(xs[..|xs| - 1], n) + (if xs[|xs| - 1].environment == n then [xs[|xs| - 1]] else [])
  }

  /** The rows of `xs` that the filter of addInstance keeps, in order. */
  function AdmittedRows(cfg: Config, xs: seq<VM>): seq<VM>
  {
    if |xs| == 0 then []
    else AdmittedRows(cfg, xs[..|xs| - 1]) + (if Admits(cfg, xs[|xs| - 1]) then [xs[|xs| - 1]] else [])
  }

  /**
   * The shape addInstance builds: one environment per name, none empty, every
   * row under the environment its tag names, each environment in the region of
   * its first row.
   */
  ghost predicate Grouped(table: Table)
  {
    && NamesUnique(table)
    && forall i :: 0 <= i < |table| ==>
         && |table[i].instances| > 0
         && table[i].region == table[i].instances[0].region
         && forall c :: 0 <= c < |table[i].instances| ==> table[i].instances[c].environment == table[i].name
  }

  /** The loop of addInstance: append the row to every environment carrying its name. */
  function AppendToNamed(table: Table, vm: VM): (r: Table)
    ensures |r| == |table|
  {
    if |table| == 0 then []
    else
      var last := table[|table| - 1];
      AppendToNamed(table[..|table| - 1], vm)
        + [if last.name == vm.environment then last.(instances := last.instances + [vm]) else last]
  }

  lemma {:induction false} AppendToNamedAt(table: Table, vm: VM)
    ensures forall i :: 0 <= i < |table| ==>
              AppendToNamed(table, vm)[i] == if table[i].name == vm.environment
                                            then table[i].(instances := table[i].instances + [vm]) else table[i]
  {
    if |table| > 0 {
      var prefix := table[..|table| - 1];
      AppendToNamedAt(prefix, vm);
      assert forall i :: 0 <= i < |prefix| ==> prefix[i] == table[i];
    }
  }

  /** No environment of the table carries a bill yet, as addInstance creates them. */
  ghost predicate Unbilled(table: Table)
  {
    forall i :: 0 <= i < |table| ==> table[i].billsAccrued.None? && table[i].billsSaved.None?
  }

  /** addInstance */
  function AddInstance(cfg: Config, table: Table, vm: VM): (r: Table)
    ensures !Admits(cfg, vm) ==> r == table
    ensures Admits(cfg, vm) && !HasEnv(table, vm.environment) ==> r == table + [NewEnvironment(vm)]
    ensures NamesUnique(table) ==> NamesUnique(r)
    ensures Grouped(table) ==> Grouped(r)
    ensures forall n :: HasEnv(r, n) <==> HasEnv(table, n) || (Admits(cfg, vm) && n == vm.environment)
    ensures NamesUnique(table) ==>
              forall n :: RowsNamed(r, n) == RowsNamed(table, n) + (if Admits(cfg, vm) && vm.environment == n then [vm] else [])
  {
    if !Admits(cfg, vm) then table
    else if HasEnv(table, vm.environment) then
      AppendKeepsShape(table, vm);
      AppendToNamed(table, vm)
    else
      AddNewKeepsShape(table, vm);
      table + [NewEnvironment(vm)]
  }

  lemma RowsNamedSnoc(table: Table, e: Environment, n: string)
    ensures RowsNamed(table + [e], n) == RowsNamed(table, n) + (if e.name == n then e.instances else [])
  {
    assert (table + [e])[..|table|] == table;
  }

  lemma HasEnvSnoc(table: Table, e: Environment, n: string)
    ensures HasEnv(table + [e], n) <==> HasEnv(table, n) || e.name == n
  {
    if HasEnv(table + [e], n) && e.name != n {
      var i :| 0 <= i < |table| + 1 && (table + [e])[i].name == n;
      assert table[i].name == n;
    }
    if HasEnv(table, n) {
      var i :| 0 <= i < |table| && table[i].name == n;
      assert (table + [e])[i].name == n;
    }
    if e.name == n {
      assert (table + [e])[|table|].name == n;
    }
  }

  /** Appending to the existing environment keeps names, shape, and adds the row once. */
  lemma AppendKeepsShape(table: Table, vm: VM)
    requires HasEnv(table, vm.environment)
    ensures NamesUnique(table) ==> NamesUnique(AppendToNamed(table, vm))
    ensures Grouped(table) ==> Grouped(AppendToNamed(table, vm))
    ensures forall n :: HasEnv(AppendToNamed(table, vm), n) <==> HasEnv(table, n)
    ensures NamesUnique(table) ==>
              forall n :: RowsNamed(AppendToNamed(table, vm), n) == RowsNamed(table, n) + (if vm.environment == n then [vm] else [])
  {
    AppendKeepsNames(table, vm);
    AppendKeepsGrouped(table, vm);
    if NamesUnique(table) {
      forall n ensures RowsNamed(AppendToNamed(table, vm), n) == RowsNamed(table, n) + (if vm.environment == n then [vm] else []) {
        RowsNamedAppend(table, vm, n);
      }
    }
  }

  lemma AppendKeepsNames(table: Table, vm: VM)
    ensures |AppendToNamed(table, vm)| == |table|
    ensures forall i :: 0 <= i < |table| ==> AppendToNamed(table, vm)[i].name == table[i].name
    ensures NamesUnique(table) ==> NamesUnique(AppendToNamed(table, vm))
    ensures forall n :: HasEnv(AppendToNamed(table, vm), n) <==> HasEnv(table, n)
  {
    var r := AppendToNamed(table, vm);
    AppendToNamedAt(table, vm);
    assert forall i :: 0 <= i < |table| ==> r[i].name == table[i].name;
    forall n ensures HasEnv(r, n) <==> HasEnv(table, n) {
      if HasEnv(table, n) {
        var i :| 0 <= i < |table| && table[i].name == n;
        assert r[i].name == n;
      }
    }
  }

  lemma AppendKeepsGrouped(table: Table, vm: VM)
    requires HasEnv(table, vm.environment)
    ensures Grouped(table) ==> Grouped(AppendToNamed(table, vm))
  {
    var r := AppendToNamed(table, vm);
    AppendKeepsNames(table, vm);
    AppendToNamedAt(table, vm);
    if Grouped(table) {
      forall i | 0 <= i < |r|
        ensures |r[i].instances| > 0 && r[i].region == r[i].instances[0].region
        ensures forall c :: 0 <= c < |r[i].instances| ==> r[i].instances[c].environment == r[i].name
      {
        if table[i].name == vm.environment {
          assert r[i].instances == table[i].instances + [vm];
        }
      }
    }
  }

  /** Adding a fresh environment for a new name keeps names unique and the shape. */
  lemma AddNewKeepsShape(table: Table, vm: VM)
    requires !HasEnv(table, vm.environment)
    ensures NamesUnique(table) ==> NamesUnique(table + [NewEnvironment(vm)])
    ensures Grouped(table) ==> Grouped(table + [NewEnvironment(vm)])
    ensures forall n :: HasEnv(table + [NewEnvironment(vm)], n) <==> HasEnv(table, n) || n == vm.environment
    ensures forall n :: RowsNamed(table + [NewEnvironment(vm)], n) == RowsNamed(table, n) + (if vm.environment == n then [vm] else [])
  {
    var e := NewEnvironment(vm);
    forall n ensures HasEnv(table + [e], n) <==> HasEnv(table, n) || n == vm.environment {
      HasEnvSnoc(table, e, n);
    }
    forall n ensures RowsNamed(table + [e], n) == RowsNamed(table, n) + (if vm.environment == n then [vm] else []) {
      RowsNamedSnoc(table, e, n);
    }
    assert forall i :: 0 <= i < |table| ==> table[i].name != vm.environment;
  }

  lemma {:induction false} RowsNamedAppend(table: Table, vm: VM, n: string)
    requires NamesUnique(table)
    ensures RowsNamed(AppendToNamed(table, vm), n)
            == RowsNamed(table, n) + (if vm.environment == n && HasEnv(table, n) then [vm] else [])
  {
    if |table| > 0 {
      var prefix := table[..|table| - 1];
      var last := table[|table| - 1];
      var rest := RowsNamed(prefix, n);
      NamesUniquePrefix(table);
      RowsNamedAppend(prefix, vm, n);
      var before := RowsNamed(AppendToNamed(prefix, vm), n);
      var after := RowsNamed(AppendToNamed(table, vm), n);
      AppendStep(table, vm, n);
      if last.name != n {
        assert after == before + [];
        assert RowsNamed(table, n) == rest + [];
        assert before == rest + (if vm.environment == n && HasEnv(prefix, n) then [vm] else []);
      } else if vm.environment != n {
        assert before == rest + [];
        assert after == before + last.instances;
        assert RowsNamed(table, n) == rest + last.instances;
        assert after == RowsNamed(table, n) + [];
      } else {
        NameNotEarlier(table);
        assert before == rest + [];
        assert after == before + (last.instances + [vm]);
        assert after == (rest + last.instances) + [vm];
      }
    }
  }

  /** How the rows named n and the names present change across the last environment of the table. */
  lemma AppendStep(table: Table, vm: VM, n: string)
    requires |table| > 0
    ensures var prefix, last := table[..|table| - 1], table[|table| - 1];
            var upd := if last.name == vm.environment then last.(instances := last.instances + [vm]) else last;
            && RowsNamed(table, n) == RowsNamed(prefix, n) + (if last.name == n then last.instances else [])
            && RowsNamed(AppendToNamed(table, vm), n)
               == RowsNamed(AppendToNamed(prefix, vm), n) + (if last.name == n then upd.instances else [])
            && (HasEnv(table, n) <==> HasEnv(prefix, n) || last.name == n)
  {
    var prefix, last := table[..|table| - 1], table[|table| - 1];
    var upd := if last.name == vm.environment then last.(instances := last.instances + [vm]) else last;
    assert AppendToNamed(table, vm) == AppendToNamed(prefix, vm) + [upd];
    RowsNamedSnoc(AppendToNamed(prefix, vm), upd, n);
    HasEnvSnoc(prefix, last, n);
    assert prefix + [last] == table;
  }

  lemma NamesUniquePrefix(table: Table)
    requires NamesUnique(table) && |table| > 0
    ensures NamesUnique(table[..|table| - 1])
  {
    var prefix := table[..|table| - 1];
    assert forall i :: 0 <= i < |prefix| ==> prefix[i] == table[i];
  }

  lemma NameNotEarlier(table: Table)
    requires NamesUnique(table) && |table| > 0
    ensures !HasEnv(table[..|table| - 1], table[|table| - 1].name)
  {
  }

  lemma SelectSnoc(xs: seq<VM>, x: VM, n: string)
    ensures Select(xs + [x], n) == Select(xs, n) + (if x.environment == n then [x] else [])
  {
    assert (xs + [x])[..|xs|] == xs;
  }

  /** The rebuild loop of refreshTable: addInstance for every discovered row, in order. */
  function Build(cfg: Config, table: Table, vms: seq<VM>): (r: Table)
    ensures NamesUnique(table) ==> NamesUnique(r)
    ensures Grouped(table) ==> Grouped(r)
  {
    if |vms| == 0 then table
    else AddInstance(cfg, Build(cfg, table, vms[..|vms| - 1]), vms[|vms| - 1])
  }

  /** addInstance never attaches a bill: it appends rows or opens an environment with none. */
  lemma AddInstanceUnbilled(cfg: Config, table: Table, vm: VM)
    requires Unbilled(table)
    ensures Unbilled(AddInstance(cfg, table, vm))
  {
    if Admits(cfg, vm) && HasEnv(table, vm.environment) {
      AppendToNamedAt(table, vm);
    }
  }

  /** The rebuild loop leaves an unbilled table unbilled, so a rebuild from empty carries no bills. */
  lemma {:induction false} BuildUnbilled(cfg: Config, table: Table, vms: seq<VM>)
    requires Unbilled(table)
    ensures Unbilled(Build(cfg, table, vms))
  {
    if |vms| > 0 {
      BuildUnbilled(cfg, table, vms[..|vms| - 1]);
      AddInstanceUnbilled(cfg, Build(cfg, table, vms[..|vms| - 1]), vms[|vms| - 1]);
    }
  }

  /** How the admitted rows named `n` grow by one more discovered row. */
  lemma BuildStep(cfg: Config, vms: seq<VM>, n: string)
    requires |vms| > 0
    ensures Select(AdmittedRows(cfg, vms), n)
            == Select(AdmittedRows(cfg, vms[..|vms| - 1]), n)
               + (if Admits(cfg, vms[|vms| - 1]) && vms[|vms| - 1].environment == n then [vms[|vms| - 1]] else [])
  {
    var prefix, vm := vms[..|vms| - 1], vms[|vms| - 1];
    assert AdmittedRows(cfg, vms) == AdmittedRows(cfg, prefix) + (if Admits(cfg, vm) then [vm] else []);
    if Admits(cfg, vm) {
      SelectSnoc(AdmittedRows(cfg, prefix), vm, n);
    } else {
      assert AdmittedRows(cfg, vms) == AdmittedRows(cfg, prefix);
    }
  }

  /** After the rebuild an environment named `n` exists exactly when one did before or some admitted row carries `n`. */
  lemma {:induction false} BuildHasEnv(cfg: Config, table: Table, vms: seq<VM>, n: string)
    ensures HasEnv(Build(cfg, table, vms), n) <==> HasEnv(table, n) || Select(AdmittedRows(cfg, vms), n) != []
  {
    if |vms| > 0 {
      BuildHasEnv(cfg, table, vms[..|vms| - 1], n);
      BuildStep(cfg, vms, n);
    }
  }

  /** The rebuild files every admitted row, in order, after the rows already held under its name. */
  lemma {:induction false} BuildRowsNamed(cfg: Config, table: Table, vms: seq<VM>, n: string)
    requires NamesUnique(table)
    ensures RowsNamed(Build(cfg, table, vms), n) == RowsNamed(table, n) + Select(AdmittedRows(cfg, vms), n)
  {
    if |vms| > 0 {
      var prefix := vms[..|vms| - 1];
      BuildRowsNamed(cfg, table, prefix, n);
      BuildStep(cfg, vms, n);
      var adm := Select(AdmittedRows(cfg, prefix), n);
      var extra := if Admits(cfg, vms[|vms| - 1]) && vms[|vms| - 1].environment == n then [vms[|vms| - 1]] else [];
      assert (RowsNamed(table, n) + adm) + extra == RowsNamed(table, n) + (adm + extra);
    }
  }

  /** In a table with unique names, the rows filed under an environment's name are that environment's rows. */
  lemma {:induction false} RowsNamedOfUnique(table: Table, i: int)
    requires NamesUnique(table)
    requires 0 <= i < |table|
    ensures RowsNamed(table, table[i].name) == table[i].instances
  {
    var prefix := table[..|table| - 1];
    assert NamesUnique(prefix);
    if i == |table| - 1 {
      RowsNamedAbsent(prefix, table[i].name);
    } else {
      assert prefix[i] == table[i];
      RowsNamedOfUnique(prefix, i);
    }
  }

  lemma {:induction false} RowsNamedAbsent(table: Table, n: string)
    requires forall i :: 0 <= i < |table| ==> table[i].name != n
    ensures RowsNamed(table, n) == []
  {
    if |table| > 0 {
      RowsNamedAbsent(table[..|table| - 1], n);
    }
  }

  /**
   * Grouping from an empty cache: one environment per name that some admitted
   * row carries, holding exactly the admitted rows of that name, in discovery order.
   */
  lemma GroupingFromEmpty(cfg: Config, vms: seq<VM>, i: int)
    requires 0 <= i < |Build(cfg, [], vms)|
    ensures Grouped(Build(cfg, [], vms))
    ensures Build(cfg, [], vms)[i].instances == Select(AdmittedRows(cfg, vms), Build(cfg, [], vms)[i].name)
  {
    var t := Build(cfg, [], vms);
    RowsNamedOfUnique(t, i);
    BuildRowsNamed(cfg, [], vms, t[i].name);
  }

  /** updateEnvDetails only renumbers rows, so the grouping it is handed survives it. */
  lemma RelabelKeepsGrouped(sha1: Identity.Digest, table: Table, r: Table)
    requires |r| == |table|
    requires forall i :: 0 <= i < |table| ==> Aggregate.Relabelled(sha1, table[i], r[i])
    ensures Grouped(table) ==> Grouped(r)
  {
    forall i | 0 <= i < |table| && Grouped(table)
      ensures |r[i].instances| > 0 && r[i].region == r[i].instances[0].region
      ensures forall c :: 0 <= c < |r[i].instances| ==> r[i].instances[c].environment == r[i].name
    {
      assert Aggregate.Relabelled(sha1, table[i], r[i]);
    }
  }

  /** The rows Select keeps are exactly the rows tagged `n`. */
  lemma {:induction false} SelectMembers(xs: seq<VM>, n: string)
    ensures forall x :: x in Select(xs, n) <==> x in xs && x.environment == n
  {
    if |xs| > 0 {
      var prefix := xs[..|xs| - 1];
      SelectMembers(prefix, n);
      assert xs == prefix + [xs[|xs| - 1]];
    }
  }

  /** The rows addInstance's filter keeps are exactly the admitted ones. */
  lemma {:induction false} AdmittedMembers(cfg: Config, xs: seq<VM>)
    ensures forall x :: x in AdmittedRows(cfg, xs) <==> x in xs && Admits(cfg, x)
  {
    if |xs| > 0 {
      var prefix := xs[..|xs| - 1];
      AdmittedMembers(cfg, prefix);
      assert xs == prefix + [xs[|xs| - 1]];
    }
  }
}
