/**
 * Two environments of the built-in mock data (backend/mockdata.go), row for
 * row, and the answers the HTTP handlers give for them in mock mode.
 */
module Fixture {
  import opened Wrappers
  import opened Types
  import opened Aggregate
  import opened Lookup
  import opened ServerState
  import opened Mock

  /** A plain, stopped instance of the fixture (all of them are in ca-central-1 and carry no price). */
  function Row(env: string, id: string, instanceId: string, instanceType: string, name: string,
               vcpu: int, memoryGB: real): VM
  {
    VM(id, instanceId, instanceType, name, "stopped", env, "ca-central-1", vcpu, memoryGB, 0.0,
       false, 0, 0, 0, 0)
  }

  const MockEnv6Rows: seq<VM> := [
    Row("mockenv6", "1aef6299109b", "i-0008ad1bfd83a52eb", "t3.xlarge", "mockenv6-k8node2", 4, 16.0),
    Row("mockenv6", "9b97d53ab004", "i-04b69b4ec92d548df", "t3.medium", "mockenv6-k8master1", 2, 4.0),
    Row("mockenv6", "be8225018847", "i-0dedc66553eaecfc3", "t3.medium", "mockenv6-k8master2", 2, 4.0),
    Row("mockenv6", "dd4c000552b2", "i-0778ddf78ec72bffd", "t3.small", "mockenv6-etcd3", 2, 2.0),
    Row("mockenv6", "63296c73e207", "i-03b3782294e848647", "t3.small", "mockenv6-etcd1", 2, 2.0),
    Row("mockenv6", "a2f4635a834b", "i-0872ea25c0766d383", "t3.xlarge", "mockenv6-k8node5", 4, 16.0),
    Row("mockenv6", "98a9867235f3", "i-0e9fcaf646ce779ab", "t3.xlarge", "mockenv6-k8node3", 4, 16.0),
    Row("mockenv6", "906d663b6ecd", "i-0eba74077ac760573", "t3.small", "mockenv6-etcd2", 2, 2.0),
    Row("mockenv6", "8a0a2a0d8725", "i-0d67730effbee8b3b", "t3.xlarge", "mockenv6-k8node1", 4, 16.0),
    Row("mockenv6", "8c65980f5b5f", "i-009517923633b51f4", "t3.xlarge", "mockenv6-k8node4", 4, 16.0)
  ]

  const MockEnv7Rows: seq<VM> := [
    Row("mockenv7", "26f653b0d42a", "i-01901f7ff1afc2365", "t2.medium", "mockenv7-org1-app", 2, 4.0),
    Row("mockenv7", "6397591647fc", "i-03f161f3b27709891", "t2.medium", "mockenv7-org5-app", 2, 4.0),
    Row("mockenv7", "b7f7bee3c531", "i-0b1d0fcde41d75806", "t2.medium", "mockenv7-org2-app", 2, 4.0),
    Row("mockenv7", "6c7afa9ae90e", "i-0517e563d41f75d18", "t2.medium", "mockenv7-org4-app", 2, 4.0),
    Row("mockenv7", "30fc2b2d1f89", "i-0c4f22923d9f58d0a", "t2.medium", "mockenv7-org3-app", 2, 4.0),
    Row("mockenv7", "86670aa353c9", "i-048b24df4aa79e266", "t2.medium", "mockenv7-org6-app", 2, 4.0)
  ]

  const MockEnv6: Environment :=
    Environment("7aacc4c405b9", "aws", "ca-central-1", "mockenv6", MockEnv6Rows, 0, 10, 10, 30, 94.0, "stopped", None, None)

  const MockEnv7: Environment :=
    Environment("4f9f1afb29f1", "aws", "ca-central-1", "mockenv7", MockEnv7Rows, 0, 6, 6, 12, 24.0, "stopped", None, None)

  const FixtureTable: Table := [MockEnv6, MockEnv7]

  /** Every row of the list is stopped. */
  lemma {:induction false} AllStoppedCounts(rows: seq<VM>)
    requires forall c :: 0 <= c < |rows| ==> rows[c].state == "stopped"
    ensures CountState(rows, "stopped") == |rows| && CountState(rows, "running") == 0
  {
    if |rows| > 0 {
      var prefix := rows[..|rows| - 1];
      assert forall c :: 0 <= c < |prefix| ==> prefix[c] == rows[c];
      AllStoppedCounts(prefix);
      assert rows[|rows| - 1].state != "running" by {
        assert "stopped"[0] != "running"[0];
      }
    }
  }

  /** A fully stopped, non-empty environment calls for the "stopped" state. */
  lemma AllStoppedState(rows: seq<VM>)
    requires |rows| > 0 && forall c :: 0 <= c < |rows| ==> rows[c].state == "stopped"
    ensures StateAgreesWithRows(EnvStateStopped, rows)
  {
    assert rows[0].state != "running" by {
      assert "stopped"[0] != "running"[0];
    }
    assert EnvStateStopped != EnvStateRunning by {
      assert EnvStateStopped[0] != EnvStateRunning[0];
    }
  }

  /** The totals of a prefix grow by the next row. */
  lemma SumStep(rows: seq<VM>, k: int)
    requires 0 <= k < |rows|
    ensures SumVCPU(rows[..k + 1]) == SumVCPU(rows[..k]) + rows[k].vcpu
    ensures SumMemory(rows[..k + 1]) == SumMemory(rows[..k]) + rows[k].memoryGB
  {
    assert rows[..k + 1][..k] == rows[..k];
  }

  lemma Env6Stopped()
    ensures forall c :: 0 <= c < |MockEnv6Rows| ==> MockEnv6Rows[c].state == "stopped"
  {
  }

  lemma Env7Stopped()
    ensures forall c :: 0 <= c < |MockEnv7Rows| ==> MockEnv7Rows[c].state == "stopped"
  {
  }

  lemma Env6Totals()
    ensures SumVCPU(MockEnv6Rows) == 30 && SumMemory(MockEnv6Rows) == 94.0
  {
    var rows := MockEnv6Rows;
    assert rows[..0] == [];
    SumStep(rows, 0); SumStep(rows, 1); SumStep(rows, 2); SumStep(rows, 3); SumStep(rows, 4);
    SumStep(rows, 5); SumStep(rows, 6); SumStep(rows, 7); SumStep(rows, 8); SumStep(rows, 9);
    assert rows[..10] == rows;
  }

  lemma Env7Totals()
    ensures SumVCPU(MockEnv7Rows) == 12 && SumMemory(MockEnv7Rows) == 24.0
  {
    var rows := MockEnv7Rows;
    assert rows[..0] == [];
    SumStep(rows, 0); SumStep(rows, 1); SumStep(rows, 2); SumStep(rows, 3); SumStep(rows, 4); SumStep(rows, 5);
    assert rows[..6] == rows;
  }

  /** The counters and totals written into the fixture agree with its rows. */
  lemma FixtureIsAggregated()
    ensures Aggregated(MockEnv6) && Aggregated(MockEnv7)
  {
    Env6Stopped();
    Env7Stopped();
    AllStoppedCounts(MockEnv6Rows);
    AllStoppedCounts(MockEnv7Rows);
    AllStoppedState(MockEnv6Rows);
    AllStoppedState(MockEnv7Rows);
    Env6Totals();
    Env7Totals();
  }

  /** No environment of the table has the id. */
  lemma {:induction false} EnvRowsAbsent(table: Table, envId: string)
    requires forall i :: 0 <= i < |table| ==> table[i].id != envId
    ensures EnvRows(table, envId) == []
  {
    if |table| > 0 {
      var prefix := table[..|table| - 1];
      assert forall i :: 0 <= i < |prefix| ==> prefix[i] == table[i];
      EnvRowsAbsent(prefix, envId);
    }
  }

  /** The rows of an environment whose id no other environment shares are exactly its own. */
  lemma {:induction false} EnvRowsOfUnique(table: Table, e: int)
    requires OnlyEnvWithId(table, e)
    ensures EnvRows(table, table[e].id) == table[e].instances
  {
    var prefix := table[..|table| - 1];
    assert forall i :: 0 <= i < |prefix| ==> prefix[i] == table[i];
    if e == |table| - 1 {
      EnvRowsAbsent(prefix, table[e].id);
    } else {
      EnvRowsOfUnique(prefix, e);
    }
  }

  /**
   * The mock start of an environment whose id is unique and whose first row is
   * a stopped plain instance succeeds; a stop right after it succeeds too when
   * the environment fits under the shutdown ceiling.
   */
  lemma StartThenStopPasses(cfg: Config, s: State, e: int)
    requires OnlyEnvWithId(s.table, e) && |s.table[e].instances| > 0
    requires !s.table[e].instances[0].isASG && s.table[e].instances[0].state == "stopped"
    requires |s.table[e].instances| <= cfg.maxInstancesToShutdown
    ensures var started := MockStartupEnv(cfg, s, s.table[e].id);
            && started.outcome == Pass
            && MockShutdownEnv(cfg, started.after, s.table[e].id).outcome == Pass
  {
    var id := s.table[e].id;
    PlainRowListed(s.table, e, 0, "stopped");
    assert FirstEnvIndex(s.table, id) == Some(e);
    var t := MockStartupEnv(cfg, s, id).after.table;
    assert t == PowerFirstEnv(s.table, id, "running");
    assert t[e].instances[0] == s.table[e].instances[0].(state := "running");
    assert OnlyEnvWithId(t, e);
    PlainRowListed(t, e, 0, "running");
    EnvRowsOfUnique(t, e);
  }

  lemma FixtureEnvIdsDiffer()
    ensures OnlyEnvWithId(FixtureTable, 1)
  {
    assert FixtureTable[0].id[0] != FixtureTable[1].id[0];
  }

  /** Start then stop of environment 4f9f1afb29f1 both succeed (the handler answers 200 twice). */
  lemma StartStopEnvVector(cfg: Config, s: State)
    requires s.table == FixtureTable && cfg.maxInstancesToShutdown >= 6
    ensures var started := MockStartupEnv(cfg, s, "4f9f1afb29f1");
            && started.outcome == Pass
            && MockShutdownEnv(cfg, started.after, "4f9f1afb29f1").outcome == Pass
  {
    FixtureEnvIdsDiffer();
    StartThenStopPasses(cfg, s, 1);
  }

  /** Start or stop of an unknown environment fails (the handler answers 500). */
  lemma UnknownEnvVector(cfg: Config, s: State)
    requires s.table == FixtureTable && cfg.maxInstancesToShutdown >= 0
    ensures MockStartupEnv(cfg, s, "invalid").outcome.Fail?
    ensures MockShutdownEnv(cfg, s, "invalid").outcome.Fail?
  {
    assert FixtureTable[0].id[0] != "invalid"[0] && FixtureTable[1].id[0] != "invalid"[0];
    EnvRowsAbsent(s.table, "invalid");
  }

  lemma Env6IdsOnce()
    ensures MockEnv6Rows[7].id == "906d663b6ecd"
    ensures forall c :: 0 <= c < |MockEnv6Rows| && c != 7 ==> MockEnv6Rows[c].id != "906d663b6ecd"
  {
    forall c | 0 <= c < |MockEnv6Rows| && c != 7 ensures MockEnv6Rows[c].id != "906d663b6ecd" {
      if c == 1 || c == 6 {
        assert MockEnv6Rows[c].id[1] != "906d663b6ecd"[1];
      } else {
        assert MockEnv6Rows[c].id[0] != "906d663b6ecd"[0];
      }
    }
  }

  lemma Env7IdsOther()
    ensures forall c :: 0 <= c < |MockEnv7Rows| ==> MockEnv7Rows[c].id[0] != "906d663b6ecd"[0]
  {
  }

  /** Row 7 of mockenv6 is the only row of the fixture with internal id 906d663b6ecd. */
  lemma FixtureRowIdUnique()
    ensures OnlyRowWithId(FixtureTable, "906d663b6ecd", 0, 7)
  {
    Env6IdsOnce();
    Env7IdsOther();
  }

  /** Start then stop of instance 906d663b6ecd both succeed. */
  lemma StartStopInstanceVector(cfg: Config, s: State)
    requires s.table == FixtureTable
    ensures var started := MockToggleInstance(cfg, s, "906d663b6ecd", "start");
            && started.outcome == Pass
            && MockToggleInstance(cfg, started.after, "906d663b6ecd", "stop").outcome == Pass
  {
    FixtureRowIdUnique();
    assert AWSIdOf(s.table[0].instances[7]) == "i-0eba74077ac760573";
    ToggleTwicePasses(cfg, s, "906d663b6ecd", 0, 7);
  }

  /** An instance whose internal id is on one row with a provider id can be started and then stopped. */
  lemma ToggleTwicePasses(cfg: Config, s: State, id: string, i: int, c: int)
    requires OnlyRowWithId(s.table, id, i, c)
    requires AWSIdOf(s.table[i].instances[c]) != ""
    ensures var started := MockToggleInstance(cfg, s, id, "start");
            && started.outcome == Pass
            && MockToggleInstance(cfg, started.after, id, "stop").outcome == Pass
  {
    MockToggleUnique(cfg, s, id, "start", i, c);
    var started := MockToggleInstance(cfg, s, id, "start").after;
    OnlyRowAfterStateChange(s.table, id, i, c, "running");
    MockToggleUnique(cfg, started, id, "stop", i, c);
  }

  /** Changing the state of the one row with the id keeps it the one row with the id. */
  lemma OnlyRowAfterStateChange(table: Table, id: string, i: int, c: int, state: string)
    requires OnlyRowWithId(table, id, i, c)
    ensures var t := table[i := table[i].(instances := table[i].instances[c := table[i].instances[c].(state := state)])];
            && OnlyRowWithId(t, id, i, c)
            && AWSIdOf(t[i].instances[c]) == AWSIdOf(table[i].instances[c])
  {
    var t := table[i := table[i].(instances := table[i].instances[c := table[i].instances[c].(state := state)])];
    assert forall j, d :: 0 <= j < |t| && 0 <= d < |t[j].instances| ==> t[j].instances[d].id == table[j].instances[d].id;
  }

  lemma FixtureIdsNotInvalid()
    ensures forall c :: 0 <= c < |MockEnv6Rows| ==> MockEnv6Rows[c].id[0] != 'i'
    ensures forall c :: 0 <= c < |MockEnv7Rows| ==> MockEnv7Rows[c].id[0] != 'i'
  {
  }

  /** Start or stop of an unknown instance fails. */
  lemma UnknownInstanceVector(cfg: Config, s: State)
    requires s.table == FixtureTable
    ensures MockToggleInstance(cfg, s, "invalid", "start").outcome.Fail?
    ensures MockToggleInstance(cfg, s, "invalid", "stop").outcome.Fail?
  {
    NoRowInvalid();
  }

  lemma NoRowInvalid()
    ensures !HasRowId(FixtureTable, "invalid")
  {
    FixtureIdsNotInvalid();
  }
}
