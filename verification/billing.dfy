/**
 * Billing accrual and the toggled-off ledger (backend/aws.go).
 *
 * The server keeps, per environment id, the money spent while instances ran
 * and the money saved while instances it stopped itself stayed stopped.  At
 * every refresh it charges each row's hourly price for the hours elapsed since
 * the previous refresh, as if the row had kept its last known state.  Money is
 * modelled as `real`; Go's float64 rounding is not.
 */
module Billing {
  import opened Types

  /** Nanoseconds in an hour: `time.Hour` measured in `time.Nanosecond`. */
  const NanosPerHour: real := 3600000000000.0

  /** The ids the server has itself stopped (a Go `map[string]bool` whose values are all `true`). */
  type ToggledOff = set<string>

  datatype Ledger = Ledger(
    accrued: map<string, real>,
    saved: map<string, real>,
    totalAccrued: real,
    totalSaved: real,
    lastRefreshed: int)

  /** Go's map read: a missing key reads as zero. */
  function Get0(m: map<string, real>, k: string): real
  {
    if k in m then m[k] else 0.0
  }

  /** Hours between two Unix-nanosecond timestamps. */
  function Elapsed(last: int, now: int): real
  {
    (now - last) as real / NanosPerHour
  }

  // ---------------------------------------------------------------- toggled-off ledger

  /** putToggledOffInstanceIDs: mark every id as stopped by the server. */
  function PutToggledOff(s: ToggledOff, ids: seq<string>): (r: ToggledOff)
    ensures forall x :: x in r <==> x in s || x in ids
    decreases |ids|
  {
    if |ids| == 0 then s else PutToggledOff(s + {ids[0]}, ids[1..])
  }

  /** deleteToggledOffInstanceIDs: forget every id. */
  function DeleteToggledOff(s: ToggledOff, ids: seq<string>): (r: ToggledOff)
    ensures forall x :: x in r <==> x in s && x !in ids
    decreases |ids|
  {
    if |ids| == 0 then s else DeleteToggledOff(s - {ids[0]}, ids[1..])
  }

  /** Inserting the same ids twice is inserting them once. */
  lemma PutIdempotent(s: ToggledOff, ids: seq<string>)
    ensures PutToggledOff(PutToggledOff(s, ids), ids) == PutToggledOff(s, ids)
  {
  }

  /** Removing the same ids twice is removing them once. */
  lemma DeleteIdempotent(s: ToggledOff, ids: seq<string>)
    ensures DeleteToggledOff(DeleteToggledOff(s, ids), ids) == DeleteToggledOff(s, ids)
  {
  }

  /** A start after a stop of the same ids restores the set, up to ids that were already marked. */
  lemma DeleteUndoesPut(s: ToggledOff, ids: seq<string>)
    ensures DeleteToggledOff(PutToggledOff(s, ids), ids) == DeleteToggledOff(s, ids)
    ensures (forall i :: 0 <= i < |ids| ==> ids[i] !in s) ==> DeleteToggledOff(PutToggledOff(s, ids), ids) == s
  {
  }

  // ---------------------------------------------------------------- one environment's bill

  datatype Bill = Bill(accrued: real, saved: real)

  /**
   * The inner loop of calculateEnvBills: one pass over the rows, switching on
   * the state; running rows cost, stopped rows the server stopped save, and
   * every other state contributes nothing.
   */
  function EnvBills(rows: seq<VM>, toggled: ToggledOff, hours: real): Bill
  {
    if |rows| == 0 then Bill(0.0, 0.0)
    else
      var b := EnvBills(rows[..|rows| - 1], toggled, hours);
      var vm := rows[|rows| - 1];
      var bill := vm.pricingHourly * hours;
      if vm.state == "running" then b.(accrued := b.accrued + bill)
      else if vm.state == "stopped" && vm.instanceId in toggled then b.(saved := b.saved + bill)
      else b
  }

  /** The rows that were running. */
  function Running(rows: seq<VM>): seq<VM>
  {
    if |rows| == 0 then []
    else Running(rows[..|rows| - 1]) + (if rows[|rows| - 1].state == "running" then [rows[|rows| - 1]] else [])
  }

  /** The rows that were stopped and that the server itself had stopped. */
  function SavedRows(rows: seq<VM>, toggled: ToggledOff): seq<VM>
  {
    if |rows| == 0 then []
    else
      var vm := rows[|rows| - 1];
      SavedRows(rows[..|rows| - 1], toggled) + (if vm.state == "stopped" && vm.instanceId in toggled then [vm] else [])
  }

  /** What a list of rows costs over `hours`: the sum of price times hours. */
  function Cost(rows: seq<VM>, hours: real): real
  {
    if |rows| == 0 then 0.0 else Cost(rows[..|rows| - 1], hours) + rows[|rows| - 1].pricingHourly * hours
  }

  lemma {:induction false} CostSnoc(rows: seq<VM>, vm: VM, hours: real)
    ensures Cost(rows + [vm], hours) == Cost(rows, hours) + vm.pricingHourly * hours
  {
    assert (rows + [vm])[..|rows|] == rows;
  }

  lemma FiltersSnoc(rows: seq<VM>, toggled: ToggledOff)
    requires |rows| > 0
    ensures var vm := rows[|rows| - 1];
            Running(rows) == Running(rows[..|rows| - 1]) + (if vm.state == "running" then [vm] else [])
    ensures var vm := rows[|rows| - 1];
            SavedRows(rows, toggled)
            == SavedRows(rows[..|rows| - 1], toggled) + (if vm.state == "stopped" && vm.instanceId in toggled then [vm] else [])
  {
  }

  /** The single pass charges exactly the running rows and credits exactly the rows the server stopped. */
  lemma EnvBillsMatchesReference(rows: seq<VM>, toggled: ToggledOff, hours: real)
    ensures EnvBills(rows, toggled, hours) == Bill(Cost(Running(rows), hours), Cost(SavedRows(rows, toggled), hours))
  {
    AccruedMatchesRunning(rows, toggled, hours);
    SavedMatchesSavedRows(rows, toggled, hours);
  }

  /** What the last row adds to each side of the bill. */
  lemma EnvBillsSnoc(rows: seq<VM>, toggled: ToggledOff, hours: real)
    requires |rows| > 0
    ensures var vm := rows[|rows| - 1];
            var b := EnvBills(rows[..|rows| - 1], toggled, hours);
            && EnvBills(rows, toggled, hours).accrued
               == b.accrued + (if vm.state == "running" then vm.pricingHourly * hours else 0.0)
            && EnvBills(rows, toggled, hours).saved
               == b.saved + (if vm.state == "stopped" && vm.instanceId in toggled then vm.pricingHourly * hours else 0.0)
  {
    assert "running"[0] != "stopped"[0];
  }

  /** The accrued side of the pass is the cost of exactly the running rows. */
  lemma {:induction false} AccruedMatchesRunning(rows: seq<VM>, toggled: ToggledOff, hours: real)
    ensures EnvBills(rows, toggled, hours).accrued == Cost(Running(rows), hours)
  {
    if |rows| > 0 {
      var prefix, vm := rows[..|rows| - 1], rows[|rows| - 1];
      AccruedMatchesRunning(prefix, toggled, hours);
      FiltersSnoc(rows, toggled);
      EnvBillsSnoc(rows, toggled, hours);
      if vm.state == "running" {
        CostSnoc(Running(prefix), vm, hours);
      } else {
        assert Running(rows) == Running(prefix);
      }
    }
  }

  /** The saved side of the pass is the cost of exactly the stopped rows the server stopped. */
  lemma {:induction false} SavedMatchesSavedRows(rows: seq<VM>, toggled: ToggledOff, hours: real)
    ensures EnvBills(rows, toggled, hours).saved == Cost(SavedRows(rows, toggled), hours)
  {
    if |rows| > 0 {
      var prefix, vm := rows[..|rows| - 1], rows[|rows| - 1];
      SavedMatchesSavedRows(prefix, toggled, hours);
      FiltersSnoc(rows, toggled);
      EnvBillsSnoc(rows, toggled, hours);
      if vm.state == "stopped" && vm.instanceId in toggled {
        CostSnoc(SavedRows(prefix, toggled), vm, hours);
      } else {
        assert SavedRows(rows, toggled) == SavedRows(prefix, toggled);
      }
    }
  }

  /** Rows in any state other than running or stopped are never billed. */
  lemma {:induction false} OtherStatesFree(rows: seq<VM>, toggled: ToggledOff, hours: real)
    requires forall c :: 0 <= c < |rows| ==> rows[c].state != "running" && rows[c].state != "stopped"
    ensures EnvBills(rows, toggled, hours) == Bill(0.0, 0.0)
  {
    if |rows| > 0 {
      OtherStatesFree(rows[..|rows| - 1], toggled, hours);
    }
  }

  /** A stopped row the server did not stop saves nothing, whatever its price. */
  lemma StoppedByOthersSavesNothing(rows: seq<VM>, vm: VM, toggled: ToggledOff, hours: real)
    requires vm.state == "stopped" && vm.instanceId !in toggled
    ensures EnvBills(rows + [vm], toggled, hours) == EnvBills(rows, toggled, hours)
  {
    assert (rows + [vm])[..|rows|] == rows;
  }

  // ---------------------------------------------------------------- the whole ledger

  /** One iteration of the outer loop of calculateEnvBills. */
  function Accrue(ledger: Ledger, env: Environment, toggled: ToggledOff, hours: real): Ledger
  {
    var b := EnvBills(env.instances, toggled, hours);
    ledger.(accrued := ledger.accrued[env.id := Get0(ledger.accrued, env.id) + b.accrued],
            saved := ledger.saved[env.id := Get0(ledger.saved, env.id) + b.saved],
            totalAccrued := ledger.totalAccrued + b.accrued,
            totalSaved := ledger.totalSaved + b.saved)
  }

  /** The environment ids of a table. */
  function EnvIds(table: Table): set<string>
  {
    set i | 0 <= i < |table| :: table[i].id
  }

  /** Reference: what the environments carrying `id` accrued, summed over the table. */
  function AccruedFor(table: Table, id: string, toggled: ToggledOff, hours: real): real
  {
    if |table| == 0 then 0.0
    else
      var env := table[|table| - 1];
      AccruedFor(table[..|table| - 1], id, toggled, hours)
        + (if env.id == id then EnvBills(env.instances, toggled, hours).accrued else 0.0)
  }

  /** Reference: what the environments carrying `id` saved, summed over the table. */
  function SavedFor(table: Table, id: string, toggled: ToggledOff, hours: real): real
  {
    if |table| == 0 then 0.0
    else
      var env := table[|table| - 1];
      SavedFor(table[..|table| - 1], id, toggled, hours)
        + (if env.id == id then EnvBills(env.instances, toggled, hours).saved else 0.0)
  }

  /** Reference: the whole table's accrued and saved amounts, environment by environment. */
  function TableBill(table: Table, toggled: ToggledOff, hours: real): Bill
  {
    if |table| == 0 then Bill(0.0, 0.0)
    else
      var b := TableBill(table[..|table| - 1], toggled, hours);
      var e := EnvBills(table[|table| - 1].instances, toggled, hours);
      Bill(b.accrued + e.accrued, b.saved + e.saved)
  }

  /** The outer loop of calculateEnvBills, without the clock. */
  function AccrueAll(ledger: Ledger, table: Table, toggled: ToggledOff, hours: real): (r: Ledger)
    ensures r.lastRefreshed == ledger.lastRefreshed
    ensures r.accrued.Keys == ledger.accrued.Keys + EnvIds(table)
    ensures r.saved.Keys == ledger.saved.Keys + EnvIds(table)
    ensures forall id :: Get0(r.accrued, id) == Get0(ledger.accrued, id) + AccruedFor(table, id, toggled, hours)
    ensures forall id :: Get0(r.saved, id) == Get0(ledger.saved, id) + SavedFor(table, id, toggled, hours)
    ensures r.totalAccrued == ledger.totalAccrued + TableBill(table, toggled, hours).accrued
    ensures r.totalSaved == ledger.totalSaved + TableBill(table, toggled, hours).saved
  {
    if |table| == 0 then ledger
    else
      var prefix := table[..|table| - 1];
      assert EnvIds(table) == EnvIds(prefix) + {table[|table| - 1].id} by {
        assert forall i :: 0 <= i < |prefix| ==> prefix[i] == table[i];
      }
      Accrue(AccrueAll(ledger, prefix, toggled, hours), table[|table| - 1], toggled, hours)
  }

  /**
   * calculateEnvBills: charge every environment for the hours since the last
   * refresh and move the refresh time to `now` (the clock reading is a parameter).
   */
  function CalculateEnvBills(ledger: Ledger, table: Table, toggled: ToggledOff, now: int): (r: Ledger)
    ensures r.lastRefreshed == now
    ensures r.accrued.Keys == ledger.accrued.Keys + EnvIds(table)
    ensures r.saved.Keys == ledger.saved.Keys + EnvIds(table)
    ensures forall id :: Get0(r.accrued, id)
              == Get0(ledger.accrued, id) + AccruedFor(table, id, toggled, Elapsed(ledger.lastRefreshed, now))
    ensures forall id :: Get0(r.saved, id)
              == Get0(ledger.saved, id) + SavedFor(table, id, toggled, Elapsed(ledger.lastRefreshed, now))
    ensures r.totalAccrued == ledger.totalAccrued + TableBill(table, toggled, Elapsed(ledger.lastRefreshed, now)).accrued
    ensures r.totalSaved == ledger.totalSaved + TableBill(table, toggled, Elapsed(ledger.lastRefreshed, now)).saved
  {
    AccrueAll(ledger, table, toggled, Elapsed(ledger.lastRefreshed, now)).(lastRefreshed := now)
  }

  /** An environment id the table does not carry is charged nothing. */
  lemma {:induction false} AbsentIdUntouched(table: Table, id: string, toggled: ToggledOff, hours: real)
    requires id !in EnvIds(table)
    ensures AccruedFor(table, id, toggled, hours) == 0.0 && SavedFor(table, id, toggled, hours) == 0.0
  {
    if |table| > 0 {
      var prefix := table[..|table| - 1];
      assert forall i :: 0 <= i < |prefix| ==> prefix[i] == table[i];
      AbsentIdUntouched(prefix, id, toggled, hours);
    }
  }

  /** With unique environment ids, an environment's charge is its own rows' bill. */
  lemma {:induction false} UniqueIdCharge(table: Table, i: int, toggled: ToggledOff, hours: real)
    requires 0 <= i < |table|
    requires forall j :: 0 <= j < |table| && j != i ==> table[j].id != table[i].id
    ensures AccruedFor(table, table[i].id, toggled, hours) == Cost(Running(table[i].instances), hours)
    ensures SavedFor(table, table[i].id, toggled, hours) == Cost(SavedRows(table[i].instances, toggled), hours)
  {
    var prefix := table[..|table| - 1];
    EnvBillsMatchesReference(table[i].instances, toggled, hours);
    if i == |table| - 1 {
      assert forall j :: 0 <= j < |prefix| ==> prefix[j] == table[j];
      AbsentIdUntouched(prefix, table[i].id, toggled, hours);
    } else {
      assert prefix[i] == table[i];
      UniqueIdCharge(prefix, i, toggled, hours);
    }
  }
}
