/**
 * refreshTable (backend/aws.go): charge the bills for the time since the last
 * refresh, poll groups (when enabled) and instances, and only when both polls
 * succeed rebuild the cache from what they found.
 */
module Refresh {
  import opened Wrappers
  import opened Types
  import opened Identity
  import opened InstanceDetails
  import opened Filter
  import opened Cache
  import opened Aggregate
  import opened Billing
  import opened ServerState
  import Mock

  /** Everything the describe calls of one refresh return, region by region. */
  datatype Poll = Poll(asgReplies: seq<RegionReply<RawASG>>, ec2Replies: seq<RegionReply<RawEC2>>)

  /** Whether some poll of the refresh fails: the group poll (when enabled) or the instance poll. */
  predicate PollFails(cfg: Config, poll: Poll)
  {
    (cfg.asgEnabled && !AllReplied(poll.asgReplies)) || !AllReplied(poll.ec2Replies)
  }

  /** The rows a successful refresh found: the groups first, then the instances. */
  function Discovered(cfg: Config, catalogue: seq<TypeDetails>, poll: Poll): seq<VM>
    requires !PollFails(cfg, poll)
  {
    (if cfg.asgEnabled then PollForASG(cfg, catalogue, poll.asgReplies).value else [])
      + PollForEC2(cfg, catalogue, poll.ec2Replies).value
  }

  /** The ledger after the billing step that opens every real refresh. */
  function BilledLedger(cfg: Config, s: State, now: int): Ledger
  {
    if cfg.experimentalEnabled then CalculateEnvBills(s.ledger, s.table, s.toggled, now) else s.ledger
  }

  /**
   * refreshTable.  The billing step runs before the polls, so the ledger moves
   * even when a poll then fails; the cache itself is replaced only after both
   * polls succeed.
   */
  function RefreshTable(cfg: Config, sha1: Digest, catalogue: seq<TypeDetails>, s: State,
                        poll: Poll, now: int, mockDelayOk: bool, fixture: Table): (r: Step)
    ensures cfg.mockEnabled ==> r == Mock.MockRefreshTable(cfg, sha1, catalogue, s, mockDelayOk, fixture, now)
    ensures !cfg.mockEnabled ==> r.calls == [] && r.after.toggled == s.toggled
    ensures !cfg.mockEnabled ==> r.after.ledger == BilledLedger(cfg, s, now)
    ensures !cfg.mockEnabled ==> (r.outcome == Pass <==> !PollFails(cfg, poll))
    ensures !cfg.mockEnabled && PollFails(cfg, poll) ==> r.after.table == s.table
    ensures !cfg.mockEnabled && cfg.asgEnabled && !AllReplied(poll.asgReplies) ==> r.outcome == Fail(PollASGFailed)
    ensures !cfg.mockEnabled && !(cfg.asgEnabled && !AllReplied(poll.asgReplies)) && !AllReplied(poll.ec2Replies) ==>
              r.outcome == Fail(PollEC2Failed)
    ensures !cfg.mockEnabled && !PollFails(cfg, poll) ==>
              && Grouped(r.after.table)
              && |r.after.table| == |Build(cfg, [], Discovered(cfg, catalogue, poll))|
              && forall i :: 0 <= i < |r.after.table| ==>
                   && Aggregated(r.after.table[i])
                   && Relabelled(sha1, Build(cfg, [], Discovered(cfg, catalogue, poll))[i], r.after.table[i])
    ensures !cfg.mockEnabled && !PollFails(cfg, poll) ==>
              forall i :: 0 <= i < |r.after.table| ==>
                && r.after.table[i].billsAccrued
                   == AttachBill(cfg.experimentalEnabled, BilledLedger(cfg, s, now).accrued, r.after.table[i].id, None)
                && r.after.table[i].billsSaved
                   == AttachBill(cfg.experimentalEnabled, BilledLedger(cfg, s, now).saved, r.after.table[i].id, None)
  {
    if cfg.mockEnabled then Mock.MockRefreshTable(cfg, sha1, catalogue, s, mockDelayOk, fixture, now)
    else PollAndRebuild(cfg, sha1, catalogue, s, poll, now)
  }

  /** The real (not mock) refresh: bill, poll, and on success rebuild. */
  function PollAndRebuild(cfg: Config, sha1: Digest, catalogue: seq<TypeDetails>, s: State,
                          poll: Poll, now: int): (r: Step)
    ensures r.calls == [] && r.after.toggled == s.toggled
    ensures r.after.ledger == BilledLedger(cfg, s, now)
    ensures r.outcome == Pass <==> !PollFails(cfg, poll)
    ensures PollFails(cfg, poll) ==> r.after.table == s.table
    ensures cfg.asgEnabled && !AllReplied(poll.asgReplies) ==> r.outcome == Fail(PollASGFailed)
    ensures !(cfg.asgEnabled && !AllReplied(poll.asgReplies)) && !AllReplied(poll.ec2Replies) ==> r.outcome == Fail(PollEC2Failed)
    ensures !PollFails(cfg, poll) ==> r.after.table == Regroup(cfg, sha1, Discovered(cfg, catalogue, poll), BilledLedger(cfg, s, now))
  {
    var ledger := BilledLedger(cfg, s, now);
    var billed := s.(ledger := ledger);
    var asgs := if cfg.asgEnabled then PollForASG(cfg, catalogue, poll.asgReplies) else Ok([]);
    if asgs.Err? then Step(Fail(PollASGFailed), [], billed)
    else
      var ec2 := PollForEC2(cfg, catalogue, poll.ec2Replies);
      if ec2.Err? then Step(Fail(PollEC2Failed), [], billed)
      else Step(Pass, [], billed.(table := Regroup(cfg, sha1, asgs.value + ec2.value, ledger)))
  }

  /** The table a successful refresh installs: the found rows grouped, then aggregated. */
  function Regroup(cfg: Config, sha1: Digest, found: seq<VM>, ledger: Ledger): (t: Table)
    ensures Grouped(t)
    ensures |t| == |Build(cfg, [], found)|
    ensures forall i :: 0 <= i < |t| ==> Aggregated(t[i]) && Relabelled(sha1, Build(cfg, [], found)[i], t[i])
    ensures forall i :: 0 <= i < |t| ==>
              && t[i].billsAccrued == AttachBill(cfg.experimentalEnabled, ledger.accrued, t[i].id, None)
              && t[i].billsSaved == AttachBill(cfg.experimentalEnabled, ledger.saved, t[i].id, None)
  {
    var grouped := Build(cfg, [], found);
    assert Grouped([]);
    BuildUnbilled(cfg, [], found);
    var t := UpdateEnvDetails(sha1, grouped, cfg.experimentalEnabled, ledger.accrued, ledger.saved);
    RelabelKeepsGrouped(sha1, grouped, t);
    t
  }

  lemma {:induction false} SelectAppend(xs: seq<VM>, ys: seq<VM>, n: string)
    ensures Select(xs + ys, n) == Select(xs, n) + Select(ys, n)
  {
    if |ys| > 0 {
      var zs := ys[..|ys| - 1];
      SelectAppend(xs, zs, n);
      assert (xs + ys)[..|xs + ys| - 1] == xs + zs;
    } else {
      assert xs + ys == xs;
    }
  }

  lemma {:induction false} AdmittedAppend(cfg: Config, xs: seq<VM>, ys: seq<VM>)
    ensures AdmittedRows(cfg, xs + ys) == AdmittedRows(cfg, xs) + AdmittedRows(cfg, ys)
  {
    if |ys| > 0 {
      var zs := ys[..|ys| - 1];
      AdmittedAppend(cfg, xs, zs);
      assert (xs + ys)[..|xs + ys| - 1] == xs + zs;
    } else {
      assert xs + ys == xs;
    }
  }

  /**
   * After a successful refresh, each environment holds the admitted rows that
   * carry its name (renumbered), its groups ahead of its plain instances, in
   * discovery order.
   */
  lemma RefreshGrouping(cfg: Config, sha1: Digest, catalogue: seq<TypeDetails>, s: State,
                        poll: Poll, now: int, mockDelayOk: bool, fixture: Table, i: int)
    requires !cfg.mockEnabled && !PollFails(cfg, poll)
    requires 0 <= i < |RefreshTable(cfg, sha1, catalogue, s, poll, now, mockDelayOk, fixture).after.table|
    ensures var env := RefreshTable(cfg, sha1, catalogue, s, poll, now, mockDelayOk, fixture).after.table[i];
            var asgs := if cfg.asgEnabled then PollForASG(cfg, catalogue, poll.asgReplies).value else [];
            var ec2 := PollForEC2(cfg, catalogue, poll.ec2Replies).value;
            var rows := Select(AdmittedRows(cfg, asgs), env.name) + Select(AdmittedRows(cfg, ec2), env.name);
            && |env.instances| == |rows|
            && forall c :: 0 <= c < |rows| ==> env.instances[c] == WithRowId(sha1, rows[c])
  {
    var asgs := if cfg.asgEnabled then PollForASG(cfg, catalogue, poll.asgReplies).value else [];
    var ec2 := PollForEC2(cfg, catalogue, poll.ec2Replies).value;
    var found := Discovered(cfg, catalogue, poll);
    assert found == asgs + ec2;
    var grouped := Build(cfg, [], found);
    var r := RefreshTable(cfg, sha1, catalogue, s, poll, now, mockDelayOk, fixture);
    assert Relabelled(sha1, grouped[i], r.after.table[i]);
    GroupingFromEmpty(cfg, found, i);
    AdmittedAppend(cfg, asgs, ec2);
    SelectAppend(AdmittedRows(cfg, asgs), AdmittedRows(cfg, ec2), grouped[i].name);
  }
}
