/**
 * The package-level state of the backend (backend/aws.go): the cached table,
 * the billing ledger and the set of ids the server itself stopped; and the
 * AWS calls an operation issues, recorded instead of performed.
 */
module ServerState {
  import opened Wrappers
  import opened Types
  import opened Billing

  /** A request to AWS; `region` names the regional client it goes through. */
  datatype Call =
    | StartInstances(region: string, ids: seq<string>)
    | StopInstances(region: string, ids: seq<string>)
    | UpdateASG(region: string, name: string, desiredCapacity: int, minSize: int)

  datatype State = State(table: Table, ledger: Ledger, toggled: ToggledOff)

  /** What one operation did: its error (if any), the calls it issued, and the state after it. */
  datatype Step = Step(outcome: Outcome, calls: seq<Call>, after: State)
}
