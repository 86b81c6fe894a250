/** Error kinds and the failure-carrying datatypes shared by every module. */
module Wrappers {

  datatype Option<+T> = None | Some(value: T)

  /** The error kinds the backend reports (each Go `fmt.Errorf` site maps to one). */
  datatype Error =
    | PollASGFailed                                   // "error polling ASG"
    | PollEC2Failed                                   // "error polling EC2" (and the legacy describe error)
    | MockDelayFailed                                 // mockDelayWithPossibleError
    | Safety(count: int)                              // "SAFETY: ... too many associated instances"
    | NoInstanceIDs                                   // "no instanceIDs have been provided"
    | NoASGNames                                      // "no ASG names have been provided"
    | UnsupportedState                                // "unsupported desiredState specified"
    | InvalidDesiredState                             // "invalid desired state"
    | NoMapping                                       // "no mapping found between internal id ..."
    | NoClient                                        // "could not retrieve ... client"
    | ProviderFailed                                  // an AWS call returned an error
    | NoAssociatedInstances                           // "env [...] has no associated instances"
    | Combined(instanceFailed: bool, asgFailed: bool) // "%v %v" of the two power errors

  /** A result that carries no value: the Go `err` return. */
  datatype Outcome = Pass | Fail(error: Error)

  /** A result that carries a value on success. */
  datatype Result<+T> = Ok(value: T) | Err(error: Error)
}
