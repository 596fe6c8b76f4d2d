/** The exceptions that end a run of the generator, and the result types that carry them. */
module Faults {

  datatype Fault =
    | IndexError      // a directive line lacks the tokens its sub-command reads
    | AttributeError  // a rule's `rate_forward` attribute is set to None

  /** Outcome of a step that only changes state. */
  datatype Outcome = Pass | Fail(fault: Fault)

  /** Outcome of a step that computes a value. */
  datatype Result<T> = Ok(value: T) | Err(fault: Fault)

  datatype Option<T> = None | Some(value: T) {
    function GetOr(default: T): T {
      match this
      case Some(v) => v
      case None => default
    }
  }
}
