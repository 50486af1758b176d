/** Failure-carrying values shared by every module of the model, and the
    Python exceptions the modelled code can raise. */
module Results {

  datatype Option<+T> = None | Some(value: T)

  datatype Result<+T, +E> = Ok(value: T) | Err(error: E)

  /** The exceptions that escape the modelled operations. */
  datatype Exception =
    | DimensionMismatch(expected: nat, actual: nat)  // numpy's ValueError from vstack
    | IndexError(index: nat)                         // a list index past the end
    | KeyError(key: string)                          // a missing dictionary key
    | EOFError                                       // input() with no line left
    | ValueError(message: string)                    // raised by the agent itself
}
