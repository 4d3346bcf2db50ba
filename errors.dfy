/** Failure-compatible wrappers and the exceptions the cluster layer throws. */
module Errors {

  /** The exceptions raised by the clusters, named after the .NET exception types thrown. */
  datatype Error =
    | ArgumentOutOfRange   // index outside [0, Count), NoAddress given to a placed cluster, invalid DateTime ticks
    | ArgumentNull         // a null volume name
    | Argument             // a volume name longer than 255 code units

  /** The value of a call that may throw. */
  datatype Result<+T> = Ok(value: T) | Err(error: Error)

  /** The completion of a call that returns nothing but may throw. */
  datatype Outcome = Pass | Fail(error: Error)

  /** A .NET reference that may be null. */
  datatype Option<+T> = None | Some(value: T)
}
