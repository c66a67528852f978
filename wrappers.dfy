/** Failure-compatible wrappers shared by the modules of this project. */
module Wrappers {

  /** Kotlin's nullable value: `null` is `None`. */
  datatype Option<+T> = None | Some(value: T)

  /** The outcome of a step that may throw: `Err` carries what was thrown. */
  datatype Result<+T, +E> = Ok(value: T) | Err(error: E)
}
