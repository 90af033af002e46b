/** Absent-or-present values and success-or-failure results. */
module Wrappers {

  /** A JavaScript value that may be missing: None stands for both
      `undefined` and `null`, which `??` and JSON persistence treat alike. */
  datatype Option<+T> = None | Some(value: T)

  /** The outcome of a resolver: a value, or the error it throws. */
  datatype Result<+T, +E> = Ok(value: T) | Err(error: E)
}
