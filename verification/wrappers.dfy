/** Failure-carrying results used across the model. */
module Wrappers {

  datatype Option<+T> = None | Some(value: T)

  /** A Go `(value, error)` pair: exactly one of the two is meaningful. */
  datatype Result<+T, +E> = Ok(value: T) | Err(error: E)

  /**
   * How a Go call ends: it returns normally, or it panics. Used where the
   * source calls a method that is implemented as `panic("not implemented")`
   * or indexes out of range.
   */
  datatype Exit<+T> = Returned(value: T) | Panicked(message: string)

  const NotImplemented := "not implemented"
}
