/** Failure-compatible result types shared by the other modules. */
module Wrappers {

  /** The conventional Some/None datatype. */
  datatype Option<+T> = None | Some(value: T)

  /** Either a value or the reason a store call failed. */
  datatype Result<+R, +E> = Success(value: R) | Failure(error: E)
}
