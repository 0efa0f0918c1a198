/** Python's `None`-or-value and raise-or-return, as datatypes. */
module Wrappers {

  /** A value that may be Python's `None`. */
  datatype Option<+T> = None | Some(value: T)

  /** A call that either returns normally or raises. */
  datatype Result<+R, +E> = Success(value: R) | Failure(error: E)
}
