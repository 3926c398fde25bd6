/** Failure-carrying values used where the C++ code returns a pair or throws. */
module Wrappers {

  /** A value or nothing: `std::pair<Value, bool>` of the number converters, `std::find` hits. */
  datatype Option<+T> = None | Some(value: T)

  /** A value or the error an exception would have carried. */
  datatype Result<+T, +E> = Ok(value: T) | Err(error: E)

  /** Success or the error of a `void` operation that may throw. */
  datatype Outcome<+E> = Pass | Fail(error: E)
}
