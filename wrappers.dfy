/** The optional value used wherever the reader keeps `null` or a missing entry, and the
 *  outcome of an operation that can fail. */
module Wrappers {

  datatype Option<+T> = None | Some(value: T)

  datatype Result<+T, +E> = Success(value: T) | Failure(error: E)

}
