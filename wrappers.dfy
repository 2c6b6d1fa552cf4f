/** Option and Result, the two ways an operation of the server can come back empty or fail. */
module Wrappers {

  /** `None` stands for JavaScript's `null`/`undefined`, `Some(v)` for a present value. */
  datatype Option<+T> = None | Some(value: T)

  /** `Failure(e)` stands for an exception `e` thrown by the operation. */
  datatype Result<+T, +E> = Success(value: T) | Failure(error: E)
}
