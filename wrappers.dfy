/** Option and Result, the two shapes the pipeline's values take: a JavaScript
    value that may be `null`, and a call that may throw. */
module Wrappers {

  /** `null` (None) or a present value (Some). */
  datatype Option<+T> = None | Some(value: T)

  /** A call that returned (Success) or threw an error carrying a message (Failure). */
  datatype Result<+R, +E> = Success(value: R) | Failure(error: E)
}
