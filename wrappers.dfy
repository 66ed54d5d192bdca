/** Optional values and results with an error channel, in the shape used throughout the model. */
module Wrappers {

  /** `None` stands for JavaScript's `undefined` / `void` result. */
  datatype Option<+T> = None | Some(value: T)

  /** `Failure` stands for an exception thrown (or a promise rejected) with `error`. */
  datatype Result<+R, +E> = Success(value: R) | Failure(error: E)
}
