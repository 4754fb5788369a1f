/** Option and Result, the two wrappers the model uses for `undefined`/`null` and for thrown errors. */
module Wrappers {

  /** `None` stands for a JavaScript `undefined` (or a missing value). */
  datatype Option<+T> = None | Some(value: T)

  /** The outcome of an awaited call: the value it resolved to, or what it threw. */
  datatype Result<+R, +E> = Success(value: R) | Failure(error: E)
}
