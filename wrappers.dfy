/** Failure-carrying values used throughout the model: `Option` for values the
    source represents as `null`/`undefined`, `Result` for the source's thrown
    `Error`s, whose message is kept as the failure value. */
module Wrappers {

  datatype Option<+T> = None | Some(value: T)

  datatype Result<+R, +E> = Success(value: R) | Failure(error: E)
}
