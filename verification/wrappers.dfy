/** Failure-carrying value types shared by the model: an optional value
    (TypeScript's `T | null`) and a result that is either a value or an
    error (a resolved or rejected promise). */
module Wrappers {

  datatype Option<+T> = None | Some(value: T)

  datatype Result<+R, +E> = Success(value: R) | Failure(error: E)
}
