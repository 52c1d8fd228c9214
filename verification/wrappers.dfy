/** Optional values and success-or-error results, standing in for JavaScript's
    `undefined`/`null` and for the `{ text, error }` records the report replacers return. */
module Wrappers {

  datatype Option<+T> = None | Some(value: T)

  datatype Result<+R, +E> = Success(value: R) | Failure(error: E)
}
