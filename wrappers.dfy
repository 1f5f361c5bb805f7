/** Option, Result and Outcome: how the model spells JavaScript's `undefined`-free
    absence and a promise that rejects. */
module Wrappers {

  datatype Option<+T> = None | Some(value: T)

  /** What an awaited promise settles to: a value, or the error it was rejected with. */
  datatype Result<+R, +E> = Success(value: R) | Failure(error: E)

  /** What an awaited `Promise<void>` settles to. */
  datatype Outcome<+E> = Pass | Fail(error: E)
}
