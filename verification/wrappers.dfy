/** Plain option and result types, used to model "returns normally" versus "throws". */
module Wrappers {

  /** An optional value. */
  datatype Option<+T> = None | Some(value: T)

  /** A computation that either produces a value or fails with an error value. */
  datatype Result<+R, +E> = Success(value: R) | Failure(error: E)

  /** A computation that produces no value: it either passes or fails with an error value.
      The assertion functions of the library return `undefined` or throw, which is `Pass` or `Fail`. */
  datatype Outcome<+E> = Pass | Fail(error: E)
}
