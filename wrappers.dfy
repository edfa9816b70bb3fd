/** Failure-compatible result types shared by the model's modules. A C# exception
    that escapes an operation becomes a `Failure`/`Fail` carrying what was thrown. */
module Wrappers {

  datatype Option<+T> = None | Some(value: T)

  datatype Result<+R, +E> = Success(value: R) | Failure(error: E)

  datatype Outcome<+E> = Pass | Fail(error: E)
}
