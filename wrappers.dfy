/** The optional-value and result types used wherever the source returns
    `undefined`/`null`, throws, or reports an error. */
module Wrappers {

  datatype Option<+T> = None | Some(value: T)

  /** A value, or the message of the error the source throws or returns. */
  datatype Result<+T> = Success(value: T) | Failure(error: string)
}
