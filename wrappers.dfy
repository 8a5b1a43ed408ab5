/** Small failure-carrying datatypes shared by the modules of the model. */
module Wrappers {

  /** A value that may be absent (Go's nil message). */
  datatype Option<+T> = None | Some(value: T)

  /** The outcome of an operation that returns only an error (Go's `error`, nil on success). */
  datatype Outcome<+E> = Pass | Fail(error: E)
}
