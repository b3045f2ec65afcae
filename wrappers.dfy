/** Small failure-carrying wrappers shared by the models. */
module Wrappers {

  /** A value that may be absent: stands for a pointer that may be null. */
  datatype Option<+T> = None | Some(value: T)

  /** The outcome of an operation that either completes or raises an error. */
  datatype Outcome<+E> = Pass | Fail(error: E)
}
