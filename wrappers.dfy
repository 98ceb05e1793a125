/** Small failure-carrying datatypes shared by the model. */
module Wrappers {

  /** An optional value: a callback that may be absent, an event that may not be emitted. */
  datatype Option<+T> = None | Some(value: T)

  /** The result of an operation that either succeeds with nothing to return or throws `error`. */
  datatype Outcome<+E> = Pass | Fail(error: E)
}
