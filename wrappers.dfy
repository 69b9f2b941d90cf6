/** Small failure-compatible wrappers shared by the model. */
module Wrappers {

  /** A value that may be absent: JavaScript's `undefined`/`null` against a present value. */
  datatype Option<+T> = None | Some(value: T)
}
