/** Small shared datatypes. */
module Wrappers {

  /** A value that may be absent: JavaScript's `undefined` / a missing row. */
  datatype Option<+T> = None | Some(value: T)
}
