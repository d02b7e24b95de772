/** A value that may be absent, shared by the table lookup and the step runner. */
module Wrappers {
  datatype Option<T> = None | Some(value: T)
}
