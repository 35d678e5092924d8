/** The conventional stand-in for a nil pointer. */
module Wrappers {
  datatype Option<+T> = None | Some(value: T)
}
