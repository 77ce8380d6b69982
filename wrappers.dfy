/** Option, the shape of a value that may be absent (a missing header, a library call that failed). */
module Wrappers {
  datatype Option<+T> = None | Some(value: T)
}
