/** A C pointer that may be NULL, as an option value. */
module Wrappers {
  datatype Option<+T> = None | Some(value: T)
}
