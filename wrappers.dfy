/** A value that may be missing: a file the engine could not open is `None`. */
module Wrappers {
  datatype Option<+T> = None | Some(value: T)
}
