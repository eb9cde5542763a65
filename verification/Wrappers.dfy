/** Values that may be missing: SQL NULL and Python's None. */
module Wrappers {
  datatype Option<+T> = None | Some(value: T)
}
