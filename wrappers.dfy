/** Optional values, used for Python's `None` and for parsers that may reject their input. */
module Wrappers {
  datatype Option<+T> = None | Some(value: T)
}
