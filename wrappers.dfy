/** Python's `None` as a value: the result of a lookup or a check that may fail. */
module Wrappers {
  datatype Option<+T> = None | Some(value: T)
}
