/** A value that may be missing: the absent header, the empty queue, no matching route. */
module Wrappers {
  datatype Option<+T> = None | Some(value: T)
}
