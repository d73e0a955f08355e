/** A value that may be absent: the model of a possibly null pointer or a lookup that may miss. */
module Wrappers {
  datatype Option<+T> = None | Some(value: T)
}
