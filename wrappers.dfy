/** A value that may be absent: used for the focused control and for label lookups. */
module Wrappers {

  datatype Option<+T> = None | Some(value: T)
}
