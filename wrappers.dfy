/** The usual Some/None wrapper, used for operations of the source that can raise. */
module Wrappers {
  datatype Option<+T> = None | Some(value: T)
}
