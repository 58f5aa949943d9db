/** The optional value used where the source has `null` or a callback that may not be called. */
module Wrappers {
  datatype Option<+T> = None | Some(value: T)
}
