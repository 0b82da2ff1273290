/** The optional value used for a deadline that may fail to parse. */
module Wrappers {
  datatype Option<+T> = None | Some(value: T)
}
