/** The optional value used for nullable column values. */
module Wrappers {
  datatype Option<+T> = None | Some(value: T)
}
