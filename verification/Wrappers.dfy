/** The optional value used where the drivers may have nothing to return. */
module Wrappers {
  datatype Option<+T> = None | Some(value: T)
}
