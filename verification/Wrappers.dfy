/** The optional value used where the library has a null pointer or an error code. */
module Wrappers {
  datatype Option<+T> = None | Some(value: T)
}
