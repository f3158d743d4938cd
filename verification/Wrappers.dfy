/** The optional value other modules use. */
module Wrappers {
  datatype Option<+T> = None | Some(value: T)
}
