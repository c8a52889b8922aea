/** The optional value shared by the modules below. */
module Wrappers {
  datatype Option<+T> = None | Some(value: T)
}
