/** The optional value used throughout the model, for Go's nil pointers and nil errors. */
module Wrappers {
  datatype Option<+T> = None | Some(value: T)
}
