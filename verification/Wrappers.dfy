/** The optional value used throughout the model for references that may be nil. */
module Wrappers {
  datatype Option<+T> = None | Some(value: T)
}
