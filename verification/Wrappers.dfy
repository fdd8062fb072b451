/** The optional value used throughout the model for a pointer or a lookup that may be absent. */
module Wrappers {

  datatype Option<+T> = None | Some(value: T)
}
