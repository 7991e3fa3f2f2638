/** The optional value used across the model for JavaScript fields that may be absent. */
module Wrappers {

  datatype Option<+T> = None | Some(value: T)
}
