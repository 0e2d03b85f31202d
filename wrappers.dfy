/** The optional value that the session's refusals and the label lookup return. */
module Wrappers {
  datatype Option<T> = None | Some(value: T)
}
