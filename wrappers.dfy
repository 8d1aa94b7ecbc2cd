/** The optional value that the dispatcher returns: a serialized book, or nothing. */
module Wrappers {
  datatype Option<+T> = None | Some(value: T)
}
