/** The optional value used wherever Python returns `None` or raises a parse error. */
module Wrappers {
  datatype Option<T> = None | Some(value: T)
}
