/** The optional value both scripts fall back on where Python returns `None`. */
module Wrappers {
  datatype Option<T> = None | Some(value: T)
}
