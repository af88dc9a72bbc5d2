/** An optional value: the source's `null`, a missing attribute, an element not found. */
module Wrappers {
  datatype Option<T> = None | Some(value: T)
}
