/** The optional value used where a Go function can come back empty-handed. */
module Wrappers {
  datatype Option<T> = None | Some(value: T)
}
