/** An optional value: Go's `value, ok` results. */
module Wrappers {
  datatype Option<T> = None | Some(value: T)
}
