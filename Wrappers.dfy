/** Optional values: stands for Go's `(value, ok)` pairs and for nil collaborators. */
module Wrappers {
  datatype Option<+T> = None | Some(value: T)
}
