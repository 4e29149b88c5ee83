/** The optional value used for Go's `error` results (nil or a message). */
module Wrappers {
  datatype Option<+T> = None | Some(value: T)
}
