/** Small failure-compatible wrapper used where the Go code returns an optional value or a nil error. */
module Wrappers {

  datatype Option<+T> = None | Some(value: T)

}
