/** The optional value used for "no result" (Go's `(false, "")` pairs, a failed fetch). */
module Wrappers {

  datatype Option<+T> = None | Some(value: T)
}
