/** The optional-value type shared by every module of the binder model. */
module Wrappers {

  /** A value that may be absent: Go's nil pointer, nil slice or missing error. */
  datatype Option<+T> = None | Some(value: T)
}
