/** The nil-or-value wrapper the rest of the model uses for Go's nil-able maps. */
module Wrappers {

  /** `None` plays the role of a Go nil; `Some(v)` a non-nil value `v`. */
  datatype Option<+T> = None | Some(value: T)
}
