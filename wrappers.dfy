module Wrappers {

  /** A Python value that may be `None` (or a key absent from a state dict). */
  datatype Option<+T> = None | Some(value: T)
}
