/** Small failure-compatible wrapper used by the registry model. */
module Wrappers {

  /** `Some(v)` for a value that was read successfully, `None` when reading failed. */
  datatype Option<+T> = None | Some(value: T)
}
