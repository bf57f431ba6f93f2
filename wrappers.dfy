/** The usual optional-value datatype, standing for the source's `null`/`undefined`. */
module Wrappers {
  datatype Option<+T> = None | Some(value: T)
}
