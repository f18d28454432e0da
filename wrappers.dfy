/** The optional-value datatype used for absent units and infinite distances. */
module Wrappers {
  datatype Option<+T> = None | Some(value: T)
}
