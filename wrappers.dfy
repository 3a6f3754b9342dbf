/** The usual optional-value datatype, used for JavaScript's "missing or not of the expected type". */
module Wrappers {
  datatype Option<+T> = None | Some(value: T)
}
