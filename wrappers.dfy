/** An Option for absent values: scores and distances that are NaN or minus infinity in the source. */
module Wrappers {

  /** A value that may be absent. */
  datatype Option<+T> = None | Some(value: T)
}
