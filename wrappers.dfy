/** A value that may be missing: a pandas NaN/NaT cell, a cache miss. */
module Wrappers {

  datatype Option<+T> = None | Some(value: T)
}
