/** A value that may be missing: pandas' NaN and NaT, or a Python None. */
module Wrappers {

  datatype Option<+T> = None | Some(value: T)

}
