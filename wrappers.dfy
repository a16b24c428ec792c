/** The optional value used for pandas' missing cells (NaN) and Python's None. */
module Wrappers {
  datatype Option<T> = None | Some(value: T)
}
