/** The optional value used for request fields and driver errors. */
module Wrappers {

  /** A value that may be absent: a JSON field that is missing or null, a query
      parameter that was not given, or a driver callback that got no error. */
  datatype Option<+T> = None | Some(value: T)
}
