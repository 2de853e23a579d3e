module Wrappers {
  /** An optional value: SQL NULL, Python None, a query that found no row. */
  datatype Option<+T> = None | Some(value: T)
}
