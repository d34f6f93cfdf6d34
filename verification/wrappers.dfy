/** An optional value: JavaScript's `null` for the row being edited, a
    missing document for a store read, an unwritten field in a merge. */
module Wrappers {
  datatype Option<T> = None | Some(value: T)
}
