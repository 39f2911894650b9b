/** Shared optional value, standing for Python's `None` and for a missing dictionary entry. */
module Base {
  datatype Option<+T> = None | Some(value: T)
}
