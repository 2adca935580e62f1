/** A value that may be missing: a nil value or error, or the second result of a map lookup. */
module Options {
  datatype Option<T> = None | Some(value: T)
}
