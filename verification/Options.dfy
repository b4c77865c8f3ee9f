/** A value that may be missing: Go's nil error, nil pointer or absent map entry. */
module Options {
  datatype Option<T> = None | Some(value: T)
}
