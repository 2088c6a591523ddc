/** The optional value: Go's nil pointer, nil interface or comma-ok result. */
module Options {
  datatype Option<+T> = None | Some(value: T)
}
