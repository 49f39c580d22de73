/** A value or nothing: Go's nil pointers, nil errors and missing map entries. */
module Options {
  datatype Option<+T> = None | Some(value: T)
}
