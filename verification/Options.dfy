/** An optional value: a pointer that may be null, a result that may be an error. */
module Options {
  datatype Option<+T> = None | Some(value: T)
}
