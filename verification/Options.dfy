/** A value that may be absent: a null pointer, a closed handle, a missing match. */
module Options {
  datatype Option<+T> = None | Some(value: T)
}
