/** A value that may be absent: the empty result set, the pointer that may be NULL. */
module Options {
  datatype Option<+T> = None | Some(value: T)
}
