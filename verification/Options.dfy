/** A value that may be missing: a null pointer, an action that is not possible. */
module Options {
  datatype Option<+T> = None | Some(value: T)
}
