/** A value that may be missing: C's null pointers and absent results. */
module Options {
  datatype Option<+T> = None | Some(value: T)
}
