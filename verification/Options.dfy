/** A value that may be missing: a null pointer, or memory nobody wrote. */
module Options {
  datatype Option<T> = None | Some(value: T)
}
