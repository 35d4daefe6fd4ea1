/** The optional value used wherever the source has a null pointer, a null entry or None. */
module Options {
  datatype Option<+T> = None | Some(value: T)
}
