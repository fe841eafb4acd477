/** Values that may be missing, as the source's None. */
module Options {
  datatype Option<+T> = None | Some(value: T)
}
