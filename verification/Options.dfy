/** The nullable column and the optional argument of the source. */
module Options {
  datatype Option<+T> = None | Some(value: T)
}
