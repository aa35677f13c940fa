/** An optional value: a missing key, a null column, an unset lock. */
module Options {
  datatype Option<+T> = None | Some(value: T)
}
