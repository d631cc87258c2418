/** A value or nothing: the source's null pointers and boolean returns with an out-parameter. */
module Options {
  datatype Option<T> = None | Some(value: T)
}
