/** A value that may be absent: a nullable column, a missing property, a failed lookup. */
module Options {
  datatype Option<+T> = None | Some(value: T)
}
