/** A value or its absence: a pointer that may be null, a result that may fail. */
module Options {
  datatype Option<+T> = None | Some(value: T)
}
