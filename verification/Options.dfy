/** A value that may be absent: JavaScript's `null`, `undefined` and missing fields. */
module Options {
  datatype Option<+T> = None | Some(value: T)
}
