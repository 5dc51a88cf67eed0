/** A value that may be absent: JavaScript's null for an object slot. */
module Optional {
  datatype Option<T> = None | Some(value: T)
}
