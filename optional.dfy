/** An optional value: a reference that may be null, a result that may be absent. */
module Optional {
  datatype Option<T> = None | Some(value: T)
}
