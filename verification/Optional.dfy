/** A value that may be missing, shared by the components that look things up. */
module Optional {
  datatype Option<T> = None | Some(value: T)
}
