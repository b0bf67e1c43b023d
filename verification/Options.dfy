/** The usual optional value: what a C function returns as a pointer that may be NULL. */
module Options {
  datatype Option<+T> = None | Some(value: T)
}
