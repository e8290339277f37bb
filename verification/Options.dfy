/** The optional value used for the source's nil pointers. */
module Options {
  datatype Option<+T> = None | Some(value: T)
}
