/** The optional value that the modules of this project share. */
module Options {
  datatype Option<+T> = None | Some(value: T)
}
