/** The optional value used where the program either has something or not. */
module Options {
  datatype Option<+T> = None | Some(value: T)
}
