/** The one generic result type the text modules share. */
module Options {
  datatype Option<+T> = None | Some(value: T)
}
