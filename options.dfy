/** The optional value used for "no best buy", "no candidate" and a failed solve. */
module Options {
  datatype Option<+T> = None | Some(value: T)
}
