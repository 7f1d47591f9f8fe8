/** The conventional optional value, used where the source returns or stores a null pointer. */
module Options {
  datatype Option<+T> = None | Some(value: T)
}
