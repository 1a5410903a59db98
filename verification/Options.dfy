/** The conventional optional value, used for None in the program. */
module Options {
  datatype Option<+T> = None | Some(value: T)
}
