/** The result of anything that may fail without saying why. */
module Options {
  datatype Option<+T> = None | Some(value: T)
}
