/** The usual present-or-absent result. */
module Options {
  datatype Option<+T> = None | Some(value: T)
}
