/** The optional value shared by the models below: a Go pointer or map entry that may be missing. */
module Options {
  datatype Option<+T> = None | Some(value: T)
}
