/** The optional value used wherever the analyser returns a pointer that may be null. */
module Options {
  datatype Option<+T> = None | Some(value: T)
}
