/** An optional value: what the code expresses by None or by raising. */
module Options {
  datatype Option<+T> = None | Some(value: T)
}
