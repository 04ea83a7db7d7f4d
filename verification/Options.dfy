/** A value or none: a missing entry, an unreadable word, an undecoded instruction. */
module Options {
  datatype Option<+T> = None | Some(value: T)
}
