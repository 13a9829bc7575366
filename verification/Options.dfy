module Options {
  /** A value that may be absent; an absent time is the zero time. */
  datatype Option<+T> = None | Some(value: T)
}
