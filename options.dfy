/** A value that may be missing: `None` stands for an operation that raised instead of returning. */
module Options {
  datatype Option<+T> = None | Some(value: T)
}
