/** A value that may be absent: the NULL columns, empty tokens and nil pointers of the program. */
module Options {
  datatype Option<+T> = None | Some(value: T)
}
