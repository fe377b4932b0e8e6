/** An optional value, for the dictionaries and null pointers of the modelled code. */
module Options {
  datatype Option<+T> = None | Some(value: T)
}
