/** The result wrappers shared by the store's structures. */
module Options {
  datatype Option<+T> = None | Some(value: T)
}
