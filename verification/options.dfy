/** The optional value used where the sources return null, nil or None. */
module Options {
  datatype Option<+T> = None | Some(value: T)
}
