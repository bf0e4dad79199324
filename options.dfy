/** The optional value used for a contact's socket address. */
module Options {

  datatype Option<+T> = None | Some(value: T)
}
