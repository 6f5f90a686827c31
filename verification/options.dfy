/** The optional value shared by the models: Go's nil pointers and absent map entries. */
module Options {
  datatype Option<+T> = None | Some(value: T)
}
