/** The conventional optional value, used for Go's nil errors, missing map entries and one-slot channels. */
module Options {

  datatype Option<+T> = None | Some(value: T)
}
