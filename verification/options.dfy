/** The usual optional value, used for the error paths of the model. */
module Options {

  datatype Option<+T> = None | Some(value: T)
}
