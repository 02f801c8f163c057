/** The optional value used throughout the model for PHP's "null or a value". */
module Options {

  datatype Option<+T> = None | Some(value: T)
}
