/** An optional value: the model's stand-in for PHP's NULL-or-value variables. */
module Options {

  datatype Option<+T> = None | Some(value: T)
}
