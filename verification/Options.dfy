/** An optional value, `undefined` in the program; and an outcome, an exception in the program. */
module Options {
  datatype Option<+T> = None | Some(value: T)

  datatype Result<+T, +E> = Ok(value: T) | Err(error: E)
}
