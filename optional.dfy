/** Option and Result values, standing for Ruby's `nil` and for the exceptions that abort a run. */
module Optional {

  datatype Option<+T> = None | Some(value: T)

  datatype Result<+T, +E> = Ok(value: T) | Err(error: E)
}
