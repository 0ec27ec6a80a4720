/** Values that may be missing, and calls that may not return. */
module Options {

  datatype Option<+T> = None | Some(value: T)

  /** What a call returns, or that it raises or throws instead. */
  datatype Result<+T> = Ok(value: T) | Raised
}
