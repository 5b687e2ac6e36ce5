/** Result types shared by the other modules. */
module Common {

  datatype Option<+T> = None | Some(value: T)

  /** A Go `(value, error)` pair: exactly one of the two is meaningful. */
  datatype Result<+T> = Ok(value: T) | Err(message: string)

  /** A date as text, with what `Date.parse` makes of it: milliseconds, or nothing. */
  datatype Stamp = Stamp(text: string, millis: Option<int>)
}
