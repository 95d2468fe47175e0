/** Small shared datatypes. */
module Common {

  /** A value that may be absent (JavaScript `null`/`undefined`, or NaN from a failed parse). */
  datatype Option<+T> = None | Some(value: T)
}
