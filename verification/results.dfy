/** Go's `(value, error)` returns and optional values, as datatypes.
    Every `string` in this project stands for a Go string: one `char` per byte. */
module Results {

  /** An optional value: a missing attribute, a failed parse. */
  datatype Option<+T> = None | Some(value: T)

  /** The outcome of a Go call returning `(T, error)`: `Err` is a non-nil error. */
  datatype Result<+T> = Ok(value: T) | Err {

    /** The value the Go caller keeps when it discards the error with `_`:
        the function's own fallback (`0`, `""`) when the call failed. */
    function ValueOr(default: T): T {
      if Ok? then value else default
    }
  }
}
