/** Option and Result values: the model's stand-ins for Go's nil pointers and
    its (value, error) return pairs. */
module Results {

  /** A pointer that may be nil. */
  datatype Option<+T> = None | Some(value: T)

  /** A Go (value, error) pair where exactly one side is meaningful. */
  datatype Result<+T, +E> = Ok(value: T) | Err(error: E)

  /** An octet, as in Go's []byte. */
  newtype byte = x: int | 0 <= x < 256
}
