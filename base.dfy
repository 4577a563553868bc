/** Small value types shared by every module of the model. */
module Base {

  /** An optional value, as Rust's `Option`. */
  datatype Option<+T> = None | Some(value: T)

  /** A value or an error, as Rust's `Result`. */
  datatype Result<+T, +E> = Ok(value: T) | Err(error: E)

  /** One octet of a frame buffer (`u8`). */
  newtype byte = x: int | 0 <= x < 0x100

  /** An operating-system I/O error other than end-of-file, identified by its
      error code. End-of-file is never represented by this type: the file
      source handles it itself and never reports it. */
  datatype IoError = IoError(code: int)

  function Min(a: int, b: int): (m: int)
    ensures m <= a && m <= b && (m == a || m == b)
  {
    if a <= b then a else b
  }
}
