/** Results of the value readers. */
module Results {

  datatype Option<+T> = None | Some(value: T)

  datatype Error =
    | EOF
    | UnexpectedEOF
    | ShortBuffer
    | InvalidHeaderByte
    | InvalidExtByte
    | Overflow
    | GzipHeader
    | Corrupt
    | BadCount
    | TagTooShort
    | TagTooLong
    | InvalidEntry
    | AckFailed
    | NotExist
    | WriteFailed

  /** What a reader of a byte slice does: a value and the offset behind it, an error, or a slice
      expression out of bounds, which Go turns into a panic. */
  datatype Read<+T> = Ok(value: T, next: int) | Err(error: Error) | Panic
}
