/** Values shared by every module: optional results, error texts and bytes. */
module Base {

  datatype Option<+T> = None | Some(value: T)

  datatype Result<+T, +E> = Ok(value: T) | Err(error: E)

  /** The text of a Go error. None of the errors of the program is worded as the empty string. */
  type ErrText = s: string | s != "" witness "error"

  newtype byte = b: int | 0 <= b < 256

  type bytes = seq<byte>

  /** SHA-256 is never looked into: it is any function from byte streams to 32 bytes. */
  type Sum256 = s: bytes | |s| == 32 witness seq(32, _ => 0 as byte)

  type Hash = bytes -> Sum256
}
