/** Values shared by the other modules: bytes, Go's 64-bit integers and the
    failure-carrying wrappers that stand for Go's `(value, error)` returns. */
module Common {

  /** A Go `byte`. */
  newtype byte = b: int | 0 <= b < 256

  /** A Go `[]byte`, and also a Go `string` where the code counts its bytes. */
  type Bytes = seq<byte>

  const MinInt64: int := -0x8000_0000_0000_0000
  const MaxInt64: int := 0x7FFF_FFFF_FFFF_FFFF

  /** A Go `int64` (and a Go `int` on a 64-bit platform). */
  type Int64 = x: int | MinInt64 <= x <= MaxInt64

  datatype Option<+T> = None | Some(value: T)

  /** A value or the error that Go would return beside a zero value. */
  datatype Result<+T, +E> = Ok(value: T) | Err(error: E)

  /** A Go `error` return: `nil` is Pass. */
  datatype Outcome<+E> = Pass | Fail(error: E)
}
