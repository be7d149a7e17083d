/** Types shared by every module: optional values, results, bytes, identifiers and the API's error kinds. */
module Common {

  datatype Option<+T> = None | Some(value: T)

  /** The error kinds of the HTTP API that the modelled handlers return. */
  datatype Error = BadRequest | NotFound | Unauthorized | Forbidden | PayloadTooLarge | TooManyRequests | Other

  datatype Result<+T> = Ok(value: T) | Err(error: Error)

  newtype byte = x: int | 0 <= x < 256
  type Bytes = seq<byte>

  /** The printed form of a UUID: 36 characters, none of them a path separator. */
  type Uuid = s: string | |s| == 36 && '/' !in s witness "00000000-0000-0000-0000-000000000000"

  // Instants and durations are whole nanoseconds.
  const SECOND: int := 1_000_000_000
  const DAY: int := 86_400 * SECOND

  function Min(a: int, b: int): int { if a <= b then a else b }

  function Max(a: int, b: int): int { if a <= b then b else a }
}
