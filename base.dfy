/** Shared value types: optional values, the error kinds the tool surfaces,
    and the fixed-width integers the records carry. */
module Base {

  datatype Option<+T> = None | Some(value: T)

  /** What a failed operation carries.  The source boxes every error as a
      `dyn Error`; here each category is its own constructor. */
  datatype Error =
    | SpawnFailed                 // machinectl could not be started
    | OpFailed(message: string)   // non-zero exit status, with the operation's fixed message
    | DecodeFailed                // stdout was not UTF-8 or not the expected JSON
    | NetworkFailed               // the HTTP request failed
    | Panic                       // the Rust code panics (indexing an empty vector)

  datatype Result<+T> = Ok(value: T) | Err(error: Error)

  type Unit = ()

  /** Rust's `u16` (the `--width` option). */
  type u16 = x: int | 0 <= x < 0x1_0000

  /** Rust's `i64` (timestamps, MTU, interface index). */
  type i64 = x: int | -0x8000_0000_0000_0000 <= x < 0x8000_0000_0000_0000

  /** Concatenation of sequences is associative. */
  lemma AppendAssoc<T>(a: seq<T>, b: seq<T>, c: seq<T>)
    ensures (a + b) + c == a + (b + c)
  {
  }
}
