/** Small shared vocabulary: optional values, results and the identifiers every component uses. */
module Common {

  datatype Option<+T> = None | Some(value: T)

  datatype Result<+T, +E> = Ok(value: T) | Err(error: E)

  // How one remote command goes: done and answered, not done, or done although the caller sees it raise.
  datatype Fate = Fine | NotDone | ReplyLost

  // Database and request identifiers. The program draws uuid4 values; only equality matters here.
  type Id = nat

  function Max(a: int, b: int): int {
    if a < b then b else a
  }

  function Min(a: int, b: int): int {
    if a < b then a else b
  }
}
