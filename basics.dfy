/** Small shared vocabulary: optional values, results, and integer helpers. */
module Basics {

  datatype Option<+T> = None | Some(value: T) {
    function GetOr(default: T): T {
      match this
      case Some(v) => v
      case None => default
    }
  }

  /** The outcome of a lookup that may raise (a Python `KeyError`). */
  datatype Result<+T> = Ok(value: T) | Err(missingKey: string)

  function Min(a: int, b: int): int {
    if a <= b then a else b
  }

  function Max(a: int, b: int): int {
    if a <= b then b else a
  }
}
