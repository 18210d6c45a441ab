/** What several modules share. */
module Common {
  newtype byte = b: int | 0 <= b < 256

  datatype Option<T> = None | Some(value: T)

  function Max(a: int, b: int): int { if a > b then a else b }
  function Min(a: int, b: int): int { if a < b then a else b }

  function Distance(a: int, b: int): nat { if a > b then a - b else b - a }
}
