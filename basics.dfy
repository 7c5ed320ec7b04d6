/** Small shared vocabulary: an optional value and integer bounds. */
module Basics {

  /** A value that may be absent: a missing query parameter, a record that was not found,
      a text that does not parse as a number. */
  datatype Option<+T> = None | Some(value: T)

  function Min(a: int, b: int): int { if a <= b then a else b }

  function Max(a: int, b: int): int { if a >= b then a else b }

  function MinReal(a: real, b: real): real { if a <= b then a else b }
}
