/** Types and values that several modules share. */
module Wrappers {
  datatype Option<+T> = None | Some(value: T)

  const NUL: char := '\0'

  predicate IsLineBreak(c: char) { c == '\n' || c == '\r' }

  function Bit(b: bool): nat { if b then 1 else 0 }
}
