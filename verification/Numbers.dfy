/** Minimum, maximum and Python's truncation toward zero. */
module Numbers {

  function Max(a: int, b: int): int { if a < b then b else a }

  function Min(a: int, b: int): int { if a < b then a else b }

  function MaxReal(a: real, b: real): (m: real)
    ensures m >= a && m >= b && m in {a, b}
  {
    if a < b then b else a
  }

  function MinReal(a: real, b: real): (m: real)
    ensures m <= a && m <= b && m in {a, b}
  {
    if b < a then b else a
  }

  /** Python's `int()` on a float: truncation toward zero. */
  function Trunc(x: real): int {
    if x >= 0.0 then x.Floor else -((-x).Floor)
  }
}
