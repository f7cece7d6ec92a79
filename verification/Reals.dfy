/** Real arithmetic shared by the numeric modules. */
module Reals {

  /** Multiplication under a name, so that equal factors give equal products. */
  function Times(a: real, b: real): real { a * b }

  function Abs(x: real): real { if x < 0.0 then -x else x }

  function Least(a: real, b: real): real { if a < b then a else b }

  function Greatest(a: real, b: real): real { if a < b then b else a }

  /** Rounding to the nearest integer, halves upward. */
  function Round(x: real): int { (x + 0.5).Floor }

  lemma Divided(x: real, d: real)
    requires d != 0.0
    ensures Times(x / d, d) == x
  {
  }

  lemma CancelFactor(a: real, b: real, d: real)
    requires d != 0.0
    ensures Times(a, d) == Times(b, d) <==> a == b
  {
    assert (a - b) * d == a * d - b * d;
  }

  lemma Negate(a: real, b: real)
    ensures Times(-a, b) == -Times(a, b)
  {
  }
}
