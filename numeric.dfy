/** JavaScript's rounding, stated over exact reals. */
module Numeric {

  /** Math.round: the nearest integer, with halves rounded towards +infinity,
      which for every real x is the floor of x + 0.5. */
  function Round(x: real): (r: int)
    ensures x - 0.5 < r as real <= x + 0.5
  {
    (x + 0.5).Floor
  }

  /** Rounding an integer-valued real gives that integer back. */
  lemma RoundOfInteger(n: int)
    ensures Round(n as real) == n
  {
  }
}
