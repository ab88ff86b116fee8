/** The little arithmetic on reals that the figures need, with products kept behind a name. */
module Reals {
  /** `Math.max(0, x)`. */
  function AtLeastZero(x: real): real {
    if x < 0.0 then 0.0 else x
  }

  /** `Math.round`: halves go up. */
  function Round(x: real): real {
    (x + 0.5).Floor as real
  }

  lemma RoundingError(x: real)
    ensures -0.5 < Round(x) - x <= 0.5
  {
  }

  function Times(x: real, y: real): real {
    x * y
  }

  lemma TimesPositive(x: real, y: real)
    requires y > 0.0
    ensures x > 0.0 ==> Times(x, y) > 0.0
    ensures x >= 0.0 ==> Times(x, y) >= 0.0
  {
  }

  lemma TimesSum(x: real, y: real, z: real)
    ensures Times(x + y, z) == Times(x, z) + Times(y, z)
  {
  }

  lemma TimesDifference(x: real, y: real, z: real)
    ensures Times(x - y, z) == Times(x, z) - Times(y, z)
  {
  }
}
