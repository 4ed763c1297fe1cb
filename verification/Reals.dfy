/** Small facts about real numbers shared by the baselines. */
module Reals {

  function Min(a: real, b: real): real {
    if b < a then b else a
  }

  lemma MulNonNegative(x: real, y: real)
    requires x >= 0.0 && y >= 0.0
    ensures x * y >= 0.0
  {
  }
}
