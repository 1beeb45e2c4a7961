/** Facts about products and quotients of reals, to be used one instance at a time. */
module Reals {

  function Square(a: real): real {
    a * a
  }

  /** Multiplication as a named function: equal factors then have equal products by congruence alone. */
  function Times(a: real, b: real): real {
    a * b
  }

  lemma MulDiv(a: real, b: real)
    requires b != 0.0
    ensures b * (a / b) == a
  {
  }

  lemma Associate(a: real, b: real, c: real)
    ensures (a * b) * c == a * (b * c)
  {
  }

  lemma SameFactor(a: real, b: real, c: real)
    requires a != 0.0 && a * b == a * c
    ensures b == c
  {
  }

  lemma ProductNonneg(a: real, b: real)
    requires a >= 0.0 && b >= 0.0
    ensures a * b >= 0.0
  {
  }

  lemma FactorNonneg(a: real, b: real)
    requires a > 0.0 && a * b >= 0.0
    ensures b >= 0.0
  {
  }

  lemma Exchange(a: real, b: real, c: real, d: real)
    ensures (a * b) * (c * d) == (a * c) * (b * d)
  {
  }

  lemma Reorder(a: real, b: real, c: real)
    ensures a * (b * c) == b * (a * c)
  {
  }

  lemma FactorsAgree(a: real, b: real, c: real, ab: real, bc: real)
    requires a * b == ab && b * c == bc
    ensures ab * c == a * bc
  {
    Associate(a, b, c);
  }

  lemma Cancel(a: real, b: real, c: real)
    requires a != 0.0 && a * b == c && c == a
    ensures b == 1.0
  {
  }
}
