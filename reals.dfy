/**
 * Products of reals as terms of their own.  Bounds stated about Scale(f, d)
 * stay linear for the solver, whatever f and d are built from.
 */
module Reals {

  /** The product f * d. */
  function Scale(f: real, d: real): real
  {
    f * d
  }

  lemma MulNonNegative(x: real, y: real)
    requires 0.0 <= x && 0.0 <= y
    ensures 0.0 <= Scale(x, y)
  {
  }

  /** A fraction of a non-negative width lies between 0 and the width. */
  lemma ScaleBelow(f: real, d: real)
    requires 0.0 <= f <= 1.0 && 0.0 <= d
    ensures 0.0 <= Scale(f, d) <= d
  {
    assert d - f * d == (1.0 - f) * d;
  }

  /** Scaling a non-negative width keeps the order of the factors. */
  lemma ScaleMonotone(f1: real, f2: real, d: real)
    requires f1 <= f2 && 0.0 <= d
    ensures Scale(f1, d) <= Scale(f2, d)
  {
    assert f2 * d - f1 * d == (f2 - f1) * d;
  }
}
