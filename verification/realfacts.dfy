/** Small facts of real arithmetic, each kept to one nonlinear step so that the
    proofs that use them stay linear. */
module RealFacts {

  lemma MulPositive(a: real, b: real)
    requires a > 0.0 && b > 0.0
    ensures a * b > 0.0
  {
  }

  lemma MulMonotone(w: real, a: real, b: real)
    requires w > 0.0 && a < b
    ensures w * a < w * b
  {
    MulDistributes(w, b, a);
    MulPositive(w, b - a);
  }

  lemma ScaleMonotone(x: real, k1: real, k2: real)
    requires x > 0.0 && k1 <= k2
    ensures x * k1 <= x * k2
    ensures k1 < k2 ==> x * k1 < x * k2
  {
    MulDistributes(x, k2, k1);
    if k1 < k2 {
      MulPositive(x, k2 - k1);
    }
  }

  /** Two values `r1`, `r2` that exceed `d` by `x * k1` and `x * k2` are ordered as `k1`, `k2`. */
  lemma ShiftMonotone(d: real, x: real, k1: real, k2: real, r1: real, r2: real)
    requires x > 0.0 && k1 <= k2
    requires r1 - d == x * k1 && r2 - d == x * k2
    ensures r1 <= r2
    ensures k1 < k2 ==> r1 < r2
  {
    ScaleMonotone(x, k1, k2);
  }

  lemma MulDistributes(a: real, b: real, c: real)
    ensures a * b - a * c == a * (b - c)
  {
  }

  lemma DivDistributes(a: real, b: real, d: real)
    requires d != 0.0
    ensures a / d - b / d == (a - b) / d
  {
  }

  lemma DivScales(w: real, a: real, d: real)
    requires d != 0.0
    ensures (w * a) / d == w * (a / d)
  {
  }

  lemma MulCancels(w: real, a: real)
    requires w != 0.0
    ensures (w * a) / w == a
  {
  }

  lemma DivInverse(a: real, d: real)
    requires d != 0.0
    ensures (a / d) * d == a
  {
  }

  lemma ZeroProduct(x: real, d: real)
    requires d != 0.0 && x * d == 0.0
    ensures x == 0.0
  {
  }

  /** Dividing by a divisor above 1 shrinks a positive number, keeping it positive. */
  lemma DividePositive(a: real, d: real)
    requires a > 0.0 && d > 1.0
    ensures 0.0 < a / d < a
  {
    assert a - a / d == a * (d - 1.0) / d;
    MulPositive(a, d - 1.0);
  }

  /** A positive constant divided by a larger positive number is smaller. */
  lemma ReciprocalAntitone(c: real, x: real, y: real)
    requires c > 0.0 && 0.0 < y <= x
    ensures c / x <= c / y
    ensures y < x ==> c / x < c / y
  {
    assert c / y - c / x == c * (x - y) / (x * y);
    assert x * y > 0.0;
  }
}
