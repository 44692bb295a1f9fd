/** Counting how many steps of a fixed size cover a distance. */
module Stepping {
  lemma QuotientMonotone(x: real, x': real, y: real)
    requires x <= x' && 0.0 < y
    ensures x / y <= x' / y
  {
    assert x == (x / y) * y && x' == (x' / y) * y;
  }

  /** How many steps of size d it takes to cover the distance x. */
  function Steps(x: real, d: real): int
    requires d > 0.0
  {
    -((-(x / d)).Floor)
  }

  lemma StepsMonotone(x: real, y: real, d: real)
    requires d > 0.0 && x <= y
    ensures Steps(x, d) <= Steps(y, d)
  {
    QuotientMonotone(x, y, d);
  }

  lemma QuotientShift(x: real, d: real)
    requires d > 0.0
    ensures (x - d) / d == x / d - 1.0
  {
    var p, q := (x - d) / d, x / d;
    assert p * d == x - d && q * d == x;
    var t := p - (q - 1.0);
    assert t * d == 0.0;
    assert t > 0.0 ==> t * d > 0.0;
    assert t < 0.0 ==> t * d < 0.0;
  }

  lemma CeilingShift(a: real, b: real)
    requires a <= b - 1.0
    ensures -((-a).Floor) <= -((-b).Floor) - 1
  {
  }

  lemma QuotientPositive(x: real, d: real)
    requires d > 0.0 && x > 0.0
    ensures x / d > 0.0
  {
    assert x == (x / d) * d;
  }

  /** A step shortens what is left by one, even when it is cut off at the end. */
  lemma StepsDecrease(x: real, y: real, d: real)
    requires d > 0.0 && x > 0.0 && (y <= x - d || y <= 0.0)
    ensures Steps(y, d) <= Steps(x, d) - 1
  {
    if y <= x - d {
      QuotientMonotone(y, x - d, d);
      QuotientShift(x, d);
      CeilingShift(y / d, x / d);
    } else {
      QuotientMonotone(y, 0.0, d);
      QuotientPositive(x, d);
    }
  }

  lemma StepsNonNegative(x: real, d: real)
    requires d > 0.0 && x >= 0.0
    ensures Steps(x, d) >= 0
  {
    QuotientMonotone(0.0, x, d);
  }
}
