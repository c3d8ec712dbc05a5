/** Small facts about products of reals. */
module Reals {

  lemma ProductPositive(a: real, b: real)
    requires a > 0.0 && b > 0.0
    ensures a * b > 0.0
  {
  }

  lemma ProductNonNegative(a: real, b: real)
    requires a >= 0.0 && b >= 0.0
    ensures a * b >= 0.0
  {
  }

  lemma ProductMonotone(a: real, b: real, c: real)
    requires c > 0.0 && a < b
    ensures a * c < b * c
  {
    var d := (b - a) * c;
    ProductPositive(b - a, c);
    assert d == b * c - a * c;
  }

  lemma ProductWeaklyMonotone(a: real, b: real, c: real)
    requires c >= 0.0 && a <= b
    ensures a * c <= b * c
  {
    var d := (b - a) * c;
    ProductNonNegative(b - a, c);
    assert d == b * c - a * c;
  }

  lemma Quotient(a: real, b: real) returns (x: real)
    requires b > 0.0
    ensures x == a / b && a == x * b
  {
    x := a / b;
  }
}
