/** Facts about products and quotients, one at a time, for naturals and for reals. */
module Arithmetic {

  function Min(a: nat, b: nat): nat { if a < b then a else b }

  function MinReal(a: real, b: real): real { if a < b then a else b }

  function MaxReal(a: real, b: real): real { if a < b then b else a }

  function Power(x: real, n: nat): real {
    if n == 0 then 1.0 else x * Power(x, n - 1)
  }

  // ----- naturals

  lemma DivBounds(x: nat, y: nat)
    requires y > 0
    ensures x / y * y <= x < (x / y + 1) * y
  {
  }

  lemma Monotone(a: int, b: int, c: nat)
    ensures a <= b ==> a * c <= b * c
  {
  }

  lemma CancelLess(a: nat, b: nat, c: nat)
    requires c > 0 && a * c < b * c
    ensures a < b
  {
  }

  lemma RealProduct(x: nat, y: nat, p: nat)
    requires p == x * y
    ensures p as real == x as real * y as real
  {
  }

  // ----- reals

  lemma Quotient(x: real, y: real)
    requires y > 0.0
    ensures x / y * y == x && (x > 0.0 <==> x / y > 0.0) && (x == 0.0 <==> x / y == 0.0)
  {
  }

  lemma Product(a: real, b: real)
    requires a >= 0.0 && b >= 0.0
    ensures a * b >= 0.0
  {
  }

  lemma PositiveProduct(a: real, b: real)
    requires a > 0.0 && b > 0.0
    ensures a * b > 0.0
  {
  }

  lemma PositiveFactor(a: real, b: real, c: real)
    requires a > 0.0 && a * b == c && c > 0.0
    ensures b > 0.0
  {
  }

  lemma LessEqualTimes(a: real, b: real, c: real)
    requires a <= b && c >= 0.0
    ensures a * c <= b * c
  {
  }

  lemma LessTimes(a: real, b: real, c: real)
    requires a < b && c > 0.0
    ensures a * c < b * c
  {
  }

  lemma CancelLessEqual(c: real, a: real, b: real)
    requires c > 0.0 && a * c <= b * c
    ensures a <= b
  {
  }

  lemma PartAtMost(x: real, y: real)
    requires x <= 1.0 && y >= 0.0
    ensures x * y <= y
  {
    assert (1.0 - x) * y >= 0.0;
  }

  lemma QuotientOfProduct(x: real, y: real, d: real)
    requires d > 0.0
    ensures x * y / d == (x / d) * y
  {
    var r := x / d;
    assert (r * y) * d == x * y;
  }
}
