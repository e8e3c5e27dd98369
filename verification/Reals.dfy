/** Facts about products of reals, each small enough for the solver.  Mul and Sq name the products
    so that the facts apply to the caller's own terms. */
module Reals {

  function Mul(x: real, y: real): real { x * y }

  function Sq(x: real): real { x * x }

  function Abs(x: real): real { if x < 0.0 then -x else x }

  lemma MulSigns(a: real, b: real)
    ensures 0.0 < a && 0.0 < b ==> 0.0 < Mul(a, b)
    ensures 0.0 <= a && 0.0 <= b ==> 0.0 <= Mul(a, b)
  {
  }

  lemma SqSign(a: real)
    ensures 0.0 <= Sq(a) && (Sq(a) == 0.0 <==> a == 0.0)
  {
    MulSigns(a, a);
    MulSigns(-a, -a);
    assert Mul(a, a) == Sq(a) == Mul(-a, -a);
  }

  lemma SqNegate(a: real, b: real)
    requires a == -b
    ensures Sq(a) == Sq(b)
  {
  }

  lemma SqMul(a: real, b: real)
    ensures Sq(Mul(a, b)) == Mul(Sq(a), Sq(b))
  {
    assert (a * b) * (a * b) == (a * a) * (b * b);
  }

  /** Comparing with c is comparing the squares. */
  lemma SqCompare(z: real, c: real)
    requires 0.0 <= c
    ensures c <= Abs(z) <==> Sq(c) <= Sq(z)
  {
    var a := Abs(z);
    DifferenceOfSquares(c, a);
    DifferenceOfSquares(a, c);
    MulSigns(c - a, c + a);
    MulSigns(a - c, a + c);
    assert Sq(a) == Sq(z);
  }

  lemma DifferenceOfSquares(a: real, b: real)
    ensures Mul(a - b, a + b) == Sq(a) - Sq(b)
  {
  }

  lemma MulCompare(a: real, b: real, v: real)
    requires 0.0 < v
    ensures a <= b <==> Mul(a, v) <= Mul(b, v)
    ensures a == b <==> Mul(a, v) == Mul(b, v)
  {
    assert (b - a) * v == Mul(b, v) - Mul(a, v);
    if a < b {
      assert 0.0 < (b - a) * v;
    } else if b < a {
      assert 0.0 < (a - b) * v;
    }
  }

  lemma Quotient(z: real, d: real, v: real)
    requires 0.0 < v && z == d / v
    ensures Mul(z, v) == d
  {
  }
}
