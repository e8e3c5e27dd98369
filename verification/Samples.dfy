/** Finite sums over samples, the common ground of the scoring algorithms. */
module Samples {
  import opened Reals

  function Sum(xs: seq<real>): real {
    if xs == [] then 0.0 else Sum(xs[..|xs| - 1]) + xs[|xs| - 1]
  }

  function Map(xs: seq<real>, f: real -> real): (r: seq<real>)
    ensures |r| == |xs| && forall i :: 0 <= i < |xs| ==> r[i] == f(xs[i])
  {
    seq(|xs|, i requires 0 <= i < |xs| => f(xs[i]))
  }

  function Squares(xs: seq<real>): seq<real> {
    Map(xs, x => Sq(x))
  }

  /** The samples as distances from `c`. */
  function Shift(xs: seq<real>, c: real): seq<real> {
    Map(xs, x => x - c)
  }

  function Scale(xs: seq<real>, k: real): seq<real> {
    Map(xs, x => Mul(x, k))
  }

  function Mean(xs: seq<real>): real
    requires xs != []
  {
    Sum(xs) / |xs| as real
  }

  /** The population variance: the mean of the squared distances from the mean. */
  function Variance(xs: seq<real>): real
    requires xs != []
  {
    Sum(Squares(Shift(xs, Mean(xs)))) / |xs| as real
  }

  lemma {:induction false} SumNonNegative(xs: seq<real>)
    requires forall i :: 0 <= i < |xs| ==> 0.0 <= xs[i]
    ensures 0.0 <= Sum(xs)
    ensures forall i :: 0 <= i < |xs| ==> xs[i] <= Sum(xs)
  {
    if xs != [] {
      SumNonNegative(xs[..|xs| - 1]);
    }
  }

  lemma SquaresFront(xs: seq<real>)
    requires xs != []
    ensures Squares(xs)[..|xs| - 1] == Squares(xs[..|xs| - 1])
  {
  }

  lemma {:induction false} SumShift(xs: seq<real>, c: real)
    ensures Sum(Shift(xs, c)) == Sum(xs) - c * |xs| as real
  {
    if xs != [] {
      SumShift(xs[..|xs| - 1], c);
      assert Shift(xs, c)[..|xs| - 1] == Shift(xs[..|xs| - 1], c);
    }
  }

  /** The distances from the mean cancel out. */
  lemma DeviationsCancel(xs: seq<real>)
    requires xs != []
    ensures Sum(Shift(xs, Mean(xs))) == 0.0
  {
    SumShift(xs, Mean(xs));
  }

  lemma {:induction false} SumScale(xs: seq<real>, k: real)
    ensures Sum(Scale(xs, k)) == Mul(Sum(xs), k)
  {
    if xs != [] {
      SumScale(xs[..|xs| - 1], k);
      assert Scale(xs, k)[..|xs| - 1] == Scale(xs[..|xs| - 1], k);
    }
  }

  /** Cauchy-Schwarz against the constant 1. */
  lemma {:induction false} SquareOfSum(xs: seq<real>)
    ensures Sq(Sum(xs)) <= Mul(|xs| as real, Sum(Squares(xs)))
  {
    if xs != [] {
      var front, a := xs[..|xs| - 1], xs[|xs| - 1];
      SquareOfSum(front);
      SquaresFront(xs);
      SquareStep(Sum(front), Sum(Squares(front)), a, |front| as real);
    }
  }

  lemma SquareStep(s: real, q: real, a: real, n: real)
    requires Sq(s) <= Mul(n, q) && 0.0 <= n && (n == 0.0 ==> s == 0.0 && q == 0.0)
    ensures Sq(s + a) <= Mul(n + 1.0, q + Sq(a))
  {
    if 0.0 < n {
      SqSign(s - Mul(n, a));
      Expand(s, q, a, n);
      MulCompare(0.0, q + Mul(n, Sq(a)) - 2.0 * Mul(s, a), n);
    }
    assert Sq(s + a) == Sq(s) + 2.0 * Mul(s, a) + Sq(a);
    assert Mul(n + 1.0, q + Sq(a)) == Mul(n, q) + Mul(n, Sq(a)) + q + Sq(a);
  }

  lemma Expand(s: real, q: real, a: real, n: real)
    ensures Mul(q + Mul(n, Sq(a)) - 2.0 * Mul(s, a), n) == Mul(n, q) - Sq(s) + Sq(s - Mul(n, a))
    ensures Mul(0.0, n) == 0.0
  {
    assert (s - n * a) * (s - n * a) == s * s - 2.0 * (n * (s * a)) + n * (n * (a * a));
    assert (q + n * (a * a) - 2.0 * (s * a)) * n == n * q + n * (n * (a * a)) - 2.0 * (n * (s * a));
  }
}
