/** The trend line of the forecast-residual algorithm (internal/algorithms/runner.go): sample i has
    the abscissa i.  The fit is the least-squares line, and the only one. */
module LinearFits {
  import opened Reals
  import opened Samples
  import ZScores

  /** Sum of the indexes 0 .. n - 1. */
  function SumX(n: nat): real {
    if n == 0 then 0.0 else SumX(n - 1) + (n - 1) as real
  }

  /** Sum of their squares. */
  function SumXX(n: nat): real {
    if n == 0 then 0.0 else SumXX(n - 1) + Sq((n - 1) as real)
  }

  /** Sum of index times sample. */
  function SumXY(ys: seq<real>): real {
    if ys == [] then 0.0 else SumXY(ys[..|ys| - 1]) + Mul((|ys| - 1) as real, ys[|ys| - 1])
  }

  function Denominator(n: nat): real {
    Mul(n as real, SumXX(n)) - Sq(SumX(n))
  }

  method LinearFit(ys: seq<real>) returns (intercept: real, slope: real)
    ensures ys == [] ==> intercept == 0.0 && slope == 0.0
    ensures |ys| == 1 ==> intercept == ys[0] && slope == 0.0
    ensures 2 <= |ys| ==> IsFit(ys, intercept, slope)
  {
    if ys == [] {
      return 0.0, 0.0;
    }
    var n := |ys| as real;
    var sumX, sumY, sumXY, sumXX := NormalSums(ys);
    var denominator := Mul(n, sumXX) - Sq(sumX);
    DenominatorPositive(|ys|);
    if denominator == 0.0 {
      SingleSample(ys);
      intercept, slope := sumY / n, 0.0;
    } else {
      var covariance := Mul(n, sumXY) - Mul(sumX, sumY);
      slope := covariance / denominator;
      Quotient(slope, covariance, denominator);
      var rest := sumY - Mul(slope, sumX);
      intercept := rest / n;
      Quotient(intercept, rest, n);
      SolvesNormalEquations(ys, slope, intercept);
    }
  }

  method NormalSums(ys: seq<real>) returns (sumX: real, sumY: real, sumXY: real, sumXX: real)
    ensures sumX == SumX(|ys|) && sumXX == SumXX(|ys|) && sumY == Sum(ys) && sumXY == SumXY(ys)
  {
    sumX, sumY, sumXY, sumXX := 0.0, 0.0, 0.0, 0.0;
    for i := 0 to |ys|
      invariant sumX == SumX(i) && sumXX == SumXX(i)
      invariant sumY == Sum(ys[..i]) && sumXY == SumXY(ys[..i])
    {
      assert ys[..i + 1][..i] == ys[..i];
      var x := i as real;
      sumX := sumX + x;
      sumY := sumY + ys[i];
      sumXY := sumXY + x * ys[i];
      sumXX := sumXX + x * x;
    }
    assert ys[..|ys|] == ys;
  }

  lemma SingleSample(ys: seq<real>)
    requires ys != []
    ensures |ys| == 1 ==> Sum(ys) / |ys| as real == ys[0] && Denominator(1) == 0.0
  {
    if |ys| == 1 {
      assert ys[..0] == [];
    }
  }

  /** n (n - 1) / 2 and n (n - 1) (2 n - 1) / 6. */
  lemma {:induction false} ClosedForms(n: nat)
    ensures 2.0 * SumX(n) == Mul(n as real, n as real - 1.0)
    ensures 6.0 * SumXX(n) == Mul(Mul(n as real, n as real - 1.0), 2.0 * n as real - 1.0)
  {
    if n > 0 {
      ClosedForms(n - 1);
      ClosedStep((n - 1) as real);
    }
  }

  lemma ClosedStep(m: real)
    ensures Mul(m, m - 1.0) + 2.0 * m == Mul(m + 1.0, m)
    ensures Mul(Mul(m, m - 1.0), 2.0 * m - 1.0) + 6.0 * Sq(m) == Mul(Mul(m + 1.0, m), 2.0 * m + 1.0)
  {
    assert m * (m - 1.0) == m * m - m;
    assert (m * m - m) * (2.0 * m - 1.0) == 2.0 * (m * m * m) - 3.0 * (m * m) + m;
    assert (m * m + m) * (2.0 * m + 1.0) == 2.0 * (m * m * m) + 3.0 * (m * m) + m;
  }

  /** The denominator is n^2 (n^2 - 1) / 12, so it is 0 for one sample and positive beyond. */
  lemma DenominatorPositive(n: nat)
    ensures 12.0 * Denominator(n) == Mul(Sq(n as real), Sq(n as real) - 1.0)
    ensures Denominator(n) == 0.0 <==> n <= 1
    ensures 0.0 <= Denominator(n)
  {
    var r := n as real;
    ClosedForms(n);
    ClosedDenominator(r, SumX(n), SumXX(n));
    if 2 <= n {
      assert 2.0 <= r;
      DifferenceOfSquares(r, 1.0);
      MulSigns(r - 1.0, r + 1.0);
      SqSign(r);
      MulSigns(Sq(r), Sq(r) - 1.0);
    }
  }

  lemma ClosedDenominator(r: real, x: real, xx: real)
    requires 2.0 * x == Mul(r, r - 1.0) && 6.0 * xx == Mul(Mul(r, r - 1.0), 2.0 * r - 1.0)
    ensures 12.0 * (Mul(r, xx) - Sq(x)) == Mul(Sq(r), Sq(r) - 1.0)
  {
    var p := r * (r - 1.0);
    assert p == r * r - r;
    assert 4.0 * (x * x) == p * p;
    assert 6.0 * (r * xx) == r * (p * (2.0 * r - 1.0));
    assert p * p == r * r * r * r - 2.0 * (r * r * r) + r * r;
    assert p * (2.0 * r - 1.0) == 2.0 * (r * r * r) - 3.0 * (r * r) + r;
    assert r * (p * (2.0 * r - 1.0)) == 2.0 * (r * r * r * r) - 3.0 * (r * r * r) + r * r;
    assert (r * r) * (r * r - 1.0) == r * r * r * r - r * r;
  }

  // ----- Residuals -----

  function Line(a: real, b: real, i: nat): real { a + Mul(b, i as real) }

  function Residuals(ys: seq<real>, a: real, b: real): (r: seq<real>)
    ensures |r| == |ys| && forall i :: 0 <= i < |ys| ==> r[i] == ys[i] - Line(a, b, i)
  {
    seq(|ys|, i requires 0 <= i < |ys| => ys[i] - Line(a, b, i))
  }

  /** The residuals cancel out and are orthogonal to the index. */
  predicate IsFit(ys: seq<real>, a: real, b: real) {
    Sum(Residuals(ys, a, b)) == 0.0 && SumXY(Residuals(ys, a, b)) == 0.0
  }

  lemma {:induction false} ResidualSums(ys: seq<real>, a: real, b: real)
    ensures Sum(Residuals(ys, a, b)) == Sum(ys) - Mul(|ys| as real, a) - Mul(b, SumX(|ys|))
    ensures SumXY(Residuals(ys, a, b)) == SumXY(ys) - Mul(a, SumX(|ys|)) - Mul(b, SumXX(|ys|))
  {
    if ys != [] {
      ResidualSums(ys[..|ys| - 1], a, b);
      assert Residuals(ys, a, b)[..|ys| - 1] == Residuals(ys[..|ys| - 1], a, b);
      ResidualStep((|ys| - 1) as real, ys[|ys| - 1], a, b, SumX(|ys| - 1), SumXX(|ys| - 1));
    }
  }

  lemma ResidualStep(x: real, y: real, a: real, b: real, sx: real, sxx: real)
    ensures Mul(x + 1.0, a) == Mul(x, a) + a
    ensures Mul(b, sx + x) == Mul(b, sx) + Mul(b, x)
    ensures Mul(b, sxx + Sq(x)) == Mul(b, sxx) + Mul(b, Sq(x))
    ensures Mul(a, sx + x) == Mul(a, sx) + Mul(a, x)
    ensures Mul(x, y - (a + Mul(b, x))) == Mul(x, y) - Mul(a, x) - Mul(b, Sq(x))
  {
    assert x * (y - (a + b * x)) == x * y - a * x - b * (x * x);
  }

  /** Cramer's rule for the two normal equations. */
  lemma Cramer(n: real, x: real, y: real, xy: real, xx: real, slope: real, intercept: real, det: real)
    requires 0.0 < n && 0.0 < det && det == Mul(n, xx) - Sq(x)
    requires Mul(slope, det) == Mul(n, xy) - Mul(x, y) && Mul(intercept, n) == y - Mul(slope, x)
    ensures y - Mul(n, intercept) - Mul(slope, x) == 0.0
    ensures xy - Mul(intercept, x) - Mul(slope, xx) == 0.0
  {
    assert slope * det == n * (slope * xx) - slope * x * x;
    assert n * (intercept * x) == y * x - slope * x * x by { assert n * (intercept * x) == (intercept * n) * x; }
    assert n * (xy - intercept * x - slope * xx) == 0.0;
  }

  lemma SolvesNormalEquations(ys: seq<real>, slope: real, intercept: real)
    requires 0.0 < Denominator(|ys|) && ys != []
    requires Mul(slope, Denominator(|ys|)) == Mul(|ys| as real, SumXY(ys)) - Mul(SumX(|ys|), Sum(ys))
    requires Mul(intercept, |ys| as real) == Sum(ys) - Mul(slope, SumX(|ys|))
    ensures IsFit(ys, intercept, slope)
  {
    Cramer(|ys| as real, SumX(|ys|), Sum(ys), SumXY(ys), SumXX(|ys|), slope, intercept, Denominator(|ys|));
    ResidualSums(ys, intercept, slope);
  }

  // ----- Least squares -----

  function SquaredError(ys: seq<real>, a: real, b: real): real {
    Sum(Squares(Residuals(ys, a, b)))
  }

  /** The squared distance between two lines over the first n indexes, by their differences. */
  function Gap(n: nat, p: real, q: real): real {
    if n == 0 then 0.0 else Gap(n - 1, p, q) + Sq(Line(p, q, n - 1))
  }

  lemma {:induction false} GapSign(n: nat, p: real, q: real)
    ensures 0.0 <= Gap(n, p, q)
    ensures 2 <= n && Gap(n, p, q) == 0.0 ==> p == 0.0 && q == 0.0
  {
    if n > 0 {
      SqSign(Line(p, q, n - 1));
      GapSign(n - 1, p, q);
    }
    if n == 2 {
      assert Gap(2, p, q) == Gap(1, p, q) + Sq(Line(p, q, 1));
      assert Gap(1, p, q) == Gap(0, p, q) + Sq(Line(p, q, 0));
      SqSign(Line(p, q, 0));
      assert Line(p, q, 0) == p && Line(p, q, 1) == p + q;
    }
  }

  lemma ErrorStep(y: real, a: real, b: real, c: real, d: real, i: real)
    ensures Sq(y - (a + Mul(b, i))) == Sq(y - (c + Mul(d, i))) + Sq((a - c) + Mul(b - d, i))
      - 2.0 * (Mul(a - c, y - (c + Mul(d, i))) + Mul(b - d, Mul(i, y - (c + Mul(d, i)))))
  {
    var r, g := y - (c + d * i), (a - c) + (b - d) * i;
    assert y - (a + b * i) == r - g;
    assert (r - g) * (r - g) == r * r - 2.0 * (r * g) + g * g;
    assert r * g == (a - c) * r + (b - d) * (i * r);
  }

  /** The error of any line, seen from any other line. */
  lemma {:induction false} ErrorDecomposition(ys: seq<real>, a: real, b: real, c: real, d: real)
    ensures SquaredError(ys, a, b) == SquaredError(ys, c, d) + Gap(|ys|, a - c, b - d)
      - 2.0 * (Mul(a - c, Sum(Residuals(ys, c, d))) + Mul(b - d, SumXY(Residuals(ys, c, d))))
  {
    if ys != [] {
      var front, n := ys[..|ys| - 1], |ys| - 1;
      ErrorDecomposition(front, a, b, c, d);
      var rab, rcd := Residuals(ys, a, b), Residuals(ys, c, d);
      assert rab[..n] == Residuals(front, a, b) && rcd[..n] == Residuals(front, c, d);
      SquaresFront(rab);
      SquaresFront(rcd);
      ErrorStep(ys[n], a, b, c, d, n as real);
      Distribute(a - c, Sum(rcd[..n]), rcd[n]);
      Distribute(b - d, SumXY(rcd[..n]), Mul(n as real, rcd[n]));
    }
  }

  lemma Distribute(k: real, x: real, y: real)
    ensures Mul(k, x + y) == Mul(k, x) + Mul(k, y)
  {
  }

  /** Every other line has a strictly larger squared error than the fit, by exactly the squared
      distance between the two lines. */
  lemma FitIsUniqueMinimum(ys: seq<real>, a: real, b: real, c: real, d: real)
    requires 2 <= |ys| && IsFit(ys, c, d)
    ensures SquaredError(ys, a, b) == SquaredError(ys, c, d) + Gap(|ys|, a - c, b - d)
    ensures SquaredError(ys, c, d) <= SquaredError(ys, a, b)
    ensures SquaredError(ys, c, d) == SquaredError(ys, a, b) <==> a == c && b == d
  {
    ErrorDecomposition(ys, a, b, c, d);
    GapSign(|ys|, a - c, b - d);
    if a == c && b == d {
      assert Residuals(ys, a, b) == Residuals(ys, c, d);
    }
  }

  /** There is a fit for every set of two samples or more, so LinearFit is determined by its contract. */
  lemma FitIsUnique(ys: seq<real>, a: real, b: real, c: real, d: real)
    requires 2 <= |ys| && IsFit(ys, a, b) && IsFit(ys, c, d)
    ensures a == c && b == d
  {
    FitIsUniqueMinimum(ys, a, b, c, d);
    FitIsUniqueMinimum(ys, c, d, a, b);
  }

  /** The residual variance by which forecasts are scored is the least any line can leave. */
  lemma ResidualVarianceIsLeast(ys: seq<real>, a: real, b: real, c: real, d: real)
    requires 2 <= |ys| && IsFit(ys, c, d)
    ensures Variance(Residuals(ys, c, d)) == SquaredError(ys, c, d) / |ys| as real
    ensures Variance(Residuals(ys, c, d)) <= Variance(Residuals(ys, a, b))
  {
    var m := Mean(Residuals(ys, a, b));
    assert Mean(Residuals(ys, c, d)) == 0.0;
    assert Shift(Residuals(ys, c, d), 0.0) == Residuals(ys, c, d);
    assert Shift(Residuals(ys, a, b), m) == Residuals(ys, a + m, b);
    FitIsUniqueMinimum(ys, a + m, b, c, d);
    DivideBoth(SquaredError(ys, c, d), SquaredError(ys, a + m, b), |ys| as real);
  }

  lemma DivideBoth(x: real, y: real, n: real)
    requires x <= y && 0.0 < n
    ensures x / n <= y / n
  {
  }

  /** What the forecast-residual algorithm scores by: the residuals of the fit and their variance,
      which no other line could make smaller. */
  method ForecastResiduals(ys: seq<real>) returns (residuals: seq<real>, variance: real)
    ensures |residuals| == |ys|
    ensures 2 <= |ys| ==> Sum(residuals) == 0.0 && variance == Variance(residuals)
    ensures 2 <= |ys| ==> forall a: real, b: real :: variance <= Variance(Residuals(ys, a, b))
  {
    var intercept, slope := LinearFit(ys);
    residuals := [];
    for i := 0 to |ys|
      invariant residuals == Residuals(ys, intercept, slope)[..i]
    {
      var predicted := intercept + Mul(slope, i as real);
      residuals := residuals + [ys[i] - predicted];
    }
    assert residuals == Residuals(ys, intercept, slope);
    var _, spread := ZScores.SampleStats(residuals);
    variance := spread;
    if 2 <= |ys| {
      LeastOfAll(ys, intercept, slope);
    }
  }

  lemma LeastOfAll(ys: seq<real>, c: real, d: real)
    requires 2 <= |ys| && IsFit(ys, c, d)
    ensures forall a: real, b: real :: Variance(Residuals(ys, c, d)) <= Variance(Residuals(ys, a, b))
  {
    forall a: real, b: real
      ensures Variance(Residuals(ys, c, d)) <= Variance(Residuals(ys, a, b))
    {
      ResidualVarianceIsLeast(ys, a, b, c, d);
    }
  }
}
