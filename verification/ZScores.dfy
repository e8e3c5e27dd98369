/** Z-scores and their severity (internal/algorithms/runner.go).  The standard deviation is the
    nonnegative root of the variance; rounding for display is not modelled. */
module ZScores {
  import opened Reals
  import opened Samples

  method SampleStats(values: seq<real>) returns (mean: real, variance: real)
    ensures values == [] ==> mean == 0.0 && variance == 0.0
    ensures values != [] ==> mean == Mean(values) && variance == Variance(values)
  {
    if values == [] {
      return 0.0, 0.0;
    }
    var sum := 0.0;
    for i := 0 to |values|
      invariant sum == Sum(values[..i])
    {
      assert values[..i + 1][..i] == values[..i];
      sum := sum + values[i];
    }
    assert values[..|values|] == values;
    mean := sum / |values| as real;
    variance := 0.0;
    ghost var squares := Squares(Shift(values, mean));
    for i := 0 to |values|
      invariant variance == Sum(squares[..i])
    {
      assert squares[..i + 1][..i] == squares[..i];
      var delta := values[i] - mean;
      variance := variance + delta * delta;
    }
    assert squares[..|values|] == squares;
    variance := variance / |values| as real;
  }

  predicate IsRoot(sigma: real, square: real) {
    0.0 <= sigma && Sq(sigma) == square
  }

  lemma {:induction false} SumWithout(xs: seq<real>, k: nat)
    requires k < |xs|
    ensures Sum(xs) == Sum(xs[..k] + xs[k + 1..]) + xs[k]
  {
    var rest := xs[..k] + xs[k + 1..];
    if k == |xs| - 1 {
      assert rest == xs[..k];
    } else {
      SumWithout(xs[..|xs| - 1], k);
      assert rest[..|rest| - 1] == xs[..|xs| - 1][..k] + xs[..|xs| - 1][k + 1..];
    }
  }

  lemma SquaresWithout(d: seq<real>, k: nat)
    requires k < |d|
    ensures Sum(Squares(d[..k] + d[k + 1..])) == Sum(Squares(d)) - Sq(d[k])
  {
    SumWithout(Squares(d), k);
    assert Squares(d)[..k] + Squares(d)[k + 1..] == Squares(d[..k] + d[k + 1..]);
  }

  lemma RestBound(rest: seq<real>, x: real)
    requires Sum(rest) == -x
    ensures Sq(x) <= Mul(|rest| as real, Sum(Squares(rest)))
  {
    SquareOfSum(rest);
    SqNegate(Sum(rest), x);
  }

  lemma OthersBound(d: seq<real>, k: nat)
    requires k < |d| && Sum(d) == 0.0
    ensures Sq(d[k]) <= Mul((|d| - 1) as real, Sum(Squares(d)) - Sq(d[k]))
  {
    SumWithout(d, k);
    SquaresWithout(d, k);
    RestBound(d[..k] + d[k + 1..], d[k]);
  }

  lemma BoundArithmetic(n: real, a: real, q: real, v: real)
    requires 0.0 < n && a <= Mul(n - 1.0, q - a) && v == q / n
    ensures a <= Mul(n - 1.0, v)
  {
    assert q == n * v;
    assert n * a <= (n - 1.0) * q;
    assert (n - 1.0) * q == n * ((n - 1.0) * v);
  }

  /** No sample lies further from the mean than the other n - 1 can pull it: its squared distance
      is at most n - 1 times the variance. */
  lemma DeviationBound(xs: seq<real>, k: nat)
    requires k < |xs|
    ensures Sq(xs[k] - Mean(xs)) <= Mul(|xs| as real - 1.0, Variance(xs))
  {
    var d := Shift(xs, Mean(xs));
    DeviationsCancel(xs);
    OthersBound(d, k);
    BoundArithmetic(|xs| as real, Sq(d[k]), Sum(Squares(d)), Variance(xs));
  }

  /** A sequence that scales to `ds` sums to the unscaled sum of `ds`. */
  lemma UnscaledSum(ys: seq<real>, v: real, ds: seq<real>, total: real)
    requires 0.0 < v && |ys| == |ds| && (forall i :: 0 <= i < |ys| ==> Mul(ys[i], v) == ds[i])
    requires Sum(ds) == Mul(total, v)
    ensures Sum(ys) == total
  {
    assert Scale(ys, v) == ds;
    SumScale(ys, v);
    MulCompare(Sum(ys), total, v);
  }

  lemma ZScoreSquares(d: real, sigma: real, z: real)
    requires 0.0 < sigma && z == d / sigma
    ensures Mul(z, sigma) == d && Mul(Sq(z), Sq(sigma)) == Sq(d) && 0.0 < Sq(sigma)
  {
    Quotient(z, d, sigma);
    SqMul(z, sigma);
    SqSign(sigma);
  }

  /** The z-scores of a set with spread sum to 0 and their squares sum to the number of samples. */
  lemma ZScoresAreStandard(xs: seq<real>, sigma: real, zs: seq<real>)
    requires xs != [] && IsRoot(sigma, Variance(xs)) && 0.0 < sigma
    requires |zs| == |xs| && forall i :: 0 <= i < |zs| ==> zs[i] == (xs[i] - Mean(xs)) / sigma
    ensures Sum(zs) == 0.0
    ensures Sum(Squares(zs)) == |xs| as real
  {
    var d := Shift(xs, Mean(xs));
    forall i | 0 <= i < |xs|
      ensures Mul(zs[i], sigma) == d[i] && Mul(Squares(zs)[i], Sq(sigma)) == Squares(d)[i]
    {
      ZScoreSquares(d[i], sigma, zs[i]);
    }
    ZScoreSquares(d[0], sigma, zs[0]);
    DeviationsCancel(xs);
    assert Mul(0.0, sigma) == 0.0;
    UnscaledSum(zs, sigma, d, 0.0);
    VarianceTotal(xs);
    UnscaledSum(Squares(zs), Sq(sigma), Squares(d), |xs| as real);
  }

  lemma VarianceTotal(xs: seq<real>)
    requires xs != []
    ensures Sum(Squares(Shift(xs, Mean(xs)))) == Mul(|xs| as real, Variance(xs))
  {
  }

  // ----- Severity -----

  datatype Severity = Info | Low | Medium | High | Critical

  function Effective(threshold: real): real {
    if threshold <= 0.0 then 3.0 else threshold
  }

  function ZScoreSeverity(absZ: real, threshold: real): Severity {
    var t := Effective(threshold);
    if absZ >= t * 1.5 then Critical
    else if absZ >= t then High
    else if absZ >= t * 0.75 then Medium
    else if absZ >= t * 0.5 then Low
    else Info
  }

  /** The least score, in multiples of the threshold, that earns the severity. */
  function Multiple(s: Severity): real {
    match s
    case Info => 0.0
    case Low => 0.5
    case Medium => 0.75
    case High => 1.0
    case Critical => 1.5
  }

  /** Sample `k` lies at least `c` standard deviations from the mean. */
  predicate Reaches(xs: seq<real>, k: nat, c: real) {
    k < |xs| && 0.0 < Variance(xs) && Mul(Sq(c), Variance(xs)) <= Sq(xs[k] - Mean(xs))
  }

  /** A score of c or more is a distance of c standard deviations or more. */
  lemma ScoreReaches(xs: seq<real>, k: nat, sigma: real, c: real)
    requires k < |xs| && IsRoot(sigma, Variance(xs)) && 0.0 < sigma && 0.0 < c
    ensures c <= Abs((xs[k] - Mean(xs)) / sigma) <==> Reaches(xs, k, c)
  {
    var d := xs[k] - Mean(xs);
    var z := d / sigma;
    Quotient(z, d, sigma);
    SqMul(z, sigma);
    SqCompare(z, c);
    SqSign(sigma);
    MulCompare(Sq(c), Sq(z), Variance(xs));
  }

  /** One sample at 1, all others at 0: the set on which the bound is reached. */
  function Spike(n: nat): seq<real> {
    seq(n, i => if i == 0 then 1.0 else 0.0)
  }

  lemma {:induction false} SpikeSums(n: nat)
    requires 1 <= n
    ensures Sum(Spike(n)) == 1.0 && Squares(Spike(n)) == Spike(n)
  {
    if n > 1 {
      SpikeSums(n - 1);
      assert Spike(n)[..n - 1] == Spike(n - 1);
    }
  }

  /** The squared distances from c, by the sums of the samples and of their squares. */
  lemma {:induction false} SquaredDistances(xs: seq<real>, c: real)
    ensures Sum(Squares(Shift(xs, c))) == Sum(Squares(xs)) - 2.0 * c * Sum(xs) + |xs| as real * (c * c)
  {
    if xs != [] {
      SquaredDistances(xs[..|xs| - 1], c);
      assert Squares(Shift(xs, c))[..|xs| - 1] == Squares(Shift(xs[..|xs| - 1], c));
      SquaresFront(xs);
    }
  }

  lemma SpikeArithmetic(r: real, m: real, v: real)
    requires 2.0 <= r && m == 1.0 / r && v == (1.0 - 2.0 * m * 1.0 + r * (m * m)) / r
    ensures 0.0 < v && Sq(1.0 - m) == Mul(r - 1.0, v)
  {
    assert m * r == 1.0;
    assert r * (m * m) == m by { assert r * (m * m) == (m * r) * m; }
    assert v * r == 1.0 - m;
    assert v == v * (r * m) == (v * r) * m == (1.0 - m) * m;
    assert (r - 1.0) * v == ((r - 1.0) * m) * (1.0 - m);
    assert (r - 1.0) * m == 1.0 - m;
    assert 0.0 < m < 1.0;
  }

  lemma SpikeReaches(n: nat)
    requires 2 <= n
    ensures Spike(n) != [] && 0.0 < Variance(Spike(n))
    ensures Sq(1.0 - Mean(Spike(n))) == Mul(n as real - 1.0, Variance(Spike(n)))
  {
    SpikeSums(n);
    SquaredDistances(Spike(n), Mean(Spike(n)));
    SpikeArithmetic(n as real, Mean(Spike(n)), Variance(Spike(n)));
  }

  /** Exactly when a distance of c standard deviations is possible at all among n samples: a
      severity whose multiple of the threshold is c cannot occur below c * c + 1 samples, and
      from there on it can. */
  lemma ReachableSeverity(n: nat, c: real)
    requires 0.0 < c
    ensures (exists xs: seq<real>, k: nat :: |xs| == n && Reaches(xs, k, c)) <==> Sq(c) <= n as real - 1.0
  {
    SqSign(c);
    if xs: seq<real>, k: nat :| |xs| == n && Reaches(xs, k, c) {
      DeviationBound(xs, k);
      MulCompare(Sq(c), n as real - 1.0, Variance(xs));
    }
    if Sq(c) <= n as real - 1.0 {
      assert n <= 1 ==> n as real <= 1.0;
      SpikeReaches(n);
      MulCompare(Sq(c), n as real - 1.0, Variance(Spike(n)));
      assert Reaches(Spike(n), 0, c);
    }
  }

  /** A result of severity s proves that at least (multiple * threshold)^2 + 1 samples were used:
      with the default threshold of 3, "high" needs 10 of them and "critical" needs 22. */
  lemma SeverityNeedsSamples(xs: seq<real>, k: nat, sigma: real, threshold: real)
    requires k < |xs| && IsRoot(sigma, Variance(xs))
    ensures var z := if sigma > 0.0 then (xs[k] - Mean(xs)) / sigma else 0.0;
            var c := Multiple(ZScoreSeverity(Abs(z), threshold)) * Effective(threshold);
            c <= Abs(z) && Sq(c) <= |xs| as real - 1.0
  {
    var z := if sigma > 0.0 then (xs[k] - Mean(xs)) / sigma else 0.0;
    var c := Multiple(ZScoreSeverity(Abs(z), threshold)) * Effective(threshold);
    if 0.0 < c {
      ScoreReaches(xs, k, sigma, c);
      ReachableSeverity(|xs|, c);
    }
  }

  function ZScore(value: real, mean: real, sigma: real): real {
    if sigma > 0.0 then (value - mean) / sigma else 0.0
  }

  /** The least number of samples, less one, among which the severity can occur. */
  function Needed(s: Severity, threshold: real): real {
    Sq(Multiple(s) * Effective(threshold))
  }

  lemma EarnedSeverity(values: seq<real>, k: nat, sigma: real, threshold: real)
    requires k < |values| && IsRoot(sigma, Variance(values))
    ensures Needed(ZScoreSeverity(Abs(ZScore(values[k], Mean(values), sigma)), threshold),
                   threshold) <= |values| as real - 1.0
  {
    SeverityNeedsSamples(values, k, sigma, threshold);
  }

  /** The z-scores of the samples with their severities.  With spread they sum to 0 and their squares to the
      number of samples, and no severity is given that so few samples cannot earn. */
  method ScoreZ(values: seq<real>, mean: real, sigma: real, threshold: real)
    returns (zs: seq<real>, severities: seq<Severity>)
    requires values != [] ==> mean == Mean(values) && IsRoot(sigma, Variance(values))
    ensures |zs| == |severities| == |values|
    ensures forall i :: 0 <= i < |zs| ==> zs[i] == ZScore(values[i], mean, sigma)
    ensures forall i :: 0 <= i < |zs| ==> severities[i] == ZScoreSeverity(Abs(zs[i]), threshold)
    ensures values != [] && sigma > 0.0 ==> Sum(zs) == 0.0 && Sum(Squares(zs)) == |values| as real
    ensures forall i :: 0 <= i < |zs| ==> Needed(severities[i], threshold) <= |values| as real - 1.0
  {
    zs, severities := ScoreSamples(values, mean, sigma, threshold);
    forall i | 0 <= i < |zs|
      ensures Needed(severities[i], threshold) <= |values| as real - 1.0
    {
      EarnedSeverity(values, i, sigma, threshold);
    }
    if values != [] && sigma > 0.0 {
      ZScoresAreStandard(values, sigma, zs);
    }
  }

  method ScoreSamples(values: seq<real>, mean: real, sigma: real, threshold: real)
    returns (zs: seq<real>, severities: seq<Severity>)
    ensures |zs| == |severities| == |values|
    ensures forall i :: 0 <= i < |zs| ==> zs[i] == ZScore(values[i], mean, sigma)
    ensures forall i :: 0 <= i < |zs| ==> severities[i] == ZScoreSeverity(Abs(zs[i]), threshold)
  {
    zs, severities := [], [];
    for i := 0 to |values|
      invariant |zs| == |severities| == i
      invariant forall j :: 0 <= j < i ==> zs[j] == ZScore(values[j], mean, sigma)
      invariant forall j :: 0 <= j < i ==> severities[j] == ZScoreSeverity(Abs(zs[j]), threshold)
    {
      var z := 0.0;
      if sigma > 0.0 {
        z := (values[i] - mean) / sigma;
      }
      zs, severities := zs + [z], severities + [ZScoreSeverity(Abs(z), threshold)];
    }
  }
}
