/** The median and the isolation scores built on it (internal/algorithms/runner.go). */
module Medians {
  import opened Reals
  import opened Samples

  predicate Sorted(xs: seq<real>) {
    forall i, j :: 0 <= i < j < |xs| ==> xs[i] <= xs[j]
  }

  function Insert(x: real, s: seq<real>): (r: seq<real>)
    requires Sorted(s)
    ensures Sorted(r) && |r| == |s| + 1
    ensures r[|s|] == if s == [] || s[|s| - 1] <= x then x else s[|s| - 1]
    ensures multiset(r) == multiset(s) + multiset{x}
  {
    if s == [] || s[|s| - 1] <= x then s + [x]
    else
      var front, last := s[..|s| - 1], s[|s| - 1];
      assert s == front + [last];
      Insert(x, front) + [last]
  }

  /** The library sort, of which only the result matters: sorted, and the same samples. */
  function Sort(xs: seq<real>): (r: seq<real>)
    ensures Sorted(r) && |r| == |xs| && multiset(r) == multiset(xs)
  {
    if xs == [] then []
    else
      assert xs == xs[..|xs| - 1] + [xs[|xs| - 1]];
      Insert(xs[|xs| - 1], Sort(xs[..|xs| - 1]))
  }

  /** The middle of sorted samples, or the mean of the two middle ones; 0 for none. */
  function Middle(s: seq<real>): real {
    if s == [] then 0.0
    else if |s| % 2 == 1 then s[|s| / 2]
    else (s[|s| / 2 - 1] + s[|s| / 2]) / 2.0
  }

  function Median(xs: seq<real>): real {
    Middle(Sort(xs))
  }

  lemma LastIsLargest(s: seq<real>, x: real)
    requires Sorted(s) && x in s
    ensures x <= s[|s| - 1]
  {
    var i :| 0 <= i < |s| && s[i] == x;
  }

  lemma SameLast(a: seq<real>, b: seq<real>)
    requires Sorted(a) && Sorted(b) && multiset(a) == multiset(b) && a != []
    ensures |a| == |b| && a[|a| - 1] == b[|b| - 1]
  {
    assert |multiset(a)| == |a| && |multiset(b)| == |b|;
    var x, y := a[|a| - 1], b[|b| - 1];
    assert x in multiset(b) && y in multiset(a);
    LastIsLargest(a, y);
    LastIsLargest(b, x);
  }

  lemma {:induction false} SortedIsCanonical(a: seq<real>, b: seq<real>)
    requires Sorted(a) && Sorted(b) && multiset(a) == multiset(b)
    ensures a == b
  {
    if a == [] {
      assert |multiset(b)| == |b|;
    } else {
      SameLast(a, b);
      FrontOf(a);
      FrontOf(b);
      SortedIsCanonical(a[..|a| - 1], b[..|b| - 1]);
    }
  }

  lemma FrontOf(s: seq<real>)
    requires s != []
    ensures s == s[..|s| - 1] + [s[|s| - 1]]
    ensures multiset(s[..|s| - 1]) == multiset(s) - multiset{s[|s| - 1]}
  {
    assert s == s[..|s| - 1] + [s[|s| - 1]];
  }

  /** The median depends on which samples there are, not on their order. */
  lemma MedianIgnoresOrder(a: seq<real>, b: seq<real>)
    requires multiset(a) == multiset(b)
    ensures Median(a) == Median(b)
  {
    SortedIsCanonical(Sort(a), Sort(b));
  }

  // ----- The median minimises the absolute deviations -----

  function Distances(xs: seq<real>, c: real): seq<real> {
    Map(xs, x => Abs(x - c))
  }

  function AbsoluteDeviation(xs: seq<real>, c: real): real {
    Sum(Distances(xs, c))
  }

  lemma DeviationOfLast(xs: seq<real>, c: real)
    requires xs != []
    ensures AbsoluteDeviation(xs, c) == AbsoluteDeviation(xs[..|xs| - 1], c) + Abs(xs[|xs| - 1] - c)
  {
    assert Distances(xs, c)[..|xs| - 1] == Distances(xs[..|xs| - 1], c);
  }

  lemma {:induction false} DeviationOfInsert(x: real, s: seq<real>, c: real)
    requires Sorted(s)
    ensures AbsoluteDeviation(Insert(x, s), c) == AbsoluteDeviation(s, c) + Abs(x - c)
  {
    DeviationOfLast(Insert(x, s), c);
    if s == [] || s[|s| - 1] <= x {
      assert (s + [x])[..|s|] == s;
    } else {
      DeviationOfInsert(x, s[..|s| - 1], c);
      DeviationOfLast(s, c);
      assert Insert(x, s)[..|s|] == Insert(x, s[..|s| - 1]);
    }
  }

  lemma {:induction false} DeviationOfSort(xs: seq<real>, c: real)
    ensures AbsoluteDeviation(Sort(xs), c) == AbsoluteDeviation(xs, c)
  {
    if xs != [] {
      DeviationOfSort(xs[..|xs| - 1], c);
      DeviationOfInsert(xs[|xs| - 1], Sort(xs[..|xs| - 1]), c);
      DeviationOfLast(xs, c);
    }
  }

  lemma {:induction false} DeviationOfFirst(xs: seq<real>, c: real)
    requires xs != []
    ensures AbsoluteDeviation(xs, c) == Abs(xs[0] - c) + AbsoluteDeviation(xs[1..], c)
  {
    DeviationOfLast(xs, c);
    if |xs| > 1 {
      DeviationOfFirst(xs[..|xs| - 1], c);
      DeviationOfLast(xs[1..], c);
      assert xs[1..][..|xs| - 2] == xs[..|xs| - 1][1..];
    } else {
      assert Distances([], c) == [];
      assert xs[..0] == [] && xs[1..] == [];
    }
  }

  /** Peeling off the two ends keeps the middle, which lies between them. */
  lemma MiddleOfInner(s: seq<real>)
    requires Sorted(s) && 3 <= |s|
    ensures Middle(s) == Middle(s[1..|s| - 1])
    ensures s[0] <= Middle(s) <= s[|s| - 1]
  {
    var inner := s[1..|s| - 1];
    assert |inner| / 2 == |s| / 2 - 1;
    if |s| % 2 == 0 {
      assert s[0] <= s[|s| / 2 - 1] <= s[|s| / 2] <= s[|s| - 1];
    }
  }

  lemma {:induction false} MiddleMinimises(s: seq<real>, c: real)
    requires Sorted(s)
    ensures AbsoluteDeviation(s, Middle(s)) <= AbsoluteDeviation(s, c)
    decreases |s|
  {
    var m := Middle(s);
    if |s| == 0 {
      assert Distances(s, m) == [] == Distances(s, c);
    } else {
      DeviationOfFirst(s, m);
      DeviationOfFirst(s, c);
      if |s| == 1 {
        assert s[1..] == [];
        assert Distances([], m) == [] == Distances([], c);
      } else {
        var rest, inner := s[1..], s[1..|s| - 1];
        assert rest[..|rest| - 1] == inner;
        DeviationOfLast(rest, m);
        DeviationOfLast(rest, c);
        if |s| == 2 {
          assert inner == [];
          assert Distances(inner, m) == [] == Distances(inner, c);
        } else {
          MiddleOfInner(s);
          MiddleMinimises(inner, c);
        }
      }
    }
  }

  /** No point is closer to the samples, in total, than their median. */
  lemma MedianMinimises(xs: seq<real>, c: real)
    ensures AbsoluteDeviation(xs, Median(xs)) <= AbsoluteDeviation(xs, c)
  {
    DeviationOfSort(xs, Median(xs));
    DeviationOfSort(xs, c);
    MiddleMinimises(Sort(xs), c);
  }

  // ----- Half of the samples lie on either side -----

  function CountAtMost(xs: seq<real>, m: real): nat {
    if xs == [] then 0 else CountAtMost(xs[..|xs| - 1], m) + (if xs[|xs| - 1] <= m then 1 else 0)
  }

  function CountAtLeast(xs: seq<real>, m: real): nat {
    if xs == [] then 0 else CountAtLeast(xs[..|xs| - 1], m) + (if m <= xs[|xs| - 1] then 1 else 0)
  }

  lemma {:induction false} CountsOfInsert(x: real, s: seq<real>, m: real)
    requires Sorted(s)
    ensures CountAtMost(Insert(x, s), m) == CountAtMost(s, m) + (if x <= m then 1 else 0)
    ensures CountAtLeast(Insert(x, s), m) == CountAtLeast(s, m) + (if m <= x then 1 else 0)
  {
    var r := Insert(x, s);
    if s == [] || s[|s| - 1] <= x {
      assert r[..|r| - 1] == s;
    } else {
      CountsOfInsert(x, s[..|s| - 1], m);
      assert r[..|r| - 1] == Insert(x, s[..|s| - 1]);
    }
  }

  lemma {:induction false} CountsOfSort(xs: seq<real>, m: real)
    ensures CountAtMost(Sort(xs), m) == CountAtMost(xs, m)
    ensures CountAtLeast(Sort(xs), m) == CountAtLeast(xs, m)
  {
    if xs != [] {
      CountsOfSort(xs[..|xs| - 1], m);
      CountsOfInsert(xs[|xs| - 1], Sort(xs[..|xs| - 1]), m);
    }
  }

  lemma {:induction false} CountsOfSorted(s: seq<real>, m: real, k: nat, l: nat)
    requires k <= |s| && forall i :: 0 <= i < k ==> s[i] <= m
    requires l <= |s| && forall i :: l <= i < |s| ==> m <= s[i]
    ensures k <= CountAtMost(s, m) && |s| - l <= CountAtLeast(s, m)
  {
    if s != [] {
      var n := |s| - 1;
      CountsOfSorted(s[..n], m, if k <= n then k else n, if l <= n then l else n);
    }
  }

  lemma MiddleSplits(s: seq<real>)
    requires Sorted(s)
    ensures |s| <= 2 * CountAtMost(s, Middle(s))
    ensures |s| <= 2 * CountAtLeast(s, Middle(s))
  {
    if s != [] {
      var m, h := Middle(s), |s| / 2;
      var k := if |s| % 2 == 1 then h + 1 else h;
      assert |s| % 2 == 0 ==> s[h - 1] <= m <= s[h];
      CountsOfSorted(s, m, k, h);
    }
  }

  /** At least half of the samples are at most the median, and at least half at least. */
  lemma MedianSplits(xs: seq<real>)
    ensures |xs| <= 2 * CountAtMost(xs, Median(xs))
    ensures |xs| <= 2 * CountAtLeast(xs, Median(xs))
  {
    CountsOfSort(xs, Median(xs));
    MiddleSplits(Sort(xs));
  }

  // ----- Isolation scores -----

  method SampleMedian(values: seq<real>) returns (median: real)
    ensures median == Median(values)
  {
    if values == [] {
      return 0.0;
    }
    var sorted := Sort(values);
    var mid := |sorted| / 2;
    if |sorted| % 2 == 1 {
      return sorted[mid];
    }
    median := (sorted[mid - 1] + sorted[mid]) / 2.0;
  }

  /** The median absolute deviation. */
  function Mad(xs: seq<real>): real {
    Median(Distances(xs, Median(xs)))
  }

  function IsolationScore(distance: real, mad: real): real {
    if mad > 0.0 then distance / mad else distance
  }

  method ScoreIsolation(values: seq<real>) returns (scores: seq<real>)
    ensures |scores| == |values|
    ensures forall i :: 0 <= i < |values| ==>
      scores[i] == IsolationScore(Distances(values, Median(values))[i], Mad(values))
  {
    var median := SampleMedian(values);
    var deviations := DeviationsFrom(values, median);
    var mad := SampleMedian(deviations);
    scores := ScaleBy(deviations, mad);
  }

  method DeviationsFrom(values: seq<real>, median: real) returns (deviations: seq<real>)
    ensures deviations == Distances(values, median)
  {
    deviations := [];
    for i := 0 to |values|
      invariant |deviations| == i
      invariant forall j :: 0 <= j < i ==> deviations[j] == Abs(values[j] - median)
    {
      deviations := deviations + [Abs(values[i] - median)];
    }
  }

  method ScaleBy(deviations: seq<real>, mad: real) returns (scores: seq<real>)
    ensures |scores| == |deviations|
    ensures forall i :: 0 <= i < |scores| ==> scores[i] == IsolationScore(deviations[i], mad)
  {
    scores := [];
    for i := 0 to |deviations|
      invariant |scores| == i
      invariant forall j :: 0 <= j < i ==> scores[j] == IsolationScore(deviations[j], mad)
    {
      var score := deviations[i];
      if mad > 0.0 {
        score := score / mad;
      }
      scores := scores + [score];
    }
  }

  lemma {:induction false} ScaledCounts(scores: seq<real>, distances: seq<real>, mad: real)
    requires 0.0 < mad && |scores| == |distances|
    requires forall i :: 0 <= i < |scores| ==> scores[i] == IsolationScore(distances[i], mad)
    ensures CountAtMost(scores, 1.0) == CountAtMost(distances, mad)
    ensures CountAtLeast(scores, 1.0) == CountAtLeast(distances, mad)
  {
    if scores != [] {
      var n := |scores| - 1;
      ScaledCounts(scores[..n], distances[..n], mad);
      Quotient(scores[n], distances[n], mad);
      MulCompare(scores[n], 1.0, mad);
      MulCompare(1.0, scores[n], mad);
      assert Mul(1.0, mad) == mad;
    }
  }

  /** With a positive median absolute deviation, at least half of the samples score at most 1 and at
      least half score at least 1: half of any data set is never isolated. */
  lemma HalfScoreAtMostOne(values: seq<real>, scores: seq<real>)
    requires 0.0 < Mad(values) && |scores| == |values|
    requires forall i :: 0 <= i < |values| ==>
      scores[i] == IsolationScore(Distances(values, Median(values))[i], Mad(values))
    ensures |values| <= 2 * CountAtMost(scores, 1.0)
    ensures |values| <= 2 * CountAtLeast(scores, 1.0)
  {
    HalfOfScaled(scores, Distances(values, Median(values)));
  }

  lemma HalfOfScaled(scores: seq<real>, distances: seq<real>)
    requires 0.0 < Median(distances) && |scores| == |distances|
    requires forall i :: 0 <= i < |scores| ==> scores[i] == IsolationScore(distances[i], Median(distances))
    ensures |scores| <= 2 * CountAtMost(scores, 1.0)
    ensures |scores| <= 2 * CountAtLeast(scores, 1.0)
  {
    MedianSplits(distances);
    ScaledCounts(scores, distances, Median(distances));
  }
}
