/** Sets of day numbers in order. */
module DaySets {

  predicate Ascending(s: seq<int>) {
    forall i, j :: 0 <= i < j < |s| ==> s[i] < s[j]
  }

  /** An arbitrary element, as an iteration over a map meets its keys. */
  method Any<T(==)>(s: set<T>) returns (x: T)
    requires s != {}
    ensures x in s
  {
    x :| x in s;
  }

  method Latest(days: set<int>) returns (m: int)
    requires days != {}
    ensures m in days && forall d :: d in days ==> d <= m
  {
    m := Any(days);
    var rest := days - {m};
    while rest != {}
      invariant rest <= days && m in days && forall d :: d in days && d !in rest ==> d <= m
    {
      var d := Any(rest);
      rest := rest - {d};
      if m < d { m := d; }
    }
  }

  /** The elements of a set of days in ascending order. */
  method SortedDates(days: set<int>) returns (s: seq<int>)
    ensures Ascending(s) && |s| == |days| && forall d :: d in s <==> d in days
  {
    s := [];
    var rest := days;
    while rest != {}
      invariant rest <= days && Ascending(s) && |s| + |rest| == |days|
      invariant forall d :: d in s <==> d in days && d !in rest
      invariant forall d, e :: d in rest && e in s ==> d < e
    {
      var d := Latest(rest);
      assert forall i :: 0 <= i < |s| ==> s[i] in s;
      rest := rest - {d};
      s := [d] + s;
    }
  }
}

/** The daily risk/reward overview (internal/api/marketops_risk_reward_history.go): per day and ticker
    the best candidate is kept, and the kept ones are counted by direction. */
module RiskReward {
  import opened DaySets

  datatype Direction = Bullish | NeutralDirection | Bearish

  /** A candidate of an active ticker; dates are day numbers. */
  datatype Candidate = Candidate(ticker: string, date: int, direction: Direction, eligible: bool, usable: int,
                                 created: int)

  /** Eligible candidates first, then more usable inputs, then later creation. */
  predicate Better(a: Candidate, b: Candidate) {
    if a.eligible != b.eligible then a.eligible
    else if a.usable != b.usable then a.usable > b.usable
    else a.created > b.created
  }

  predicate SameRank(a: Candidate, b: Candidate) {
    a.eligible == b.eligible && a.usable == b.usable && a.created == b.created
  }

  predicate SameSlot(a: Candidate, b: Candidate) {
    a.date == b.date && a.ticker == b.ticker
  }

  /** Nothing among the candidates for its day and ticker is better. */
  predicate IsBest(c: Candidate, candidates: seq<Candidate>) {
    c in candidates && forall x :: x in candidates && SameSlot(x, c) ==> !Better(x, c)
  }

  type Kept = map<int, map<string, Candidate>>

  predicate Has(kept: Kept, c: Candidate) {
    c.date in kept && c.ticker in kept[c.date]
  }

  /** The map holds exactly one best candidate for every day and ticker that has any. */
  predicate KeepsBest(kept: Kept, candidates: seq<Candidate>) {
    && (forall c :: c in candidates ==> Has(kept, c))
    && (forall d :: d in kept ==> kept[d] != map[])
    && forall d, t :: d in kept && t in kept[d] ==>
         kept[d][t].date == d && kept[d][t].ticker == t && IsBest(kept[d][t], candidates)
  }

  method KeepBest(candidates: seq<Candidate>) returns (kept: Kept)
    ensures KeepsBest(kept, candidates)
  {
    kept := map[];
    for i := 0 to |candidates|
      invariant KeepsBest(kept, candidates[..i])
    {
      var c := candidates[i];
      ghost var before, seen := kept, candidates[..i];
      assert candidates[..i + 1] == seen + [c];
      var day := if c.date in kept then kept[c.date] else map[];
      if c.ticker !in day || Better(c, day[c.ticker]) {
        kept := kept[c.date := day[c.ticker := c]];
      }
      Stays(before, seen, c, kept);
    }
    assert candidates[..|candidates|] == candidates;
  }

  lemma BetterIsTransitive(a: Candidate, b: Candidate, c: Candidate)
    ensures Better(a, b) && Better(b, c) ==> Better(a, c)
    ensures !Better(a, b) && Better(c, b) ==> !Better(a, c)
    ensures Better(a, b) ==> !Better(b, a)
  {
  }

  lemma Stays(before: Kept, seen: seq<Candidate>, c: Candidate, after: Kept)
    requires KeepsBest(before, seen)
    requires var day := if c.date in before then before[c.date] else map[];
             after ==
               if c.ticker !in day || Better(c, day[c.ticker]) then before[c.date := day[c.ticker := c]] else before
    ensures KeepsBest(after, seen + [c])
  {
    forall x | x in seen + [c]
      ensures Has(after, x)
    {
      assert x in seen || x == c;
      assert x in seen ==> Has(before, x);
    }
    forall d, t | d in after && t in after[d]
      ensures after[d][t].date == d && after[d][t].ticker == t && IsBest(after[d][t], seen + [c])
    {
      var k := after[d][t];
      if k == c {
        forall x | x in seen && SameSlot(x, c)
          ensures !Better(x, c)
        {
          assert Has(before, x);
          BetterIsTransitive(x, before[c.date][c.ticker], c);
        }
      } else {
        assert before[d][t] == k;
      }
    }
  }

  /** The rank of what is kept does not depend on the order of the candidates. */
  lemma KeptRankIgnoresOrder(a: Kept, b: Kept, xs: seq<Candidate>, ys: seq<Candidate>, d: int, t: string)
    requires KeepsBest(a, xs) && KeepsBest(b, ys) && (forall c :: c in xs <==> c in ys)
    requires d in a && t in a[d]
    ensures d in b && t in b[d] && SameRank(a[d][t], b[d][t])
  {
    assert Has(b, a[d][t]);
    assert a[d][t] in xs && b[d][t] in ys;
  }

  // ----- The points -----

  /** Tickers by direction. */
  datatype Categories = Categories(bullish: set<string>, neutral: set<string>, bearish: set<string>) {
    function With(direction: Direction, t: string): Categories {
      match direction
      case Bullish => this.(bullish := bullish + {t})
      case NeutralDirection => this.(neutral := neutral + {t})
      case Bearish => this.(bearish := bearish + {t})
    }

    function Size(): nat {
      |bullish| + |neutral| + |bearish|
    }
  }

  datatype Point = Point(date: int, categories: Categories, eligible: nat, insufficient: nat, unprocessed: nat)

  /** The eligible tickers of a direction. */
  function Members(day: map<string, Candidate>, direction: Direction): set<string> {
    set t | t in day && day[t].eligible && day[t].direction == direction
  }

  /** The categories when the tickers in `rest` are still to be looked at. */
  function Found(day: map<string, Candidate>, rest: set<string>): Categories {
    Categories(Members(day, Bullish) - rest, Members(day, NeutralDirection) - rest, Members(day, Bearish) - rest)
  }

  /** What one day's point reports. */
  predicate Describes(p: Point, d: int, day: map<string, Candidate>, active: nat) {
    && p.date == d
    && p.categories == Categories(Members(day, Bullish), Members(day, NeutralDirection), Members(day, Bearish))
    && p.eligible == p.categories.Size()
    && p.eligible + p.insufficient == |day|
    && p.unprocessed == if p.eligible + p.insufficient <= active then active - p.eligible - p.insufficient else 0
  }

  lemma MembersStep(day: map<string, Candidate>, rest: set<string>, t: string, direction: Direction)
    requires t in rest && t in day
    ensures var found := Members(day, direction) - rest;
            if day[t].eligible && day[t].direction == direction
            then Members(day, direction) - (rest - {t}) == found + {t} && t !in found
            else Members(day, direction) - (rest - {t}) == found
  {
  }

  lemma FoundStep(day: map<string, Candidate>, rest: set<string>, t: string)
    requires t in rest && t in day
    ensures day[t].eligible ==> Found(day, rest - {t}) == Found(day, rest).With(day[t].direction, t)
    ensures day[t].eligible ==> Found(day, rest - {t}).Size() == Found(day, rest).Size() + 1
    ensures !day[t].eligible ==> Found(day, rest - {t}) == Found(day, rest)
  {
    MembersStep(day, rest, t, Bullish);
    MembersStep(day, rest, t, NeutralDirection);
    MembersStep(day, rest, t, Bearish);
  }

  method PointOf(d: int, day: map<string, Candidate>, active: nat) returns (p: Point)
    ensures Describes(p, d, day, active)
  {
    var categories := Categories({}, {}, {});
    var eligible, insufficient := 0, 0;
    var rest := day.Keys;
    while rest != {}
      invariant rest <= day.Keys && categories == Found(day, rest) && eligible == categories.Size()
      invariant eligible + insufficient + |rest| == |day|
    {
      var t := Any(rest);
      FoundStep(day, rest, t);
      rest := rest - {t};
      if !day[t].eligible {
        insufficient := insufficient + 1;
      } else {
        eligible := eligible + 1;
        categories := categories.With(day[t].direction, t);
      }
    }
    p := Point(d, categories, eligible, insufficient,
               if eligible + insufficient <= active then active - eligible - insufficient else 0);
  }

  /** The latest `days` of some ascending days. */
  function LastDays(all: seq<int>, days: nat): (r: seq<int>)
    ensures |r| == if days < |all| then days else |all|
    ensures forall i :: 0 <= i < |r| ==> r[i] == all[|all| - |r| + i]
  {
    if days < |all| then all[|all| - days..] else all
  }

  lemma LastDaysAreLatest(all: seq<int>, days: nat, d: int)
    requires Ascending(all) && d in all
    ensures d in LastDays(all, days) || forall i :: 0 <= i < |LastDays(all, days)| ==> d < LastDays(all, days)[i]
  {
    var r := LastDays(all, days);
    var n :| 0 <= n < |all| && all[n] == d;
    if |all| - |r| <= n {
      assert r[n - (|all| - |r|)] == d;
    }
  }

  /** No day is left out in favour of an earlier one. */
  predicate LatestOnly(points: seq<Point>, kept: Kept) {
    forall d, p :: d in kept && p in points && (forall q :: q in points ==> q.date != d) ==> d < p.date
  }

  lemma MissingDaysAreOlder(points: seq<Point>, kept: Kept, all: seq<int>, days: nat)
    requires Ascending(all) && forall d :: d in all <==> d in kept
    requires |points| == |LastDays(all, days)| && forall i :: 0 <= i < |points| ==>
      points[i].date == LastDays(all, days)[i]
    ensures LatestOnly(points, kept)
  {
    forall d, p | d in kept && p in points && (forall q :: q in points ==> q.date != d)
      ensures d < p.date
    {
      assert forall i :: 0 <= i < |points| ==> points[i] in points;
      LastDaysAreLatest(all, days, d);
    }
  }

  /** One point for each of the latest `days` days that have candidates, in ascending order, each from a
      best candidate per ticker. */
  method OverviewPoints(candidates: seq<Candidate>, active: nat, days: nat) returns (points: seq<Point>, kept: Kept)
    ensures KeepsBest(kept, candidates)
    ensures |points| == if days < |kept| then days else |kept|
    ensures forall i, j :: 0 <= i < j < |points| ==> points[i].date < points[j].date
    ensures forall p :: p in points ==> p.date in kept && Describes(p, p.date, kept[p.date], active)
    ensures LatestOnly(points, kept)
  {
    kept := KeepBest(candidates);
    var all := SortedDates(kept.Keys);
    var dates := LastDays(all, days);
    points := PointsOf(dates, kept, active);
    MissingDaysAreOlder(points, kept, all, days);
  }

  method PointsOf(dates: seq<int>, kept: Kept, active: nat) returns (points: seq<Point>)
    requires forall d :: d in dates ==> d in kept
    ensures |points| == |dates|
    ensures forall i :: 0 <= i < |dates| ==>
      points[i].date == dates[i] && Describes(points[i], dates[i], kept[dates[i]], active)
  {
    points := [];
    for i := 0 to |dates|
      invariant |points| == i
      invariant forall k :: 0 <= k < i ==>
        points[k].date == dates[k] && Describes(points[k], dates[k], kept[dates[k]], active)
    {
      var p := PointOf(dates[i], kept[dates[i]], active);
      points := points + [p];
    }
  }

  lemma SubsetSize(a: set<string>, b: set<string>)
    requires a <= b
    ensures |a| <= |b|
  {
    assert |b| == |a| + |b - a| by { assert b == a + (b - a); }
  }

  /** Since only active tickers are candidates, every active asset is counted exactly once on every day:
      eligible in one direction, short of inputs, or unprocessed. */
  lemma CoverageIsComplete(kept: Kept, candidates: seq<Candidate>, active: set<string>, p: Point)
    requires KeepsBest(kept, candidates) && forall c :: c in candidates ==> c.ticker in active
    requires p.date in kept && Describes(p, p.date, kept[p.date], |active|)
    ensures p.eligible + p.insufficient + p.unprocessed == |active|
    ensures p.categories.bullish !! p.categories.neutral !! p.categories.bearish
  {
    var day := kept[p.date];
    forall t | t in day.Keys
      ensures t in active
    {
      assert day[t] in candidates;
    }
    SubsetSize(day.Keys, active);
  }
}
