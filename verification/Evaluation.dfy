/** Scoring a backtest against reviewed labels, and what a promotion candidate makes of the scores
    (internal/api/marketops_backtest_evaluations.go, marketops_backtest_evaluation_labels.go,
    marketops_backtest_promotion_candidates.go). */
module Evaluation {
  import opened TextKeys

  // ----- The join key -----

  datatype Proposal = Proposal(id: string, nodeId: string, fromNode: string, relationship: string, toNode: string)

  function GraphFactKey(p: Proposal): string {
    if Trim(p.nodeId) != [] then "node:" + Trim(p.nodeId)
    else "relationship:" + (Trim(p.fromNode) + ("|" + (Trim(p.relationship) + ("|" + Trim(p.toNode)))))
  }

  /** Two proposals state the same fact. */
  predicate SameFact(p: Proposal, q: Proposal) {
    if Trim(p.nodeId) != [] || Trim(q.nodeId) != [] then Trim(p.nodeId) == Trim(q.nodeId)
    else
      && Trim(p.fromNode) == Trim(q.fromNode) && Trim(p.relationship) == Trim(q.relationship)
      && Trim(p.toNode) == Trim(q.toNode)
  }

  lemma JoinIsInjective(a: string, b: string, c: string, d: string)
    requires '|' !in a && '|' !in c && a + ("|" + b) == c + ("|" + d)
    ensures a == c && b == d
  {
    var left, right := a + ("|" + b), c + ("|" + d);
    assert left[|a|] == '|' && right[|c|] == '|';
    assert forall i :: 0 <= i < |a| ==> left[i] == a[i] != '|';
    assert forall i :: 0 <= i < |c| ==> right[i] == c[i] != '|';
    assert |a| == |c|;
    assert a == left[..|a|] && c == right[..|c|];
    assert b == left[|a| + 1..] && d == right[|c| + 1..];
  }

  /** The key tells facts apart as long as no relationship name or source node contains the separator. */
  lemma KeyTellsFacts(p: Proposal, q: Proposal)
    requires '|' !in Trim(p.fromNode) && '|' !in Trim(q.fromNode)
    requires '|' !in Trim(p.relationship) && '|' !in Trim(q.relationship)
    ensures GraphFactKey(p) == GraphFactKey(q) <==> SameFact(p, q)
  {
    if GraphFactKey(p) == GraphFactKey(q) {
      assert GraphFactKey(p)[0] == GraphFactKey(q)[0];
      if Trim(p.nodeId) != [] {
        assert GraphFactKey(p)[5..] == Trim(p.nodeId) && GraphFactKey(q)[5..] == Trim(q.nodeId);
      } else {
        var pr, qr := Trim(p.relationship) + ("|" + Trim(p.toNode)), Trim(q.relationship) + ("|" + Trim(q.toNode));
        assert GraphFactKey(p)[13..] == Trim(p.fromNode) + ("|" + pr);
        assert GraphFactKey(q)[13..] == Trim(q.fromNode) + ("|" + qr);
        JoinIsInjective(Trim(p.fromNode), pr, Trim(q.fromNode), qr);
        JoinIsInjective(Trim(p.relationship), Trim(p.toNode), Trim(q.relationship), Trim(q.toNode));
      }
    }
  }

  function Joined(a: string, b: string, c: string): string {
    a + ("|" + (b + ("|" + c)))
  }

  predicate Trimmed(s: string) {
    s != [] ==> !IsSpace(s[0]) && !IsSpace(s[|s| - 1])
  }

  /** A separator with no space beside it. */
  predicate Clean(s: string, k: int) {
    && 0 <= k < |s| && s[k] == '|'
    && (0 < k ==> !IsSpace(s[k - 1])) && (k < |s| - 1 ==> !IsSpace(s[k + 1]))
  }

  /** Every separator in the name has a space beside it. */
  predicate Loose(name: string) {
    forall k :: 0 <= k < |name| ==> !Clean(name, k)
  }

  /** The text is made of the three names, character by character. */
  predicate MadeOf(s: string, a: string, b: string, c: string) {
    && |s| == |a| + |b| + |c| + 2 && s[|a|] == '|' && s[|a| + 1 + |b|] == '|'
    && (forall k :: 0 <= k < |a| ==> s[k] == a[k])
    && (forall k :: 0 <= k < |b| ==> s[|a| + 1 + k] == b[k])
    && (forall k :: 0 <= k < |c| ==> s[|a| + |b| + 2 + k] == c[k])
  }

  lemma JoinedIsMade(a: string, b: string, c: string)
    ensures MadeOf(Joined(a, b, c), a, b, c)
  {
  }

  lemma MadeIsJoined(s: string, a: string, b: string, c: string)
    requires MadeOf(s, a, b, c)
    ensures s == Joined(a, b, c)
  {
    var j := Joined(a, b, c);
    JoinedIsMade(a, b, c);
    forall k | 0 <= k < |s|
      ensures s[k] == j[k]
    {
      if |a| < k < |a| + 1 + |b| {
        assert s[|a| + 1 + (k - |a| - 1)] == b[k - |a| - 1] == j[|a| + 1 + (k - |a| - 1)];
      } else if |a| + 1 + |b| < k {
        assert s[|a| + |b| + 2 + (k - |a| - |b| - 2)] == j[|a| + |b| + 2 + (k - |a| - |b| - 2)];
      }
    }
  }

  /** Between trimmed names the separators are clean. */
  lemma Reading(s: string, a: string, b: string, c: string)
    requires MadeOf(s, a, b, c) && Trimmed(a) && Trimmed(b) && Trimmed(c)
    ensures Clean(s, |a|) && Clean(s, |a| + 1 + |b|)
    ensures Trimmed(s)
  {
    var i, j := |a|, |a| + 1 + |b|;
    if a != [] { assert s[0] == a[0] && s[i - 1] == a[|a| - 1]; }
    if b != [] { assert s[i + 1 + 0] == b[0] && s[i + 1 + (|b| - 1)] == b[|b| - 1]; }
    if c != [] { assert s[|a| + |b| + 2 + 0] == c[0] && s[|a| + |b| + 2 + (|c| - 1)] == c[|c| - 1]; }
  }

  /** Any two clean separators of a trimmed text split it into trimmed names. */
  lemma Splitting(s: string, i: int, j: int)
    requires Trimmed(s) && Clean(s, i) && Clean(s, j) && i < j
    ensures Trimmed(s[..i]) && Trimmed(s[i + 1..j]) && Trimmed(s[j + 1..])
    ensures MadeOf(s, s[..i], s[i + 1..j], s[j + 1..])
  {
  }

  /** Names of the same lengths in the same text are the same. */
  lemma SamePieces(s: string, a: string, b: string, c: string, d: string, e: string, f: string)
    requires MadeOf(s, a, b, c) && MadeOf(s, d, e, f) && |a| == |d| && |b| == |e|
    ensures a == d && b == e && c == f
  {
    assert forall k :: 0 <= k < |b| ==> b[k] == s[|a| + 1 + k] == e[k];
    assert forall k :: 0 <= k < |c| ==> c[k] == s[|a| + |b| + 2 + k] == f[k];
  }

  /** The text has no clean separators but the two between the names. */
  ghost predicate OnlyTwo(s: string, a: string, b: string) {
    forall k :: Clean(s, k) ==> k == |a| || k == |a| + 1 + |b|
  }

  lemma OnlyReading(s: string, a: string, b: string, c: string, d: string, e: string, f: string)
    requires MadeOf(s, a, b, c) && Trimmed(a) && Trimmed(b) && Trimmed(c) && OnlyTwo(s, a, b)
    requires MadeOf(s, d, e, f) && Trimmed(d) && Trimmed(e) && Trimmed(f)
    ensures a == d && b == e && c == f
  {
    Reading(s, d, e, f);
    SamePieces(s, a, b, c, d, e, f);
  }

  /** A separator inside a name is clean in the text if and only if it is clean in the name. */
  lemma CleanInside(s: string, a: string, b: string, c: string, k: int)
    requires MadeOf(s, a, b, c)
    ensures 0 <= k < |a| ==> (Clean(s, k) <==> Clean(a, k))
    ensures 0 <= k < |b| ==> (Clean(s, |a| + 1 + k) <==> Clean(b, k))
    ensures 0 <= k < |c| ==> (Clean(s, |a| + |b| + 2 + k) <==> Clean(c, k))
  {
    if 0 <= k < |b| {
      var n := |a| + 1 + k;
      assert s[|a| + 1 + k] == b[k];
      assert 0 < k ==> s[|a| + 1 + (k - 1)] == b[k - 1];
      assert k < |b| - 1 ==> s[|a| + 1 + (k + 1)] == b[k + 1];
    }
    if 0 <= k < |c| {
      assert s[|a| + |b| + 2 + k] == c[k];
      assert 0 < k ==> s[|a| + |b| + 2 + (k - 1)] == c[k - 1];
      assert k < |c| - 1 ==> s[|a| + |b| + 2 + (k + 1)] == c[k + 1];
    }
  }

  lemma OnlyTwoWhenLoose(s: string, a: string, b: string, c: string)
    requires MadeOf(s, a, b, c)
    ensures OnlyTwo(s, a, b) <==> Loose(a) && Loose(b) && Loose(c)
  {
    if Loose(a) && Loose(b) && Loose(c) {
      forall k | Clean(s, k)
        ensures k == |a| || k == |a| + 1 + |b|
      {
        CleanInside(s, a, b, c, k);
        CleanInside(s, a, b, c, k - |a| - 1);
        CleanInside(s, a, b, c, k - |a| - |b| - 2);
      }
    }
    if OnlyTwo(s, a, b) {
      forall k: int
        ensures 0 <= k < |a| ==> !Clean(a, k)
        ensures 0 <= k < |b| ==> !Clean(b, k)
        ensures 0 <= k < |c| ==> !Clean(c, k)
      {
        CleanInside(s, a, b, c, k);
      }
    }
  }

  function FactText(p: Proposal): string {
    Joined(Trim(p.fromNode), Trim(p.relationship), Trim(p.toNode))
  }

  lemma SameText(p: Proposal, q: Proposal)
    requires Trim(p.nodeId) == []
    ensures GraphFactKey(q) == GraphFactKey(p) <==> Trim(q.nodeId) == [] && FactText(q) == FactText(p)
  {
    if GraphFactKey(q) == GraphFactKey(p) {
      assert GraphFactKey(q)[0] == GraphFactKey(p)[0];
      assert GraphFactKey(q)[13..] == FactText(q) && GraphFactKey(p)[13..] == FactText(p);
    }
  }

  /** The key of a relationship belongs to that fact alone if and only if every separator inside one of its
      names has a space beside it. */
  lemma KeyIsUnambiguous(p: Proposal)
    requires Trim(p.nodeId) == []
    ensures (forall q :: GraphFactKey(q) == GraphFactKey(p) ==> SameFact(p, q))
      <==> Loose(Trim(p.fromNode)) && Loose(Trim(p.relationship)) && Loose(Trim(p.toNode))
  {
    TextIsMade(p);
    OnlyTwoWhenLoose(FactText(p), Trim(p.fromNode), Trim(p.relationship), Trim(p.toNode));
    if OnlyTwo(FactText(p), Trim(p.fromNode), Trim(p.relationship)) {
      forall q | GraphFactKey(q) == GraphFactKey(p)
        ensures SameFact(p, q)
      {
        SameReading(p, q);
      }
    } else {
      var k :| Clean(FactText(p), k) && k != |Trim(p.fromNode)| && k != |Trim(p.fromNode)| + 1 + |Trim(p.relationship)|;
      var q := Reread(p, k);
      assert GraphFactKey(q) == GraphFactKey(p) && !SameFact(p, q);
    }
  }

  lemma TextIsMade(p: Proposal)
    ensures MadeOf(FactText(p), Trim(p.fromNode), Trim(p.relationship), Trim(p.toNode))
    ensures Trimmed(Trim(p.fromNode)) && Trimmed(Trim(p.relationship)) && Trimmed(Trim(p.toNode))
  {
    JoinedIsMade(Trim(p.fromNode), Trim(p.relationship), Trim(p.toNode));
  }

  lemma SameReading(p: Proposal, q: Proposal)
    requires Trim(p.nodeId) == [] && GraphFactKey(q) == GraphFactKey(p)
    requires OnlyTwo(FactText(p), Trim(p.fromNode), Trim(p.relationship))
    ensures SameFact(p, q)
  {
    SameText(p, q);
    TextIsMade(p);
    TextIsMade(q);
    OnlyReading(FactText(p), Trim(p.fromNode), Trim(p.relationship), Trim(p.toNode),
      Trim(q.fromNode), Trim(q.relationship), Trim(q.toNode));
  }

  /** The proposal of the names between two clean separators has the same text. */
  lemma ReadAt(s: string, i: int, j: int) returns (q: Proposal)
    requires Trimmed(s) && Clean(s, i) && Clean(s, j) && i < j
    ensures Trim(q.nodeId) == [] && FactText(q) == s
    ensures |Trim(q.fromNode)| == i && |Trim(q.fromNode)| + 1 + |Trim(q.relationship)| == j
  {
    Splitting(s, i, j);
    MadeIsJoined(s, s[..i], s[i + 1..j], s[j + 1..]);
    TrimOfTrimmed(s[..i]);
    TrimOfTrimmed(s[i + 1..j]);
    TrimOfTrimmed(s[j + 1..]);
    q := Proposal("", "", s[..i], s[i + 1..j], s[j + 1..]);
  }

  lemma TrimOfTrimmed(s: string)
    requires Trimmed(s)
    ensures Trim(s) == s
  {
  }

  /** Another fact with the same key. */
  lemma Reread(p: Proposal, k: int) returns (q: Proposal)
    requires Trim(p.nodeId) == [] && Clean(FactText(p), k)
    requires k != |Trim(p.fromNode)| && k != |Trim(p.fromNode)| + 1 + |Trim(p.relationship)|
    ensures GraphFactKey(q) == GraphFactKey(p) && !SameFact(p, q)
  {
    var at := |Trim(p.fromNode)|;
    TextIsMade(p);
    Reading(FactText(p), Trim(p.fromNode), Trim(p.relationship), Trim(p.toNode));
    q := ReadAt(FactText(p), if k < at then k else at, if k < at then at else k);
    SameText(p, q);
  }

  // ----- Scoring -----

  datatype LabelValue = Positive | Negative | Superseded | Unresolved | OtherLabel

  datatype Label = Label(factKey: string, value: LabelValue)

  datatype Recommendation = AutoAccept | AutoReject | OtherRecommendation

  datatype Policy = Policy(proposalId: string, recommendation: Recommendation)

  /** The outcome of one proposal; every proposal has exactly one. */
  datatype Score =
    | Unscored | TruePositive | FalseNegative | ManualPositive | FalsePositive | TrueNegative | ManualNegative
                 | SupersededScore | UnresolvedScore | OtherScore

  function ScoreOf(truth: LabelValue, recommendation: Recommendation): Score {
    match truth
    case Positive =>
      (match recommendation case AutoAccept => TruePositive case AutoReject => FalseNegative case _ => ManualPositive)
    case Negative =>
      (match recommendation case AutoAccept => FalsePositive case AutoReject => TrueNegative case _ => ManualNegative)
    case Superseded => SupersededScore
    case Unresolved => UnresolvedScore
    case OtherLabel => OtherScore
  }

  /** Later labels of a fact replace earlier ones; a blank key labels nothing. */
  function LabelOf(labels: seq<Label>, key: string): (r: seq<LabelValue>)
    ensures |r| <= 1
  {
    if labels == [] then []
    else
      var last := labels[|labels| - 1];
      if Trim(last.factKey) == key && key != [] then [last.value] else LabelOf(labels[..|labels| - 1], key)
  }

  function RecommendationOf(policies: seq<Policy>, proposalId: string): Recommendation {
    if policies == [] then OtherRecommendation
    else
      var last := policies[|policies| - 1];
      if last.proposalId == proposalId then last.recommendation
      else RecommendationOf(policies[..|policies| - 1], proposalId)
  }

  function Score1(p: Proposal, labels: seq<Label>, policies: seq<Policy>): Score {
    var truth := LabelOf(labels, GraphFactKey(p));
    if truth == [] then Unscored else ScoreOf(truth[0], RecommendationOf(policies, p.id))
  }

  /** The outcomes of all proposals, in order. */
  function AllScores(proposals: seq<Proposal>, labels: seq<Label>, policies: seq<Policy>): (r: seq<Score>)
    ensures |r| == |proposals|
  {
    seq(|proposals|, i requires 0 <= i < |proposals| => Score1(proposals[i], labels, policies))
  }

  lemma AllScoresAt(proposals: seq<Proposal>, labels: seq<Label>, policies: seq<Policy>, i: nat)
    requires i < |proposals|
    ensures AllScores(proposals, labels, policies)[i] == Score1(proposals[i], labels, policies)
  {
  }

  function Count(scores: seq<Score>, s: Score): nat {
    if scores == [] then 0 else Count(scores[..|scores| - 1], s) + (if scores[|scores| - 1] == s then 1 else 0)
  }

  method IndexLabels(labels: seq<Label>) returns (byFact: map<string, LabelValue>)
    ensures forall k :: LabelOf(labels, k) == if k in byFact then [byFact[k]] else []
  {
    byFact := map[];
    for i := 0 to |labels|
      invariant forall k :: LabelOf(labels[..i], k) == if k in byFact then [byFact[k]] else []
    {
      assert labels[..i + 1][..i] == labels[..i];
      var key := Trim(labels[i].factKey);
      if key != [] {
        byFact := byFact[key := labels[i].value];
      }
    }
    assert labels[..|labels|] == labels;
  }

  method IndexPolicies(policies: seq<Policy>) returns (byProposal: map<string, Recommendation>)
    ensures forall k :: RecommendationOf(policies, k) == if k in byProposal then byProposal[k] else OtherRecommendation
  {
    byProposal := map[];
    for i := 0 to |policies|
      invariant forall k ::
        RecommendationOf(policies[..i], k) == if k in byProposal then byProposal[k] else OtherRecommendation
    {
      assert policies[..i + 1][..i] == policies[..i];
      byProposal := byProposal[policies[i].proposalId := policies[i].recommendation];
    }
    assert policies[..|policies|] == policies;
  }

  datatype Counts = Counts(
    candidates: nat, labeled: nat, positive: nat, negative: nat, superseded: nat, unresolved: nat,
    truePositive: nat, falsePositive: nat, trueNegative: nat, falseNegative: nat, manual: nat, unscored: nat)

  /** The counts balance. */
  predicate Balanced(c: Counts) {
    && c.candidates == c.labeled + c.unscored
    && c.positive + c.negative == c.truePositive + c.falsePositive + c.trueNegative + c.falseNegative + c.manual
    && c.truePositive + c.falseNegative <= c.positive && c.falsePositive + c.trueNegative <= c.negative
    && c.positive + c.negative + c.superseded + c.unresolved <= c.labeled
  }

  const NO_COUNTS := Counts(0, 0, 0, 0, 0, 0, 0, 0, 0, 0, 0, 0)

  function AddScore(c: Counts, s: Score): Counts {
    var n := c.(candidates := c.candidates + 1, labeled := c.labeled + if s.Unscored? then 0 else 1);
    match s
    case Unscored => n.(unscored := c.unscored + 1)
    case TruePositive => n.(positive := c.positive + 1, truePositive := c.truePositive + 1)
    case FalseNegative => n.(positive := c.positive + 1, falseNegative := c.falseNegative + 1)
    case ManualPositive => n.(positive := c.positive + 1, manual := c.manual + 1)
    case FalsePositive => n.(negative := c.negative + 1, falsePositive := c.falsePositive + 1)
    case TrueNegative => n.(negative := c.negative + 1, trueNegative := c.trueNegative + 1)
    case ManualNegative => n.(negative := c.negative + 1, manual := c.manual + 1)
    case SupersededScore => n.(superseded := c.superseded + 1)
    case UnresolvedScore => n.(unresolved := c.unresolved + 1)
    case OtherScore => n
  }

  function Tally(scores: seq<Score>): Counts {
    if scores == [] then NO_COUNTS else AddScore(Tally(scores[..|scores| - 1]), scores[|scores| - 1])
  }

  lemma TallyStep(scores: seq<Score>, i: nat)
    requires i < |scores|
    ensures Tally(scores[..i + 1]) == AddScore(Tally(scores[..i]), scores[i])
  {
    assert scores[..i + 1][..i] == scores[..i];
  }

  lemma {:induction false} TallyBalances(scores: seq<Score>)
    ensures Balanced(Tally(scores)) && Tally(scores).candidates == |scores|
  {
    if scores != [] {
      TallyBalances(scores[..|scores| - 1]);
      AddScoreBalances(Tally(scores[..|scores| - 1]), scores[|scores| - 1]);
    }
  }

  lemma AddScoreBalances(c: Counts, s: Score)
    requires Balanced(c)
    ensures Balanced(AddScore(c, s)) && AddScore(c, s).candidates == c.candidates + 1
  {
  }

  /** Every count of the evaluation is the number of proposals with that outcome. */
  lemma {:induction false} TallyCounts(scores: seq<Score>)
    ensures var c := Tally(scores);
      && c.truePositive == Count(scores, TruePositive) && c.falsePositive == Count(scores, FalsePositive)
      && c.trueNegative == Count(scores, TrueNegative) && c.falseNegative == Count(scores, FalseNegative)
      && c.manual == Count(scores, ManualPositive) + Count(scores, ManualNegative)
      && c.unscored == Count(scores, Unscored) && c.labeled == |scores| - Count(scores, Unscored)
      && c.positive == Count(scores, TruePositive) + Count(scores, FalseNegative) + Count(scores, ManualPositive)
      && c.negative == Count(scores, FalsePositive) + Count(scores, TrueNegative) + Count(scores, ManualNegative)
      && c.superseded == Count(scores, SupersededScore) && c.unresolved == Count(scores, UnresolvedScore)
  {
    if scores != [] {
      TallyCounts(scores[..|scores| - 1]);
    }
  }

  method ScoreProposal(p: Proposal, byFact: map<string, LabelValue>, byProposal: map<string, Recommendation>,
                       ghost labels: seq<Label>, ghost policies: seq<Policy>) returns (score: Score)
    requires forall k :: LabelOf(labels, k) == if k in byFact then [byFact[k]] else []
    requires forall k ::
      RecommendationOf(policies, k) == if k in byProposal then byProposal[k] else OtherRecommendation
    ensures score == Score1(p, labels, policies)
  {
    var key := GraphFactKey(p);
    score := Unscored;
    if key in byFact {
      var recommendation := if p.id in byProposal then byProposal[p.id] else OtherRecommendation;
      score := ScoreOf(byFact[key], recommendation);
    }
  }

  method CountScores(proposals: seq<Proposal>, labels: seq<Label>, policies: seq<Policy>) returns (c: Counts)
    ensures c == Tally(AllScores(proposals, labels, policies))
  {
    var byFact := IndexLabels(labels);
    var byProposal := IndexPolicies(policies);
    c := NO_COUNTS;
    ghost var scores := AllScores(proposals, labels, policies);
    for i := 0 to |proposals|
      invariant c == Tally(scores[..i])
    {
      var score := ScoreProposal(proposals[i], byFact, byProposal, labels, policies);
      AllScoresAt(proposals, labels, policies, i);
      TallyStep(scores, i);
      c := AddScore(c, score);
    }
    assert scores[..|proposals|] == scores;
  }

  function Ratio(num: int, den: int): real {
    if den <= 0 then 0.0 else num as real / den as real
  }

  lemma RatioInUnit(num: int, den: int)
    requires 0 <= num <= den
    ensures 0.0 <= Ratio(num, den) <= 1.0
  {
  }

  datatype Verdict = NeedsMoreData | ManualReview | Improvement | Neutral | Regression

  datatype Scores = Scores(counts: Counts, precision: real, recall: real, specificity: real, accuracy: real,
                           coverage: real, verdict: Verdict)

  function Verdict1(c: Counts, precision: real, recall: real): Verdict {
    if c.labeled == 0 then NeedsMoreData
    else if 0 < c.falsePositive || precision < 0.8 then ManualReview
    else if 0.8 <= recall && 0.9 <= precision && c.manual == 0 then Improvement
    else Neutral
  }

  function ScoresOf(c: Counts): Scores {
    var precision := Ratio(c.truePositive, c.truePositive + c.falsePositive);
    var recall := Ratio(c.truePositive, c.truePositive + c.falseNegative);
    Scores(c, precision, recall,
      Ratio(c.trueNegative, c.trueNegative + c.falsePositive),
      Ratio(c.truePositive + c.trueNegative, c.truePositive + c.trueNegative + c.falsePositive + c.falseNegative),
      Ratio(c.labeled, c.candidates),
      Verdict1(c, precision, recall))
  }

  /** The scores are a function of balanced counts. */
  predicate Built(e: Scores) {
    Balanced(e.counts) && e == ScoresOf(e.counts)
  }

  /** All ratios lie between 0 and 1. */
  lemma RatiosInUnit(e: Scores)
    requires Built(e)
    ensures 0.0 <= e.precision <= 1.0 && 0.0 <= e.recall <= 1.0 && 0.0 <= e.specificity <= 1.0
    ensures 0.0 <= e.accuracy <= 1.0 && 0.0 <= e.coverage <= 1.0
  {
    var c := e.counts;
    RatioInUnit(c.truePositive, c.truePositive + c.falsePositive);
    RatioInUnit(c.truePositive, c.truePositive + c.falseNegative);
    RatioInUnit(c.trueNegative, c.trueNegative + c.falsePositive);
    RatioInUnit(c.truePositive + c.trueNegative, c.truePositive + c.trueNegative + c.falsePositive + c.falseNegative);
    RatioInUnit(c.labeled, c.candidates);
  }

  method BuildEvaluation(proposals: seq<Proposal>, labels: seq<Label>, policies: seq<Policy>) returns (e: Scores)
    ensures e.counts == Tally(AllScores(proposals, labels, policies)) && Built(e)
  {
    var c := CountScores(proposals, labels, policies);
    TallyBalances(AllScores(proposals, labels, policies));
    e := ScoresOf(c);
  }

  // ----- Promotion readiness -----

  datatype Attached = NoEvaluation | Attached(scores: Scores)

  datatype Readiness = Blocked | RegressionDetected | MoreDataNeeded | ManualReviewRequired | ReadyForReview

  function PromotionReadiness(hasComparison: bool, comparison: Verdict, evaluation: Attached): Readiness {
    if !hasComparison then Blocked
    else if comparison.Regression? then RegressionDetected
    else if comparison.NeedsMoreData? then MoreDataNeeded
    else
      var doubtful := comparison.ManualReview?;
      if evaluation.NoEvaluation? then ManualReviewRequired
      else
        var e := evaluation.scores;
        if e.verdict.NeedsMoreData? || e.coverage < 0.8 then MoreDataNeeded
        else if 0 < e.counts.falsePositive && e.precision < 0.9 then ManualReviewRequired
        else if doubtful || e.recall < 0.8 then ManualReviewRequired
        else ReadyForReview
  }

  /** For an evaluation that was built from counts, a candidate is ready if and only if the comparison is
      sound and precision, recall and label coverage all meet their thresholds: precision is looked at only
      when there are false positives, but without any the recall threshold forces it to be 1. */
  lemma ReadyIffThresholdsMet(comparison: Verdict, e: Scores)
    requires Built(e)
    ensures PromotionReadiness(true, comparison, Attached(e)).ReadyForReview?
      <==> (comparison.Improvement? || comparison.Neutral?) &&
           0.9 <= e.precision && 0.8 <= e.recall && 0.8 <= e.coverage
  {
    var c := e.counts;
    RatioEnds(c.truePositive + c.falseNegative);
    RatioEnds(c.truePositive);
    RatioEnds(c.candidates);
  }

  /** An evaluation is called an improvement if and only if nothing was wrongly accepted, nothing was left to
      manual review and enough of the true facts were accepted: the other conditions follow. */
  lemma ImprovementIff(e: Scores)
    requires Built(e)
    ensures e.verdict.Improvement? <==> e.counts.falsePositive == 0 && e.counts.manual == 0 && 0.8 <= e.recall
    ensures e.verdict.Improvement? && 0.8 <= e.coverage ==>
      PromotionReadiness(true, Improvement, Attached(e)).ReadyForReview?
  {
    var c := e.counts;
    RatioEnds(c.truePositive + c.falseNegative);
    RatioEnds(c.truePositive);
  }

  lemma RatioEnds(n: nat)
    ensures Ratio(0, n) == 0.0
    ensures 0 < n ==> Ratio(n, n) == 1.0
  {
  }
}
