/** Trimmed text keys, as the API compares them. */
module TextKeys {

  predicate IsSpace(c: char) {
    || c == ' ' || c == '\t' || c == '\n' || c == '\r'
    || c == '\U{000B}' || c == '\U{000C}' || c == '\U{0085}' || c == '\U{00A0}'
  }

  function Trim(s: string): (r: string)
    ensures |r| <= |s|
    ensures r != [] ==> !IsSpace(r[0]) && !IsSpace(r[|r| - 1])
  {
    if s == [] then []
    else if IsSpace(s[0]) then Trim(s[1..])
    else if IsSpace(s[|s| - 1]) then Trim(s[..|s| - 1])
    else s
  }

  /** The set of trimmed values; blank values do not count. */
  function Keys(values: seq<string>): set<string> {
    set v | v in values && Trim(v) != [] :: Trim(v)
  }

  /** Trimmed, without blanks and repetitions, in order of first occurrence. */
  function UniqueStrings(values: seq<string>): seq<string> {
    if values == [] then []
    else
      var front, v := UniqueStrings(values[..|values| - 1]), Trim(values[|values| - 1]);
      if v == [] || v in front then front else front + [v]
  }

  /** The unique strings are the keys of the values, each once. */
  lemma {:induction false} UniqueStringsAreKeys(values: seq<string>)
    ensures forall v :: v in UniqueStrings(values) <==> v in Keys(values)
    ensures forall i, j :: 0 <= i < j < |UniqueStrings(values)| ==> UniqueStrings(values)[i] != UniqueStrings(values)[j]
  {
    if values != [] {
      var front, v := values[..|values| - 1], Trim(values[|values| - 1]);
      UniqueStringsAreKeys(front);
      assert values == front + [values[|values| - 1]];
      assert Keys(values) == Keys(front) + (if v == [] then {} else {v});
    }
  }

  /** They come in order of first occurrence: more values only add to the end. */
  lemma {:induction false} UniqueStringsGrow(values: seq<string>, more: seq<string>)
    ensures UniqueStrings(values) <= UniqueStrings(values + more)
  {
    if more == [] {
      assert values + more == values;
    } else {
      UniqueStringsGrow(values, more[..|more| - 1]);
      assert (values + more)[..|values + more| - 1] == values + more[..|more| - 1];
    }
  }
}

/** Materialization of algorithm signal proposals: a preflight against the signal ledger decides
    whether a proposal would be written (internal/api/algorithms.go). */
module Materialization {
  import opened TextKeys

  datatype ProposalStatus = Proposed | Reviewed | Rejected | Superseded | Unknown

  datatype Proposal = Proposal(
    id: string, tenant: string, signalType: string, created: int, sourceEvents: seq<string>, status: ProposalStatus,
    hypothesis: bool, researchOnly: bool, eligible: bool, payloadValid: bool, rationaleValid: bool,
    resultId: string, algorithmId: string, executionId: string)

  datatype AlgorithmResult = AlgorithmResult(tenant: string, algorithmId: string, executionId: string)

  /** A row of the signal ledger, keyed by its id; it is listed by its time. */
  datatype Signal = Signal(id: string, tenant: string, signalType: string, time: int, eventIds: seq<string>)

  datatype Summary = Summary(total: nat, reviewedRatio: real, highCriticalUnreviewed: nat)

  datatype Reason =
    | NotEligible | AdapterUnavailable
    | Unreviewed | RejectedProposal | SupersededProposal | UnsupportedStatus
    | MissingSourceEvents | InvalidPayload | InvalidRationale
    | MissingResult | TenantMismatch | AlgorithmMismatch | ExecutionMismatch
    | DuplicateOverlap

  datatype PreflightStatus = Eligible | Blocked | Invalid | DuplicateRisk

  datatype Item = Item(proposalId: string, reasons: seq<Reason>, duplicates: seq<string>, status: PreflightStatus,
                       wouldWrite: bool)

  /** Signals and proposals meet on tenant, type and at least one source event. */
  predicate Overlaps(signal: Signal, p: Proposal) {
    && Trim(signal.tenant) == Trim(p.tenant) && Trim(signal.signalType) == Trim(p.signalType)
    && !(Keys(signal.eventIds) !! Keys(p.sourceEvents))
  }

  /** The ids of the overlapping signals, in ledger order. */
  function Overlapping(p: Proposal, signals: seq<Signal>): seq<string> {
    if signals == [] then []
    else
      var n := |signals| - 1;
      Overlapping(p, signals[..n]) + if Overlaps(signals[n], p) then [signals[n].id] else []
  }

  /** The ids listed are those of the overlapping signals, and no others. */
  lemma {:induction false} OverlappingIds(p: Proposal, signals: seq<Signal>, id: string)
    ensures id in Overlapping(p, signals) <==> exists s :: s in signals && Overlaps(s, p) && s.id == id
  {
    if signals != [] {
      var front, last := signals[..|signals| - 1], signals[|signals| - 1];
      OverlappingIds(p, front, id);
      assert forall s :: s in signals <==> s in front || s == last;
    }
  }

  lemma KeysStep(values: seq<string>, j: nat)
    requires j < |values|
    ensures Keys(values[..j + 1]) == Keys(values[..j]) + if Trim(values[j]) == [] then {} else {Trim(values[j])}
  {
    assert values[..j + 1] == values[..j] + [values[j]];
  }

  /** Whether one of the values is among the keys. */
  method SharesKey(values: seq<string>, keys: set<string>) returns (shared: bool)
    requires forall k :: k in keys ==> k != []
    ensures shared <==> !(Keys(values) !! keys)
  {
    shared := false;
    var j := 0;
    while !shared && j < |values|
      invariant j <= |values|
      invariant shared <==> !(Keys(values[..j]) !! keys)
      decreases |values| - j
    {
      KeysStep(values, j);
      shared := Trim(values[j]) in keys;
      j := j + 1;
    }
    assert !shared ==> values[..j] == values;
    assert shared ==> Keys(values[..j]) <= Keys(values);
  }

  method DuplicateSignalIds(p: Proposal, signals: seq<Signal>) returns (ids: seq<string>)
    ensures ids == UniqueStrings(Overlapping(p, signals))
  {
    var sourceEvents := Keys(p.sourceEvents);
    var out := [];
    for i := 0 to |signals|
      invariant out == Overlapping(p, signals[..i])
    {
      assert signals[..i + 1][..i] == signals[..i];
      var signal := signals[i];
      if Trim(signal.tenant) == Trim(p.tenant) && Trim(signal.signalType) == Trim(p.signalType) {
        var shared := SharesKey(signal.eventIds, sourceEvents);
        if shared { out := out + [signal.id]; }
      }
    }
    assert signals[..|signals|] == signals;
    ids := UniqueStrings(out);
  }

  function StatusReason(status: ProposalStatus): Reason {
    match status
    case Proposed => Unreviewed
    case Rejected => RejectedProposal
    case Superseded => SupersededProposal
    case _ => UnsupportedStatus
  }

  function When(condition: bool, reason: Reason): seq<Reason> {
    if condition then [reason] else []
  }

  function ResultReasons(p: Proposal, results: map<string, AlgorithmResult>): seq<Reason> {
    if p.hypothesis then []
    else if p.resultId !in results then [MissingResult]
    else
      var r := results[p.resultId];
      When(Trim(r.tenant) != Trim(p.tenant), TenantMismatch)
      + When(Trim(r.algorithmId) != Trim(p.algorithmId), AlgorithmMismatch)
      + When(Trim(r.executionId) != Trim(p.executionId), ExecutionMismatch)
  }

  function Reasons(p: Proposal, results: map<string, AlgorithmResult>, duplicates: seq<string>): seq<Reason> {
    When(p.hypothesis && (p.researchOnly || !p.eligible), NotEligible)
    + When(p.hypothesis, AdapterUnavailable)
    + When(!p.status.Reviewed?, StatusReason(p.status))
    + When(!p.hypothesis && p.sourceEvents == [], MissingSourceEvents)
    + When(!p.payloadValid, InvalidPayload)
    + When(!p.rationaleValid, InvalidRationale)
    + ResultReasons(p, results)
    + When(duplicates != [], DuplicateOverlap)
  }

  predicate Invalidates(r: Reason) {
    r.MissingSourceEvents? || r.InvalidPayload? || r.InvalidRationale? || r.MissingResult?
    || r.TenantMismatch? || r.AlgorithmMismatch? || r.ExecutionMismatch?
  }

  predicate AnyInvalidates(reasons: seq<Reason>) {
    reasons != [] && (Invalidates(reasons[|reasons| - 1]) || AnyInvalidates(reasons[..|reasons| - 1]))
  }

  /** The review coverage as a whole blocks every proposal. */
  predicate GloballyBlocked(summary: Summary, minReviewedRatio: real) {
    var ratio := if minReviewedRatio <= 0.0 || 1.0 < minReviewedRatio then 1.0 else minReviewedRatio;
    (0 < summary.total && summary.reviewedRatio < ratio) || 0 < summary.highCriticalUnreviewed
  }

  /** The assessment of a proposal whose duplicates were found to be `duplicates`. */
  function AssessWith(p: Proposal, results: map<string, AlgorithmResult>, duplicates: seq<string>,
                      blocked: bool): (r: Item)
    ensures r.wouldWrite <==> r.status.Eligible?
  {
    var reasons := Reasons(p, results, duplicates);
    var status :=
      if AnyInvalidates(reasons) then Invalid
      else if duplicates != [] then DuplicateRisk
      else if reasons != [] || blocked then Blocked
      else Eligible;
    Item(p.id, reasons, duplicates, status, status.Eligible? && !blocked)
  }

  function Assess(p: Proposal, results: map<string, AlgorithmResult>, signals: seq<Signal>, blocked: bool): Item {
    AssessWith(p, results, UniqueStrings(Overlapping(p, signals)), blocked)
  }

  /** Everything about a proposal but the ledger allows it to be written. */
  predicate Writable(p: Proposal, results: map<string, AlgorithmResult>, blocked: bool) {
    && !blocked && !p.hypothesis && p.status.Reviewed? && p.sourceEvents != [] && p.payloadValid && p.rationaleValid
    && p.resultId in results
    && Trim(results[p.resultId].tenant) == Trim(p.tenant)
    && Trim(results[p.resultId].algorithmId) == Trim(p.algorithmId)
    && Trim(results[p.resultId].executionId) == Trim(p.executionId)
  }

  lemma NoReasonIff(p: Proposal, results: map<string, AlgorithmResult>, duplicates: seq<string>)
    ensures Reasons(p, results, duplicates) == [] && !p.hypothesis <==> Writable(p, results, false) && duplicates == []
  {
    var r := ResultReasons(p, results);
    assert Reasons(p, results, duplicates) == [] ==> r == [];
    if !p.hypothesis && p.resultId in results && r == [] {
      assert |r| == 0;
    }
  }

  /** A proposal would be written if and only if it is writable and no signal with a nonblank id
      overlaps it. */
  lemma WouldWriteIff(p: Proposal, results: map<string, AlgorithmResult>, signals: seq<Signal>, blocked: bool)
    ensures Assess(p, results, signals, blocked).wouldWrite
      <==> Writable(p, results, blocked) && forall s :: s in signals && Trim(s.id) != [] ==> !Overlaps(s, p)
  {
    var duplicates := UniqueStrings(Overlapping(p, signals));
    NoDuplicates(p, signals);
    NoReasonIff(p, results, duplicates);
    var reasons := Reasons(p, results, duplicates);
    assert p.hypothesis ==> reasons != [];
  }

  lemma NoDuplicates(p: Proposal, signals: seq<Signal>)
    ensures UniqueStrings(Overlapping(p, signals)) == []
      <==> forall s :: s in signals && Trim(s.id) != [] ==> !Overlaps(s, p)
  {
    var ids := Overlapping(p, signals);
    var u := UniqueStrings(ids);
    UniqueStringsAreKeys(ids);
    assert u != [] ==> u[0] in Keys(ids);
    forall s | s in signals && Trim(s.id) != [] && Overlaps(s, p)
      ensures Trim(s.id) in Keys(ids)
    {
      OverlappingIds(p, signals, s.id);
    }
    forall v | v in ids && Trim(v) != []
      ensures exists s :: s in signals && Trim(s.id) != [] && Overlaps(s, p)
    {
      OverlappingIds(p, signals, v);
    }
  }

  // ----- The whole response -----

  datatype Preflight = Preflight(
    items: seq<Item>, eligible: nat, blocked: nat, invalid: nat, duplicateRisk: nat, wouldWrite: nat,
    reasonCounts: map<Reason, nat>)

  function CountStatus(items: seq<Item>, s: PreflightStatus): nat {
    if items == [] then 0
    else CountStatus(items[..|items| - 1], s) + (if items[|items| - 1].status == s then 1 else 0)
  }

  function CountReason(items: seq<Item>, r: Reason): nat {
    if items == [] then 0
    else CountReason(items[..|items| - 1], r) + Occurrences(items[|items| - 1].reasons, r)
  }

  function Occurrences(reasons: seq<Reason>, r: Reason): nat {
    if reasons == [] then 0
    else Occurrences(reasons[..|reasons| - 1], r) + (if reasons[|reasons| - 1] == r then 1 else 0)
  }

  function CountIn(counts: map<Reason, nat>, r: Reason): nat {
    if r in counts then counts[r] else 0
  }

  function AddReasons(counts: map<Reason, nat>, reasons: seq<Reason>): map<Reason, nat> {
    if reasons == [] then counts
    else
      var out, r := AddReasons(counts, reasons[..|reasons| - 1]), reasons[|reasons| - 1];
      out[r := CountIn(out, r) + 1]
  }

  method CountReasons(counts: map<Reason, nat>, reasons: seq<Reason>) returns (out: map<Reason, nat>)
    ensures out == AddReasons(counts, reasons)
  {
    out := counts;
    for i := 0 to |reasons|
      invariant out == AddReasons(counts, reasons[..i])
    {
      assert reasons[..i + 1][..i] == reasons[..i];
      out := out[reasons[i] := CountIn(out, reasons[i]) + 1];
    }
    assert reasons[..|reasons|] == reasons;
  }

  function ReasonTally(items: seq<Item>): map<Reason, nat> {
    if items == [] then map[]
    else AddReasons(ReasonTally(items[..|items| - 1]), items[|items| - 1].reasons)
  }

  lemma {:induction false} AddedReasons(counts: map<Reason, nat>, reasons: seq<Reason>, r: Reason)
    ensures CountIn(AddReasons(counts, reasons), r) == CountIn(counts, r) + Occurrences(reasons, r)
  {
    if reasons != [] {
      AddedReasons(counts, reasons[..|reasons| - 1], r);
    }
  }

  /** The tally of a reason is how often it was given over all items. */
  lemma {:induction false} ReasonTallyCounts(items: seq<Item>, r: Reason)
    ensures CountIn(ReasonTally(items), r) == CountReason(items, r)
  {
    if items != [] {
      ReasonTallyCounts(items[..|items| - 1], r);
      AddedReasons(ReasonTally(items[..|items| - 1]), items[|items| - 1].reasons, r);
    }
  }

  /** The counters agree with the items. */
  predicate Counted(p: Preflight) {
    && p.eligible + p.blocked + p.invalid + p.duplicateRisk == |p.items|
    && p.eligible == p.wouldWrite == CountStatus(p.items, Eligible)
    && p.blocked == CountStatus(p.items, Blocked) && p.invalid == CountStatus(p.items, Invalid)
    && p.duplicateRisk == CountStatus(p.items, DuplicateRisk)
    && p.reasonCounts == ReasonTally(p.items)
  }

  method AddItem(given: Preflight, item: Item) returns (out: Preflight)
    requires Counted(given) && (item.wouldWrite <==> item.status.Eligible?)
    ensures Counted(out) && out.items == given.items + [item]
  {
    var counts := CountReasons(given.reasonCounts, item.reasons);
    out := given.(items := given.items + [item], reasonCounts := counts);
    assert out.items[..|given.items|] == given.items;
    match item.status
    case Invalid => out := out.(invalid := out.invalid + 1);
    case DuplicateRisk => out := out.(duplicateRisk := out.duplicateRisk + 1);
    case Blocked => out := out.(blocked := out.blocked + 1);
    case Eligible => out := out.(eligible := out.eligible + 1);
    if item.wouldWrite {
      out := out.(wouldWrite := out.wouldWrite + 1);
    }
  }

  /** Item i is the assessment of proposal i against the ledger as given; every proposal is counted in
      exactly one status, and what would be written is exactly what is eligible. */
  method PreflightResponse(proposals: seq<Proposal>, results: map<string, AlgorithmResult>, signals: seq<Signal>,
                           summary: Summary, minReviewedRatio: real) returns (out: Preflight)
    ensures |out.items| == |proposals| && Counted(out)
    ensures forall i :: 0 <= i < |proposals| ==>
      out.items[i] == Assess(proposals[i], results, signals, GloballyBlocked(summary, minReviewedRatio))
  {
    var items := AssessItems(proposals, results, signals, GloballyBlocked(summary, minReviewedRatio));
    forall i | 0 <= i < |proposals|
      ensures items[i] == Assess(proposals[i], results, signals, GloballyBlocked(summary, minReviewedRatio))
      ensures items[i].wouldWrite <==> items[i].status.Eligible?
    {
      AssessAllAt(proposals, results, signals, GloballyBlocked(summary, minReviewedRatio), i);
      EligibleWrites(proposals[i], results, signals, GloballyBlocked(summary, minReviewedRatio));
    }
    out := Tally(items);
  }

  method Tally(items: seq<Item>) returns (out: Preflight)
    requires forall i :: 0 <= i < |items| ==> (items[i].wouldWrite <==> items[i].status.Eligible?)
    ensures out.items == items && Counted(out)
  {
    out := Preflight([], 0, 0, 0, 0, 0, map[]);
    for i := 0 to |items|
      invariant |out.items| == i && Counted(out)
      invariant forall j :: 0 <= j < i ==> out.items[j] == items[j]
    {
      out := AddItem(out, items[i]);
    }
  }

  function AssessAll(proposals: seq<Proposal>, results: map<string, AlgorithmResult>, signals: seq<Signal>,
                     blocked: bool): (r: seq<Item>)
    ensures |r| == |proposals|
  {
    seq(|proposals|, k requires 0 <= k < |proposals| => Assess(proposals[k], results, signals, blocked))
  }

  /** One assessment per proposal, in order. */
  lemma AssessAllAt(proposals: seq<Proposal>, results: map<string, AlgorithmResult>, signals: seq<Signal>,
                    blocked: bool, i: nat)
    requires i < |proposals|
    ensures AssessAll(proposals, results, signals, blocked)[i] == Assess(proposals[i], results, signals, blocked)
  {
  }

  lemma EligibleWrites(p: Proposal, results: map<string, AlgorithmResult>, signals: seq<Signal>, blocked: bool)
    ensures var item := Assess(p, results, signals, blocked); item.wouldWrite <==> item.status.Eligible?
  {
  }

  method AssessItem(proposals: seq<Proposal>, i: nat, results: map<string, AlgorithmResult>, signals: seq<Signal>,
                    blocked: bool, ghost all: seq<Item>) returns (item: Item)
    requires i < |proposals| == |all| && all == AssessAll(proposals, results, signals, blocked)
    ensures item == all[i]
  {
    var duplicates := DuplicateSignalIds(proposals[i], signals);
    AssessAllAt(proposals, results, signals, blocked, i);
    item := AssessWith(proposals[i], results, duplicates, blocked);
  }

  lemma NextItem(all: seq<Item>, i: nat)
    requires i < |all|
    ensures all[..i + 1] == all[..i] + [all[i]]
  {
  }

  lemma WholeItems(all: seq<Item>)
    ensures all[..|all|] == all
  {
  }

  method AssessItems(proposals: seq<Proposal>, results: map<string, AlgorithmResult>, signals: seq<Signal>,
                     blocked: bool)
    returns (items: seq<Item>)
    ensures items == AssessAll(proposals, results, signals, blocked)
  {
    ghost var all := AssessAll(proposals, results, signals, blocked);
    items := [];
    for i := 0 to |proposals|
      invariant items == all[..i]
    {
      var item := AssessItem(proposals, i, results, signals, blocked, all);
      NextItem(all, i);
      items := items + [item];
    }
    WholeItems(all);
  }

  // ----- Runs of preflight and write -----

  function SignalFor(p: Proposal, signalId: string): Signal {
    Signal(signalId, p.tenant, p.signalType, p.created, p.sourceEvents)
  }

  function OfTenant(ledger: seq<Signal>, tenant: string): set<Signal> {
    set s | s in ledger && s.tenant == tenant
  }

  predicate NewestFirst(listing: seq<Signal>) {
    forall i, j :: 0 <= i < j < |listing| ==> listing[i] != listing[j] && listing[j].time <= listing[i].time
  }

  /** What a preflight is shown: the newest `limit` signals of the tenant.  Signals of one time come in
      any order, so which of them are left out is open. */
  predicate IsListing(listing: seq<Signal>, ledger: seq<Signal>, tenant: string, limit: nat) {
    && |listing| == (if |OfTenant(ledger, tenant)| <= limit then |OfTenant(ledger, tenant)| else limit)
    && NewestFirst(listing)
    && (forall s :: s in listing ==> s in OfTenant(ledger, tenant))
    && (forall s, o :: s in listing && o in OfTenant(ledger, tenant) && o !in listing ==> o.time <= s.time)
  }

  function Members(listing: seq<Signal>): set<Signal> {
    set s | s in listing
  }

  lemma {:induction false} SizeOfListing(listing: seq<Signal>)
    requires NewestFirst(listing)
    ensures |Members(listing)| == |listing|
  {
    if listing != [] {
      var front, last := listing[..|listing| - 1], listing[|listing| - 1];
      SizeOfListing(front);
      assert Members(listing) == Members(front) + {last};
    }
  }

  lemma SubsetSize(a: set<Signal>, b: set<Signal>)
    requires a <= b
    ensures |a| <= |b| && (|a| == |b| ==> a == b)
  {
    assert b == a + (b - a);
    assert |b| == |a| + |b - a|;
  }

  /** A tenant with no more signals than the limit is listed whole. */
  lemma SmallTenantIsListed(listing: seq<Signal>, ledger: seq<Signal>, tenant: string, limit: nat)
    requires IsListing(listing, ledger, tenant, limit) && |OfTenant(ledger, tenant)| <= limit
    ensures forall s :: s in OfTenant(ledger, tenant) ==> s in listing
  {
    SizeOfListing(listing);
    SubsetSize(Members(listing), OfTenant(ledger, tenant));
    assert forall s :: s in OfTenant(ledger, tenant) ==> s in Members(listing);
  }

  /** A request: what other writers have added to the ledger since the one before, and what it is shown. */
  datatype Request = Request(others: seq<Signal>, proposal: Proposal, results: map<string, AlgorithmResult>,
                             blocked: bool, listing: seq<Signal>, signalId: string)

  /** One materialization: preflight against the listing, then write or not. */
  function Write(ledger: seq<Signal>, q: Request): seq<Signal> {
    if Assess(q.proposal, q.results, q.listing,
              q.blocked).wouldWrite then ledger + [SignalFor(q.proposal, q.signalId)] else ledger
  }

  function RunAll(ledger: seq<Signal>, requests: seq<Request>): (r: seq<Signal>)
    ensures ledger <= r
    decreases |requests|, 1
  {
    if requests == [] then ledger else Write(Found(ledger, requests), requests[|requests| - 1])
  }

  /** The ledger as the last request finds it. */
  function Found(ledger: seq<Signal>, requests: seq<Request>): (r: seq<Signal>)
    requires requests != []
    ensures ledger <= r
    decreases |requests|, 0
  {
    RunAll(ledger, requests[..|requests| - 1]) + requests[|requests| - 1].others
  }

  /** The ids of the signals that the requests may write. */
  function Ours(requests: seq<Request>): set<string> {
    set k | 0 <= k < |requests| :: requests[k].signalId
  }

  /** Every request of the run is shown a listing of the ledger of its time, and others write other ids. */
  predicate ListedRun(ledger: seq<Signal>, requests: seq<Request>, limit: nat) {
    requests != [] ==>
      var front, q := requests[..|requests| - 1], requests[|requests| - 1];
      && ListedRun(ledger, front, limit) && ListedAt(Found(ledger, requests), q, limit)
      && NotAmong(q.others, Ours(front))
  }

  predicate NotAmong(signals: seq<Signal>, ids: set<string>) {
    forall s :: s in signals ==> s.id !in ids
  }

  /** The id of the signal to be written is new: repeated requests are answered from the record of the first. */
  predicate ListedAt(ledger: seq<Signal>, q: Request, limit: nat) {
    IsListing(q.listing, ledger, q.proposal.tenant, limit) && forall s :: s in ledger ==> s.id != q.signalId
  }

  /** The id is the key of the ledger. */
  predicate Keyed(ledger: seq<Signal>) {
    forall i, j :: 0 <= i < j < |ledger| ==> ledger[i].id != ledger[j].id
  }

  /** Other writers keep the ids unique. */
  predicate OthersKeepKeys(ledger: seq<Signal>, requests: seq<Request>) {
    requests != [] ==>
      var front := requests[..|requests| - 1];
      OthersKeepKeys(ledger, front) && (Keyed(RunAll(ledger, front)) ==> Keyed(Found(ledger, requests)))
  }

  lemma {:induction false} RunKeepsKeys(ledger: seq<Signal>, requests: seq<Request>, limit: nat)
    requires Keyed(ledger) && ListedRun(ledger, requests, limit) && OthersKeepKeys(ledger, requests)
    ensures Keyed(RunAll(ledger, requests))
  {
    if requests != [] {
      var q := requests[|requests| - 1];
      RunKeepsKeys(ledger, requests[..|requests| - 1], limit);
      KeyedAppend(Found(ledger, requests), SignalFor(q.proposal, q.signalId));
    }
  }

  lemma KeyedAppend(ledger: seq<Signal>, s: Signal)
    requires Keyed(ledger) && forall o :: o in ledger ==> o.id != s.id
    ensures Keyed(ledger + [s])
  {
  }

  predicate ShareEvent(a: Signal, b: Signal) {
    a.tenant == b.tenant && Trim(a.signalType) == Trim(b.signalType) && !(Keys(a.eventIds) !! Keys(b.eventIds))
  }

  /** No signal with one of the ids shares a source event with an earlier signal of its tenant and type. */
  predicate Unshared(ledger: seq<Signal>, ours: set<string>) {
    forall i, j :: 0 <= i < j < |ledger| && ledger[j].id in ours && Trim(ledger[i].id) != [] ==>
      !ShareEvent(ledger[i], ledger[j])
  }

  predicate Writes(q: Request) {
    Assess(q.proposal, q.results, q.listing, q.blocked).wouldWrite
  }

  /** A ledger signal that a write of the proposal would duplicate. */
  predicate IsDuplicate(s: Signal, p: Proposal) {
    s.tenant == p.tenant && Trim(s.id) != [] && Overlaps(s, p)
  }

  /** No duplicate is left out of the listing. */
  predicate NothingHidden(ledger: seq<Signal>, q: Request) {
    forall s :: s in ledger && IsDuplicate(s, q.proposal) ==> s in q.listing
  }

  /** Whatever was written, nothing it duplicates was hidden from it. */
  predicate CleanRun(ledger: seq<Signal>, requests: seq<Request>) {
    requests != [] ==>
      var front, q := requests[..|requests| - 1], requests[|requests| - 1];
      CleanRun(ledger, front) && (Writes(q) ==> NothingHidden(Found(ledger, requests), q))
  }

  /** A write duplicates a ledger signal if and only if one is hidden from it. */
  lemma DuplicateIsHidden(ledger: seq<Signal>, q: Request, limit: nat)
    requires ListedAt(ledger, q, limit) && Writes(q)
    ensures (forall s :: s in ledger && Trim(s.id) != [] ==> !ShareEvent(s, SignalFor(q.proposal, q.signalId)))
      <==> NothingHidden(ledger, q)
  {
    WouldWriteIff(q.proposal, q.results, q.listing, q.blocked);
    assert forall s: Signal :: Trim(s.id) != [] ==>
      (ShareEvent(s, SignalFor(q.proposal, q.signalId)) <==> IsDuplicate(s, q.proposal));
  }

  lemma UnsharedStep(before: seq<Signal>, q: Request, limit: nat, ours: set<string>)
    requires ListedAt(before, q, limit) && q.signalId in ours
    ensures Unshared(Write(before, q), ours) <==> Unshared(before, ours) && (Writes(q) ==> NothingHidden(before, q))
  {
    if Writes(q) {
      DuplicateIsHidden(before, q, limit);
      UnsharedAppend(before, SignalFor(q.proposal, q.signalId), ours);
    }
  }

  lemma UnsharedAppend(before: seq<Signal>, s: Signal, ours: set<string>)
    requires s.id in ours
    ensures Unshared(before + [s], ours) <==>
      Unshared(before, ours) && forall o :: o in before && Trim(o.id) != [] ==> !ShareEvent(o, s)
  {
    var after := before + [s];
    if Unshared(after, ours) {
      assert forall i, j :: 0 <= i < j < |before| ==> after[i] == before[i] && after[j] == before[j];
      forall o | o in before && Trim(o.id) != []
        ensures !ShareEvent(o, s)
      {
        var i :| 0 <= i < |before| && before[i] == o;
        assert after[i] == o && after[|before|] == s;
      }
    }
  }

  /** Signals that others add do not matter to it. */
  lemma UnsharedOthers(before: seq<Signal>, others: seq<Signal>, ours: set<string>)
    requires NotAmong(others, ours)
    ensures Unshared(before + others, ours) <==> Unshared(before, ours)
  {
    var after := before + others;
    assert forall i :: 0 <= i < |before| ==> after[i] == before[i];
    assert forall i :: |before| <= i < |after| ==> after[i] in others;
  }

  lemma UnsharedNewId(ledger: seq<Signal>, ours: set<string>, id: string)
    requires forall s :: s in ledger ==> s.id != id
    ensures Unshared(ledger, ours + {id}) <==> Unshared(ledger, ours)
  {
  }

  /** One more request of a run. */
  lemma UnsharedOneMore(ledger: seq<Signal>, requests: seq<Request>, limit: nat)
    requires requests != [] && ListedRun(ledger, requests, limit)
    ensures var front, q := requests[..|requests| - 1], requests[|requests| - 1];
            Unshared(RunAll(ledger, requests), Ours(requests)) <==>
              Unshared(RunAll(ledger, front), Ours(front)) && (Writes(q) ==> NothingHidden(Found(ledger, requests), q))
  {
    var front, q := requests[..|requests| - 1], requests[|requests| - 1];
    var found := Found(ledger, requests);
    OursOneMore(requests);
    assert forall s :: s in RunAll(ledger, front) || s in q.others ==> s in found;
    UnsharedNewId(RunAll(ledger, front), Ours(front), q.signalId);
    UnsharedOthers(RunAll(ledger, front), q.others, Ours(requests));
    UnsharedStep(found, q, limit, Ours(requests));
  }

  lemma OursOneMore(requests: seq<Request>)
    requires requests != []
    ensures Ours(requests) == Ours(requests[..|requests| - 1]) + {requests[|requests| - 1].signalId}
  {
    var front := requests[..|requests| - 1];
    assert forall k :: 0 <= k < |front| ==> front[k] == requests[k];
  }

  /** Over any run of materializations, starting from any ledger and with whatever others add to it, no
      source event is materialized twice for a tenant and type if and only if no write had a duplicate hidden
      from it. */
  lemma {:induction false} NoEventMaterializedTwice(ledger: seq<Signal>, requests: seq<Request>, limit: nat)
    requires ListedRun(ledger, requests, limit)
    ensures Unshared(RunAll(ledger, requests), Ours(requests)) <==> CleanRun(ledger, requests)
  {
    if requests != [] {
      NoEventMaterializedTwice(ledger, requests[..|requests| - 1], limit);
      UnsharedOneMore(ledger, requests, limit);
    }
  }

  /** As long as every tenant that asks has no more signals than the listing holds, nothing is hidden. */
  lemma {:induction false} SmallTenantsAreClean(ledger: seq<Signal>, requests: seq<Request>, limit: nat)
    requires ListedRun(ledger, requests, limit)
    requires forall k :: 0 <= k < |requests| ==>
      |OfTenant(RunAll(ledger, requests), requests[k].proposal.tenant)| <= limit
    ensures CleanRun(ledger, requests)
  {
    if requests != [] {
      var front, q := requests[..|requests| - 1], requests[|requests| - 1];
      var before, after := RunAll(ledger, front), RunAll(ledger, requests);
      assert before <= Found(ledger, requests) <= after;
      forall k | 0 <= k < |requests|
        ensures |OfTenant(before, requests[k].proposal.tenant)| <= limit
        ensures |OfTenant(Found(ledger, requests), requests[k].proposal.tenant)| <= limit
      {
        assert forall s :: s in before ==> s in Found(ledger, requests);
        assert forall s :: s in Found(ledger, requests) ==> s in after;
        var tenant := requests[k].proposal.tenant;
        SubsetSize(OfTenant(before, tenant), OfTenant(after, tenant));
        SubsetSize(OfTenant(Found(ledger, requests), tenant), OfTenant(after, tenant));
      }
      assert forall k :: 0 <= k < |front| ==> front[k] == requests[k];
      SmallTenantsAreClean(ledger, front, limit);
      SmallTenantIsListed(q.listing, Found(ledger, requests), q.proposal.tenant, limit);
    }
  }

  /** A proposal that was written is not written again, by any later request whose listing holds its signal,
      if and only if it names at least one nonblank source event: blank ids are never matched. */
  lemma WrittenOnce(p: Proposal, results: map<string, AlgorithmResult>, signals: seq<Signal>, blocked: bool,
                    signalId: string)
    requires Trim(signalId) != [] && Assess(p, results, signals, blocked).wouldWrite
    ensures Assess(p, results, signals + [SignalFor(p, signalId)], blocked).wouldWrite <==> Keys(p.sourceEvents) == {}
    ensures Keys(p.sourceEvents) != {} ==>
      forall later: seq<Signal>, r: map<string, AlgorithmResult>, b: bool ::
        SignalFor(p, signalId) in later ==> !Assess(p, r, later, b).wouldWrite
  {
    var s := SignalFor(p, signalId);
    assert Overlaps(s, p) <==> Keys(p.sourceEvents) != {};
    WouldWriteIff(p, results, signals, blocked);
    WouldWriteIff(p, results, signals + [s], blocked);
    assert s in signals + [s];
    if Keys(p.sourceEvents) != {} {
      forall later: seq<Signal>, r: map<string, AlgorithmResult>, b: bool | s in later
        ensures !Assess(p, r, later, b).wouldWrite
      {
        WouldWriteIff(p, r, later, b);
      }
    }
  }

  function Duplicates(ledger: seq<Signal>, p: Proposal): set<Signal> {
    set s | s in OfTenant(ledger, p.tenant) && IsDuplicate(s, p)
  }

  predicate NoOlderThanAny(s: Signal, others: set<Signal>) {
    forall d :: d in others ==> d.time <= s.time
  }

  /** The other signals of the tenant that are no older than any duplicate. */
  function NoOlder(ledger: seq<Signal>, p: Proposal): set<Signal> {
    set s | s in OfTenant(ledger, p.tenant) && !IsDuplicate(s, p) && NoOlderThanAny(s, Duplicates(ledger, p))
  }

  /** A listing under which the proposal is written although the ledger holds a duplicate. */
  predicate Misleads(listing: seq<Signal>, ledger: seq<Signal>, p: Proposal, results: map<string, AlgorithmResult>,
                     blocked: bool, limit: nat)
  {
    && IsListing(listing, ledger, p.tenant, limit) && Duplicates(ledger, p) != {}
    && Assess(p, results, listing, blocked).wouldWrite
  }

  /** The proposal is writable, there is a duplicate, and at least as many other signals of the tenant as the
      listing holds are no older than all duplicates. */
  predicate CanMislead(ledger: seq<Signal>, p: Proposal, results: map<string, AlgorithmResult>, blocked: bool,
                       limit: nat)
  {
    Writable(p, results, blocked) && Duplicates(ledger, p) != {} && limit <= |NoOlder(ledger, p)|
  }

  /** Exactly then a duplicate can be written. */
  lemma DuplicateCanBeWritten(ledger: seq<Signal>, p: Proposal, results: map<string, AlgorithmResult>, blocked: bool,
                              limit: nat)
    ensures (exists listing :: Misleads(listing, ledger, p, results, blocked, limit))
      <==> CanMislead(ledger, p, results, blocked, limit)
  {
    if listing :| Misleads(listing, ledger, p, results, blocked, limit) {
      MisleadingIsFull(listing, ledger, p, results, blocked, limit);
    }
    if CanMislead(ledger, p, results, blocked, limit) {
      var listing := Newest(NoOlder(ledger, p), limit);
      NewestMisleads(listing, ledger, p, results, blocked, limit);
    }
  }

  lemma MisleadingIsFull(listing: seq<Signal>, ledger: seq<Signal>, p: Proposal, results: map<string, AlgorithmResult>,
                         blocked: bool, limit: nat)
    requires Misleads(listing, ledger, p, results, blocked, limit)
    ensures Writable(p, results, blocked) && limit <= |NoOlder(ledger, p)|
  {
    WouldWriteIff(p, results, listing, blocked);
    var listed, all := Members(listing), OfTenant(ledger, p.tenant);
    var d :| d in Duplicates(ledger, p);
    assert d !in listed && listed <= NoOlder(ledger, p) && listed <= all;
    SizeOfListing(listing);
    SubsetSize(listed, all);
    SubsetSize(listed, NoOlder(ledger, p));
  }

  lemma NewestMisleads(listing: seq<Signal>, ledger: seq<Signal>, p: Proposal, results: map<string, AlgorithmResult>,
                       blocked: bool, limit: nat)
    requires Writable(p, results, blocked) && Duplicates(ledger, p) != {}
    requires |listing| == limit && AreNewest(listing, NoOlder(ledger, p))
    ensures Misleads(listing, ledger, p, results, blocked, limit)
  {
    var listed, all := Members(listing), OfTenant(ledger, p.tenant);
    WouldWriteIff(p, results, listing, blocked);
    SizeOfListing(listing);
    SubsetSize(listed, all);
    forall s, o | s in listing && o in all && o !in listing
      ensures o.time <= s.time
    {
      if o !in NoOlder(ledger, p) && !IsDuplicate(o, p) {
        var d :| d in Duplicates(ledger, p) && o.time < d.time;
        assert d.time <= s.time;
      }
    }
  }

  /** The listing holds the newest of the signals. */
  predicate AreNewest(listing: seq<Signal>, signals: set<Signal>) {
    && NewestFirst(listing) && (forall s :: s in listing ==> s in signals)
    && (forall s, o :: s in listing && o in signals && o !in listing ==> o.time <= s.time)
  }

  lemma {:induction false} MaximumExists(signals: set<Signal>) returns (m: Signal)
    requires signals != {}
    ensures m in signals && forall s :: s in signals ==> s.time <= m.time
    decreases |signals|
  {
    var x :| x in signals;
    m := x;
    if signals != {x} {
      assert signals - {x} != {};
      var y := MaximumExists(signals - {x});
      m := if x.time < y.time then y else x;
    }
  }

  lemma {:induction false} Newest(signals: set<Signal>, k: nat) returns (listing: seq<Signal>)
    requires k <= |signals|
    ensures |listing| == k && AreNewest(listing, signals)
  {
    if k == 0 {
      listing := [];
    } else {
      var m := MaximumExists(signals);
      var rest := Newest(signals - {m}, k - 1);
      listing := [m] + rest;
      PrependNewest(signals, m, rest);
    }
  }

  lemma PrependNewest(signals: set<Signal>, m: Signal, rest: seq<Signal>)
    requires m in signals && (forall s :: s in signals ==> s.time <= m.time) && AreNewest(rest, signals - {m})
    ensures AreNewest([m] + rest, signals)
  {
    var listing := [m] + rest;
    assert forall i :: 0 <= i < |rest| ==> rest[i] in rest;
    assert forall s :: s in listing <==> s == m || s in rest;
    assert NewestFirst(listing);
  }

  // ----- Which runs can materialize an event twice -----

  /** A request before it is shown a listing. */
  datatype Ask = Ask(others: seq<Signal>, proposal: Proposal, results: map<string, AlgorithmResult>, blocked: bool,
                     signalId: string)

  function Shown(a: Ask, listing: seq<Signal>): Request {
    Request(a.others, a.proposal, a.results, a.blocked, listing, a.signalId)
  }

  /** The requests are the asks, in turn, each with some listing. */
  predicate AnswersTo(requests: seq<Request>, asks: seq<Ask>) {
    |requests| == |asks| && forall k :: 0 <= k < |asks| ==> requests[k] == Shown(asks[k], requests[k].listing)
  }

  /** The ids are new, a repeated ask being answered from the record of the first one, and nobody else
      writes them. */
  predicate NewIds(ledger: seq<Signal>, asks: seq<Ask>) {
    && (forall i, j :: 0 <= i < j < |asks| ==> asks[i].signalId != asks[j].signalId)
    && (forall k, s :: 0 <= k < |asks| && s in ledger ==> s.id != asks[k].signalId)
    && forall i, k, s :: 0 <= i < |asks| && 0 <= k < |asks| && s in asks[i].others ==> s.id != asks[k].signalId
  }

  predicate MisledBy(ledger: seq<Signal>, a: Ask, limit: nat) {
    CanMislead(ledger, a.proposal, a.results, a.blocked, limit)
  }

  /** The ledger if every preflight looked at all of it. */
  function FullSight(ledger: seq<Signal>, asks: seq<Ask>): seq<Signal> {
    if asks == [] then ledger
    else
      var a, before := asks[|asks| - 1], FullSight(ledger, asks[..|asks| - 1]) + asks[|asks| - 1].others;
      if Writable(a.proposal, a.results, a.blocked) && Duplicates(before, a.proposal) == {}
      then before + [SignalFor(a.proposal, a.signalId)] else before
  }

  /** Some listings under which the run materializes an event twice. */
  predicate DoublesUnder(requests: seq<Request>, ledger: seq<Signal>, asks: seq<Ask>, limit: nat) {
    && AnswersTo(requests, asks) && ListedRun(ledger, requests, limit)
    && !Unshared(RunAll(ledger, requests), Ours(requests))
  }

  /** The k-th ask can be misled by a listing when all before it saw everything. */
  predicate MisledAt(ledger: seq<Signal>, asks: seq<Ask>, limit: nat, k: nat) {
    k < |asks| && MisledBy(FullSight(ledger, asks[..k]) + asks[k].others, asks[k], limit)
  }

  /** A run of asks can materialize a source event twice if and only if, had every preflight seen the whole
      ledger, one of them would have found a duplicate that a listing can hide. */
  lemma EventCanBeMaterializedTwice(ledger: seq<Signal>, asks: seq<Ask>, limit: nat)
    requires NewIds(ledger, asks)
    ensures (exists requests :: DoublesUnder(requests, ledger, asks, limit))
      <==> (exists k :: 0 <= k < |asks| && MisledAt(ledger, asks, limit, k))
  {
    if requests :| DoublesUnder(requests, ledger, asks, limit) {
      if forall k :: 0 <= k < |asks| ==> !MisledAt(ledger, asks, limit, k) {
        NothingMisled(ledger, asks, requests, limit);
      }
    }
    if k :| 0 <= k < |asks| && MisledAt(ledger, asks, limit, k) {
      var requests := MisleadingRun(ledger, asks, limit, k);
      assert DoublesUnder(requests, ledger, asks, limit);
    }
  }

  /** Where a preflight cannot be misled, any listing gives the answer of the whole ledger. */
  lemma ListingSuffices(before: seq<Signal>, a: Ask, listing: seq<Signal>, limit: nat)
    requires IsListing(listing, before, a.proposal.tenant, limit) && !MisledBy(before, a, limit)
    ensures Writes(Shown(a, listing)) <==>
      Writable(a.proposal, a.results, a.blocked) && Duplicates(before, a.proposal) == {}
  {
    var p, q := a.proposal, Shown(a, listing);
    DuplicateCanBeWritten(before, p, a.results, a.blocked, limit);
    assert !Misleads(listing, before, p, a.results, a.blocked, limit);
    WouldWriteIff(p, a.results, listing, a.blocked);
    assert forall s :: s in listing && Trim(s.id) != [] && Overlaps(s, p) ==> s in Duplicates(before, p);
  }

  lemma FrontIsNotMisled(ledger: seq<Signal>, asks: seq<Ask>, front: seq<Ask>, limit: nat)
    requires front <= asks && forall k :: 0 <= k < |front| ==> !MisledAt(ledger, asks, limit, k)
    ensures forall k :: 0 <= k < |front| ==> !MisledAt(ledger, front, limit, k)
  {
    forall k | 0 <= k < |front|
      ensures !MisledAt(ledger, front, limit, k)
    {
      assert front[..k] == asks[..k] && !MisledAt(ledger, asks, limit, k);
    }
  }

  lemma SightedStep(before: seq<Signal>, q: Request, a: Ask, limit: nat)
    requires q == Shown(a, q.listing) && ListedAt(before, q, limit) && !MisledBy(before, a, limit)
    ensures Writes(q) ==> NothingHidden(before, q)
    ensures Write(before, q) ==
      if Writable(a.proposal, a.results, a.blocked) && Duplicates(before, a.proposal) == {}
      then before + [SignalFor(a.proposal, a.signalId)] else before
  {
    ListingSuffices(before, a, q.listing, limit);
    assert forall s :: s in before && IsDuplicate(s, q.proposal) ==> s in Duplicates(before, q.proposal);
  }

  /** Where no preflight can be misled, the run is that of full sight, and no event is materialized twice. */
  lemma {:induction false} NothingMisled(ledger: seq<Signal>, asks: seq<Ask>, requests: seq<Request>, limit: nat)
    requires AnswersTo(requests, asks) && ListedRun(ledger, requests, limit)
    requires forall k :: 0 <= k < |asks| ==> !MisledAt(ledger, asks, limit, k)
    ensures RunAll(ledger, requests) == FullSight(ledger, asks) && Unshared(RunAll(ledger, requests), Ours(requests))
  {
    if asks != [] {
      var n := |asks| - 1;
      var front, q := requests[..n], requests[n];
      FrontIsNotMisled(ledger, asks, asks[..n], limit);
      NothingMisled(ledger, asks[..n], front, limit);
      assert !MisledAt(ledger, asks, limit, n);
      SightedStep(Found(ledger, requests), q, asks[n], limit);
      UnsharedOneMore(ledger, requests, limit);
    }
  }

  /** A listing for any moment. */
  lemma SomeListing(ledger: seq<Signal>, tenant: string, limit: nat) returns (listing: seq<Signal>)
    ensures IsListing(listing, ledger, tenant, limit)
  {
    var all := OfTenant(ledger, tenant);
    listing := Newest(all, if |all| <= limit then |all| else limit);
  }

  /** Signals of a run come from the ledger, from others and from the asks. */
  lemma {:induction false} SignalsOfRun(ledger: seq<Signal>, asks: seq<Ask>, requests: seq<Request>, s: Signal)
    requires AnswersTo(requests, asks) && s in RunAll(ledger, requests)
    ensures s in ledger || exists k :: 0 <= k < |asks| && (s in asks[k].others || asks[k].signalId == s.id)
  {
    if asks != [] {
      var n := |asks| - 1;
      if s in RunAll(ledger, requests[..n]) {
        SignalsOfRun(ledger, asks[..n], requests[..n], s);
      } else {
        assert s in asks[n].others || asks[n].signalId == s.id;
      }
    }
  }

  /** One more ask, with any listing of the ledger of its time. */
  lemma ListedStep(ledger: seq<Signal>, asks: seq<Ask>, front: seq<Request>, listing: seq<Signal>, limit: nat)
    requires asks != [] && NewIds(ledger, asks)
    requires AnswersTo(front, asks[..|asks| - 1]) && ListedRun(ledger, front, limit)
    requires IsListing(listing, RunAll(ledger, front) + asks[|asks| - 1].others, asks[|asks| - 1].proposal.tenant,
                       limit)
    ensures var requests := front + [Shown(asks[|asks| - 1], listing)];
            && AnswersTo(requests, asks) && ListedRun(ledger, requests, limit)
            && Found(ledger, requests) == RunAll(ledger, front) + asks[|asks| - 1].others
  {
    var n := |asks| - 1;
    var q := Shown(asks[n], listing);
    AnswersAppend(asks, front, q);
    NewIdInRun(ledger, asks, front);
    OthersAreOthers(ledger, asks, front);
    RunAppend(ledger, front, q, limit);
  }

  lemma NewIdInRun(ledger: seq<Signal>, asks: seq<Ask>, front: seq<Request>)
    requires asks != [] && NewIds(ledger, asks) && AnswersTo(front, asks[..|asks| - 1])
    ensures forall s :: s in RunAll(ledger, front) + asks[|asks| - 1].others ==> s.id != asks[|asks| - 1].signalId
  {
    forall s | s in RunAll(ledger, front)
      ensures s.id != asks[|asks| - 1].signalId
    {
      SignalsOfRun(ledger, asks[..|asks| - 1], front, s);
    }
  }

  lemma OthersAreOthers(ledger: seq<Signal>, asks: seq<Ask>, front: seq<Request>)
    requires asks != [] && NewIds(ledger, asks) && AnswersTo(front, asks[..|asks| - 1])
    ensures NotAmong(asks[|asks| - 1].others, Ours(front))
  {
    assert forall k :: 0 <= k < |front| ==> front[k].signalId == asks[k].signalId;
  }

  lemma AnswersAppend(asks: seq<Ask>, front: seq<Request>, q: Request)
    requires asks != [] && AnswersTo(front, asks[..|asks| - 1]) && q == Shown(asks[|asks| - 1], q.listing)
    ensures AnswersTo(front + [q], asks)
  {
  }

  lemma RunAppend(ledger: seq<Signal>, front: seq<Request>, q: Request, limit: nat)
    requires ListedRun(ledger, front, limit) && ListedAt(RunAll(ledger, front) + q.others, q, limit)
    requires NotAmong(q.others, Ours(front))
    ensures ListedRun(ledger, front + [q], limit) && Found(ledger, front + [q]) == RunAll(ledger, front) + q.others
  {
    assert (front + [q])[..|front|] == front;
  }

  lemma {:induction false} SomeRun(ledger: seq<Signal>, asks: seq<Ask>, limit: nat) returns (requests: seq<Request>)
    requires NewIds(ledger, asks)
    ensures AnswersTo(requests, asks) && ListedRun(ledger, requests, limit)
  {
    requests := [];
    if asks != [] {
      var n := |asks| - 1;
      var front := SomeRun(ledger, asks[..n], limit);
      var listing := OneMore(ledger, asks, front, limit);
      requests := front + [Shown(asks[n], listing)];
    }
  }

  /** The run goes on with some listing for the next ask. */
  lemma OneMore(ledger: seq<Signal>, asks: seq<Ask>, front: seq<Request>, limit: nat) returns (listing: seq<Signal>)
    requires asks != [] && NewIds(ledger, asks)
    requires AnswersTo(front, asks[..|asks| - 1]) && ListedRun(ledger, front, limit)
    ensures var requests := front + [Shown(asks[|asks| - 1], listing)];
            AnswersTo(requests, asks) && ListedRun(ledger, requests, limit)
  {
    var a := asks[|asks| - 1];
    listing := SomeListing(RunAll(ledger, front) + a.others, a.proposal.tenant, limit);
    ListedStep(ledger, asks, front, listing, limit);
  }

  /** A misleading listing for the last ask, where none before it can be misled. */
  lemma MisleadingLast(ledger: seq<Signal>, asks: seq<Ask>, limit: nat) returns (requests: seq<Request>)
    requires NewIds(ledger, asks) && asks != [] && MisledAt(ledger, asks, limit, |asks| - 1)
    requires forall k :: 0 <= k < |asks| - 1 ==> !MisledAt(ledger, asks, limit, k)
    ensures DoublesUnder(requests, ledger, asks, limit)
  {
    var n := |asks| - 1;
    var a := asks[n];
    var front := SomeRun(ledger, asks[..n], limit);
    FrontIsNotMisled(ledger, asks, asks[..n], limit);
    NothingMisled(ledger, asks[..n], front, limit);
    var before := RunAll(ledger, front) + a.others;
    DuplicateCanBeWritten(before, a.proposal, a.results, a.blocked, limit);
    var listing :| Misleads(listing, before, a.proposal, a.results, a.blocked, limit);
    ListedStep(ledger, asks, front, listing, limit);
    requests := front + [Shown(a, listing)];
    HiddenDuplicate(before, a, listing, limit);
    UnsharedOneMore(ledger, requests, limit);
  }

  lemma HiddenDuplicate(before: seq<Signal>, a: Ask, listing: seq<Signal>, limit: nat)
    requires Misleads(listing, before, a.proposal, a.results, a.blocked, limit)
    ensures Writes(Shown(a, listing)) && !NothingHidden(before, Shown(a, listing))
  {
    var q := Shown(a, listing);
    WouldWriteIff(a.proposal, a.results, listing, a.blocked);
    var d :| d in Duplicates(before, a.proposal);
    assert d in before && IsDuplicate(d, q.proposal) && d !in q.listing;
  }

  lemma FrontIsMisled(ledger: seq<Signal>, asks: seq<Ask>, front: seq<Ask>, limit: nat, j: nat)
    requires front <= asks && j < |front| && MisledAt(ledger, asks, limit, j)
    ensures MisledAt(ledger, front, limit, j)
  {
    assert front[..j] == asks[..j];
  }

  lemma NewIdsOfFront(ledger: seq<Signal>, asks: seq<Ask>, front: seq<Ask>)
    requires front <= asks && NewIds(ledger, asks)
    ensures NewIds(ledger, front)
  {
    assert forall k :: 0 <= k < |front| ==> front[k] == asks[k];
  }

  /** A later request takes nothing back. */
  lemma StaysDoubled(ledger: seq<Signal>, asks: seq<Ask>, before: seq<Ask>, front: seq<Request>, limit: nat)
    returns (requests: seq<Request>)
    requires asks != [] && NewIds(ledger, asks) && before == asks[..|asks| - 1]
    requires DoublesUnder(front, ledger, before, limit)
    ensures DoublesUnder(requests, ledger, asks, limit)
  {
    var listing := OneMore(ledger, asks, front, limit);
    requests := front + [Shown(asks[|asks| - 1], listing)];
    assert requests[..|front|] == front;
    UnsharedOneMore(ledger, requests, limit);
  }

  /** The first ask that can be misled. */
  lemma {:induction false} FirstMisled(ledger: seq<Signal>, asks: seq<Ask>, limit: nat, k: nat) returns (first: nat)
    requires MisledAt(ledger, asks, limit, k)
    ensures first <= k && MisledAt(ledger, asks, limit, first)
    ensures forall i :: 0 <= i < first ==> !MisledAt(ledger, asks, limit, i)
    decreases k
  {
    if i :| 0 <= i < k && MisledAt(ledger, asks, limit, i) {
      first := FirstMisled(ledger, asks, limit, i);
    } else {
      first := k;
    }
  }

  /** Once doubled, the run stays so whatever follows. */
  lemma {:induction false} DoubledToTheEnd(ledger: seq<Signal>, asks: seq<Ask>, m: nat, front: seq<Request>, limit: nat)
    returns (requests: seq<Request>)
    requires NewIds(ledger, asks) && m <= |asks| && DoublesUnder(front, ledger, asks[..m], limit)
    ensures DoublesUnder(requests, ledger, asks, limit)
    decreases |asks| - m
  {
    if m == |asks| {
      assert asks[..m] == asks;
      requests := front;
    } else {
      NewIdsOfFront(ledger, asks, asks[..m + 1]);
      assert asks[..m + 1][..m] == asks[..m];
      var next := StaysDoubled(ledger, asks[..m + 1], asks[..m], front, limit);
      requests := DoubledToTheEnd(ledger, asks, m + 1, next, limit);
    }
  }

  lemma MisleadingRun(ledger: seq<Signal>, asks: seq<Ask>, limit: nat, k: nat) returns (requests: seq<Request>)
    requires NewIds(ledger, asks) && MisledAt(ledger, asks, limit, k)
    ensures DoublesUnder(requests, ledger, asks, limit)
  {
    var first := FirstMisled(ledger, asks, limit, k);
    var start := DoubledFirst(ledger, asks, asks[..first + 1], limit);
    requests := DoubledToTheEnd(ledger, asks, first + 1, start, limit);
  }

  /** The asks up to the first that can be misled. */
  lemma DoubledFirst(ledger: seq<Signal>, asks: seq<Ask>, front: seq<Ask>, limit: nat) returns (requests: seq<Request>)
    requires NewIds(ledger, asks) && front <= asks && front != [] && MisledAt(ledger, asks, limit, |front| - 1)
    requires forall i :: 0 <= i < |front| - 1 ==> !MisledAt(ledger, asks, limit, i)
    ensures DoublesUnder(requests, ledger, front, limit)
  {
    NewIdsOfFront(ledger, asks, front);
    FrontIsMisled(ledger, asks, front, limit, |front| - 1);
    forall i | 0 <= i < |front| - 1
      ensures !MisledAt(ledger, front, limit, i)
    {
      assert front[..i] == asks[..i] && !MisledAt(ledger, asks, limit, i);
    }
    requests := MisleadingLast(ledger, front, limit);
  }

  /** Two proposals of one response do not see each other: both would be written, though writing
      either blocks the other. */
  lemma BatchIsBlind(p: Proposal, q: Proposal, results: map<string, AlgorithmResult>, signals: seq<Signal>,
                     signalId: string)
    requires Assess(p, results, signals, false).wouldWrite && Assess(q, results, signals, false).wouldWrite
    requires Trim(signalId) != []
    ensures Assess(q, results, signals + [SignalFor(p, signalId)], false).wouldWrite <==>
      !Overlaps(SignalFor(p, signalId), q)
  {
    var s := SignalFor(p, signalId);
    WouldWriteIff(q, results, signals, false);
    WouldWriteIff(q, results, signals + [s], false);
    assert s in signals + [s];
  }
}
