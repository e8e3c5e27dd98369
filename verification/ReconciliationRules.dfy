/** The values and the rules of one equity reconciliation run: its settings, how long an idle run
    sleeps, what becomes of a claimed row, and the books that balance what a run did against what
    the table gained. */
module Reconciliation {
  import opened ReconciliationTasks

  datatype Config = Config(
    dryRun: bool,
    acknowledgeWrites: bool,
    requeueFailed: bool,
    maxAttempts: int,
    maxRequests: int,
    deadline: int,
    backoffs: seq<int>,
    poll: int,
    leaseDuration: int)
  {
    predicate Normal() {
      0 < maxAttempts && 0 < maxRequests && 0 < deadline && 0 < poll && 0 < leaseDuration && 0 < |backoffs|
    }
  }

  const SECOND := 1000
  const MINUTE := 60 * SECOND

  function Default(x: int, fallback: int): int {
    if x <= 0 then fallback else x
  }

  /** Every setting that is absent or not positive falls back to its default. */
  function Normalize(cfg: Config): (r: Config)
    ensures r.Normal()
    ensures r.dryRun == cfg.dryRun && r.acknowledgeWrites == cfg.acknowledgeWrites
    ensures r.requeueFailed == cfg.requeueFailed
    ensures 0 < cfg.maxAttempts ==> r.maxAttempts == cfg.maxAttempts
    ensures 0 < cfg.maxRequests ==> r.maxRequests == cfg.maxRequests
    ensures 0 < cfg.deadline ==> r.deadline == cfg.deadline
    ensures 0 < cfg.poll ==> r.poll == cfg.poll
    ensures 0 < cfg.leaseDuration ==> r.leaseDuration == cfg.leaseDuration
    ensures cfg.backoffs != [] ==> r.backoffs == cfg.backoffs
  {
    cfg.(maxAttempts := Default(cfg.maxAttempts, 2),
         maxRequests := Default(cfg.maxRequests, 100),
         deadline := Default(cfg.deadline, 15 * MINUTE),
         poll := Default(cfg.poll, 5 * SECOND),
         leaseDuration := Default(cfg.leaseDuration, 2 * MINUTE),
         backoffs := if cfg.backoffs == [] then [30 * SECOND, 2 * MINUTE] else cfg.backoffs)
  }

  datatype Asset = Asset(ticker: string, rank: int)

  datatype RawLookup = RawFailed | RawMissing | RawFound(eventId: string)

  datatype Claim = ClaimFailed | NothingDue | Claimed

  /** What the ledgers answered when a claimed task was looked at. */
  datatype Seen = LedgerFailed | AlreadyNormalized | RawLookupFailed | RawPresent(eventId: string) | NothingStored

  datatype Verdict = NoError | WritesNotAcknowledged | EmptyUniverse | StoreFailed | DeadlineReached | Incomplete

  datatype Report = Report(
    universe: nat, initiallyComplete: nat, missing: seq<string>, enqueued: nat, requeued: nat,
    claimed: nat, rawReplays: nat, requests: nat, published: nat, finalComplete: nat,
    statusCounts: map<Status, nat>, failures: seq<string>, deadlineReached: bool)

  function AppendBounded(values: seq<string>, value: string, limit: nat): (r: seq<string>)
    ensures values <= r && |r| <= |values| + 1
    ensures |values| <= limit ==> |r| <= limit
  {
    if limit <= |values| then values else values + [value]
  }

  /** How many assets are in the set of symbols. */
  function CountIn(assets: seq<Asset>, symbols: set<string>): nat {
    if assets == [] then 0
    else CountIn(assets[..|assets| - 1], symbols) + (if assets[|assets| - 1].ticker in symbols then 1 else 0)
  }

  lemma {:induction false} CountInMonotone(assets: seq<Asset>, small: set<string>, large: set<string>)
    requires small <= large
    ensures CountIn(assets, small) <= CountIn(assets, large) <= |assets|
  {
    if assets != [] {
      CountInMonotone(assets[..|assets| - 1], small, large);
    }
  }

  lemma {:induction false} CountInAll(assets: seq<Asset>, symbols: set<string>)
    requires CountIn(assets, symbols) == |assets|
    ensures forall a :: a in assets ==> a.ticker in symbols
  {
    if assets != [] {
      CountInMonotone(assets[..|assets| - 1], symbols, symbols);
      CountInAll(assets[..|assets| - 1], symbols);
      assert assets == assets[..|assets| - 1] + [assets[|assets| - 1]];
    }
  }

  // ----- How long an idle run sleeps -----

  /** The waits a list of rows asks for, in list order: time to the next attempt of a queued row,
      time to the end of the lease of a row in progress, the poll interval if it has no lease. */
  function Candidates(ts: seq<Task>, now: int, poll: int): (r: seq<int>)
    requires 0 < poll
    ensures NonNegative(r)
    ensures r == [] <==> forall t :: t in ts ==> t.Terminal()
  {
    if ts == [] then []
    else
      var t := ts[|ts| - 1];
      var before := Candidates(ts[..|ts| - 1], now, poll);
      assert ts == ts[..|ts| - 1] + [t];
      if t.Terminal() then before else before + [Candidate(t, now, poll)]
  }

  function Candidate(t: Task, now: int, poll: int): (c: int)
    requires !t.Terminal() && 0 < poll
    ensures 0 <= c
  {
    if t.status.Queued? then Clip(t.nextAttemptAt - now)
    else if t.lease.None? then poll
    else Clip(t.lease.value - now)
  }

  function Clip(x: int): int { if x < 0 then 0 else x }

  /** The running wait of the source: 0 means "not set yet", so a candidate of 0 erases what came
      before it and is itself overwritten by the next one. */
  function Folded(cs: seq<int>): int {
    if cs == [] then 0
    else FoldedNext(Folded(cs[..|cs| - 1]), cs[|cs| - 1])
  }

  function FoldedNext(wait: int, c: int): int {
    if wait == 0 || c < wait then c else wait
  }

  predicate IsMin(m: int, cs: seq<int>) {
    m in cs && forall c :: c in cs ==> m <= c
  }

  predicate NonNegative(cs: seq<int>) {
    forall i :: 0 <= i < |cs| ==> 0 <= cs[i]
  }

  lemma {:induction false} FoldedIsZero(cs: seq<int>)
    requires NonNegative(cs)
    ensures 0 <= Folded(cs)
    ensures Folded(cs) == 0 <==> cs == [] || cs[|cs| - 1] == 0
  {
    if cs != [] {
      FoldedIsZero(cs[..|cs| - 1]);
    }
  }

  /** What the fold really computes: the minimum of the candidates after the last 0. */
  lemma {:induction false} FoldedAfterLastZero(cs: seq<int>, k: nat)
    requires NonNegative(cs) && k < |cs| && 0 !in cs[k..] && (k == 0 || cs[k - 1] == 0)
    ensures IsMin(Folded(cs), cs[k..])
  {
    var front, c := cs[..|cs| - 1], cs[|cs| - 1];
    FoldedIsZero(front);
    assert c in cs[k..];
    if k == |cs| - 1 {
      assert cs[k..] == [c];
    } else {
      assert cs[k..] == front[k..] + [c];
      FoldedAfterLastZero(front, k);
      assert front[|front| - 1] in front[k..];
    }
  }

  function Wait(cs: seq<int>, poll: int): int {
    if cs != [] && Folded(cs) <= 0 then poll
    else if poll < Folded(cs) then poll
    else Folded(cs)
  }

  /** An idle run with active rows always sleeps a positive time, never more than the poll. */
  lemma WaitIsPositive(cs: seq<int>, poll: int)
    requires 0 < poll && cs != [] && NonNegative(cs)
    ensures 0 < Wait(cs, poll) <= poll
  {
    FoldedIsZero(cs);
  }

  /** The sleep ends exactly with the earliest candidate (or the poll) if and only if no
      candidate is 0: a row that is already due hides the others. */
  lemma WaitIsMinimum(cs: seq<int>, poll: int)
    requires 0 < poll && cs != [] && NonNegative(cs)
    ensures IsMin(Wait(cs, poll), cs + [poll]) <==> 0 !in cs
  {
    WaitIsPositive(cs, poll);
    if 0 !in cs {
      assert cs[0..] == cs;
      FoldedAfterLastZero(cs, 0);
      assert IsMin(Folded(cs), cs);
      assert poll in cs + [poll];
      forall c | c in cs + [poll] ensures Wait(cs, poll) <= c {
        assert c in cs || c == poll;
      }
    } else {
      assert 0 in cs + [poll];
    }
  }

  function WaitSoFar(tasks: seq<Task>, i: nat, now: int, poll: int): int
    requires 0 < poll && i <= |tasks|
  {
    Folded(Candidates(tasks[..i], now, poll))
  }

  lemma CandidatesStep(tasks: seq<Task>, i: nat, now: int, poll: int)
    requires 0 < poll && i < |tasks|
    ensures tasks[i].Terminal() ==> Candidates(tasks[..i + 1], now, poll) == Candidates(tasks[..i], now, poll)
    ensures !tasks[i].Terminal() ==> Candidates(tasks[..i + 1], now, poll) != []
    ensures WaitSoFar(tasks, i + 1, now, poll)
         == if tasks[i].Terminal() then WaitSoFar(tasks, i, now, poll)
            else FoldedNext(WaitSoFar(tasks, i, now, poll), Candidate(tasks[i], now, poll))
  {
    assert tasks[..i + 1][..i] == tasks[..i];
    var before := Candidates(tasks[..i], now, poll);
    if !tasks[i].Terminal() {
      assert (before + [Candidate(tasks[i], now, poll)])[..|before|] == before;
    }
  }

  method NextReconciliationWait(tasks: seq<Task>, now: int, poll: int) returns (wait: int, active: bool)
    requires 0 < poll
    ensures active <==> exists t :: t in tasks && !t.Terminal()
    ensures wait == Wait(Candidates(tasks, now, poll), poll)
    ensures active ==> 0 < wait <= poll
  {
    wait, active := 0, false;
    for i := 0 to |tasks|
      invariant active <==> Candidates(tasks[..i], now, poll) != []
      invariant wait == WaitSoFar(tasks, i, now, poll)
    {
      CandidatesStep(tasks, i, now, poll);
      var task := tasks[i];
      match task.status
      case Queued =>
        active := true;
        var candidate := task.nextAttemptAt - now;
        if candidate < 0 { candidate := 0; }
        if wait == 0 || candidate < wait { wait := candidate; }
      case Running | AwaitingNormalization =>
        active := true;
        var candidate := poll;
        if task.lease.Some? {
          candidate := task.lease.value - now;
          if candidate < 0 { candidate := 0; }
        }
        if wait == 0 || candidate < wait { wait := candidate; }
      case Succeeded | Failed =>
    }
    assert tasks[..|tasks|] == tasks;
    if active {
      WaitIsPositive(Candidates(tasks, now, poll), poll);
    }
    if active && wait <= 0 { wait := poll; }
    if wait > poll { wait := poll; }
  }

  // ----- The run -----

  /** Row `b` is row `a` closed with the given status and message, at the time it records. */
  predicate Closed(a: Task, b: Task, status: Status, message: Note) {
    && b.completedAt.Some?
    && b == a.(status := status, completedAt := b.completedAt, nextAttemptAt := b.completedAt.value,
               lease := None, lastError := message)
  }

  /** Row `b` is row `a` queued again because its normalization was not seen in time. */
  predicate BackInQueue(a: Task, b: Task) {
    b == a.(status := Queued, nextAttemptAt := b.nextAttemptAt, lease := None, lastError := NotObserved)
  }

  /** The updates that never reached the table, and the attempts and replays counted in them alone. */
  datatype Losses = Losses(updates: int, attempts: int, replays: int) {
    function Since(before: Losses): Losses {
      Losses(updates - before.updates, attempts - before.attempts, replays - before.replays)
    }

    /** An update loses at most one attempt or replay, and only when its call failed. */
    predicate Within(faults: int) {
      0 <= attempts && 0 <= replays && attempts + replays <= updates <= faults
    }
  }

  const NOTHING_LOST := Losses(0, 0, 0)

  /** What handling a stored raw event does to the row `a`: one replay, never two, and without
      store faults the row ends failed, succeeded, or queued with the replay counted. */
  predicate ReplayOutcome(a: Task, eventId: string, b: Task, sent: bool, failed: bool, faults: int, lost: Losses) {
    && b.attempts == a.attempts && lost.attempts == 0
    && (sent ==> a.replays == 0)
    && Tally(b.replays - a.replays, if sent then 1 else 0, lost.replays)
    && (!sent ==> failed && (faults == 0 ==> b.status.Failed?))
    && (sent ==> (failed <==> 0 < faults))
    && (!failed ==> Settled(b))
    && (1 <= a.replays && faults == 0 ==> Closed(a.(rawEventId := eventId), b, Failed, ReplayedAlready))
  }

  /** What one provider call makes of the record `a` that already counts it, once it is stored:
      a published event is awaited; a failed pull goes back to the queue as long as attempts
      are left and fails for good otherwise. */
  predicate PullResult(a: Task, b: Task, published: int, failed: bool, faults: int) {
    && b.attempts == a.attempts && b.replays == a.replays
    && (published == 0 || published == 1)
    && (!failed ==> published == 1 && Settled(b))
    && (published == 0 ==> failed)
    && (published == 0 && faults == 0 ==> if a.attempts < a.maxAttempts then b.status.Queued? else b.status.Failed?)
  }

  /** What a task with nothing stored for its symbol becomes. */
  predicate PullOutcome(a: Task, inBudget: bool, b: Task, asked: bool, published: int, failed: bool, faults: int,
                        lost: Losses)
  {
    && b.replays == a.replays && lost.replays == 0
    && Tally(b.attempts - a.attempts, if asked then 1 else 0, lost.attempts)
    && (asked && b.attempts == a.attempts + 1 ==>
          PullResult(a.(attempts := a.attempts + 1), b, published, failed, faults))
    && (!asked ==> failed && published == 0)
    && (!asked && faults == 0 ==> Closed(a, b, Failed, if inBudget then AttemptsExhausted else BudgetExhausted))
  }

  /** What was done is what the table gained and what was lost on the way to it. */
  predicate Tally(stored: int, done: int, lost: int) {
    done == stored + lost
  }

  /** The whole decision, by what the ledgers answered. */
  predicate TaskOutcome(seen: Seen, a: Task, inBudget: bool, b: Task, sent: bool, asked: bool, published: int,
                        failed: bool, faults: int, lost: Losses)
  {
    match seen
    case LedgerFailed | RawLookupFailed => failed && b == a && lost == NOTHING_LOST
    case AlreadyNormalized =>
      && b.attempts == a.attempts && b.replays == a.replays && lost.attempts == lost.replays == 0
      && (failed <==> 0 < faults) && (!failed ==> Closed(a, b, Succeeded, Blank))
    case RawPresent(eventId) => ReplayOutcome(a, eventId, b, sent, failed, faults, lost)
    case NothingStored =>
      && (asked <==> inBudget && a.attempts < a.maxAttempts)
      && PullOutcome(a, inBudget, b, asked, published, failed, faults, lost)
  }

  /** Whatever was decided, what the row counts matches what was really published or asked. */
  lemma OutcomeTallies(seen: Seen, a: Task, inBudget: bool, b: Task, sent: bool, asked: bool, published: int,
                       failed: bool, faults: int, lost: Losses)
    requires TaskOutcome(seen, a, inBudget, b, sent, asked, published, failed, faults, lost)
    requires (asked ==> seen.NothingStored?) && (sent ==> seen.RawPresent?)
    ensures Tally(b.attempts - a.attempts, if asked then 1 else 0, lost.attempts)
    ensures Tally(b.replays - a.replays, if sent then 1 else 0, lost.replays)
  {
  }

  predicate Settled(b: Task) {
    b.status.Succeeded? || (b.status.Queued? && b.lastError == NotObserved)
  }

  /** The record in hand still is the claimed row `a`, with attempts and replays added. */
  predicate SameClaim(a: Task, t: Task) {
    && t.symbol == a.symbol && t.rank == a.rank && t.maxAttempts == a.maxAttempts
    && a.attempts <= t.attempts && (t.attempts == a.attempts || t.attempts <= t.maxAttempts)
    && a.replays <= t.replays && (t.replays == a.replays || t.replays <= 1)
  }

  /** Table `after` is table `before` with expired leases recovered and row `row`, due and of least
      rank among the due rows, leased. */
  predicate IsClaim(before: seq<Task>, after: seq<Task>, row: nat, at: int, leaseDuration: int) {
    var rs := Recover(before, at);
    && row < |rs| && Due(rs[row], at)
    && (forall i :: 0 <= i < |rs| && Due(rs[i], at) ==> rs[row].rank <= rs[i].rank)
    && after == rs[row := ClaimRow(rs[row], at, leaseDuration)]
  }

  /** The books of the claim loop, after it began with table `begin`: every claim used up work unless a
      store call failed, and what was asked and replayed is what the table gained and what was lost with
      updates that never reached it. */
  predicate Books(begin: seq<Task>, tasks: seq<Task>, claimed: int, requests: int, rawReplays: int, faults: int,
                  lost: Losses)
  {
    && claimed + Sum(tasks, WorkOf) <= Sum(begin, WorkOf) + faults
    && Tally(Sum(tasks, AttemptsOf) - Sum(begin, AttemptsOf), requests, lost.attempts)
    && Tally(Sum(tasks, ReplaysOf) - Sum(begin, ReplaysOf), rawReplays, lost.replays)
    && lost.Within(faults)
  }

  /** A claimed and processed row moves the table strictly down in (work, time left to claim). */
  lemma ProcessedClaim(ts: seq<Task>, cs: seq<Task>, us: seq<Task>, row: nat, at: int, leaseDuration: int,
                       deadline: int, reported: set<string>, faults: int)
    requires IsClaim(ts, cs, row, at, leaseDuration) && at < deadline && 0 < leaseDuration
    requires |us| == |cs| && forall i :: 0 <= i < |us| && i != row ==> us[i] == cs[i]
    requires RowEvolves(cs[row], us[row], reported)
    requires 0 <= faults && (Ahead(cs[row], us[row]) || (us == cs && 0 < faults))
    ensures Lowered(ts, us, deadline)
    ensures 1 + Sum(us, WorkOf) <= Sum(ts, WorkOf) + faults
    ensures Sum(us, AttemptsOf) - Sum(ts, AttemptsOf) == us[row].attempts - cs[row].attempts
    ensures Sum(us, ReplaysOf) - Sum(ts, ReplaysOf) == us[row].replays - cs[row].replays
  {
    ClaimShrinksWindow(ts, row, at, leaseDuration, deadline);
    assert us == cs[row := us[row]];
    SumUpdate(cs, WorkOf, row, us[row]);
    SumUpdate(cs, AttemptsOf, row, us[row]);
    SumUpdate(cs, ReplaysOf, row, us[row]);
    AheadLeavesLessWork(cs[row], us[row], reported);
  }

  predicate Lowered(ts: seq<Task>, us: seq<Task>, deadline: int) {
    Sum(us, WorkOf) < Sum(ts, WorkOf)
    || (Sum(us, WorkOf) == Sum(ts, WorkOf) && Sum(us, WindowOf(deadline)) < Sum(ts, WindowOf(deadline)))
  }

  predicate NotRaised(ts: seq<Task>, us: seq<Task>, deadline: int) {
    Sum(us, WorkOf) == Sum(ts, WorkOf) && Sum(us, WindowOf(deadline)) <= Sum(ts, WindowOf(deadline))
  }

  /** What a run can be held to: the table, its report, how long the logs are, and what went wrong. */
  datatype Sheet = Sheet(tasks: seq<Task>, report: Report, pulls: nat, replayed: nat, unacknowledged: int, faults: int,
                         lost: Losses)

  /** From one sheet to a later one the books balance, the counters of the report moved exactly as the logs
      did, apart from replays that reached the broker unnoticed, and the failure list stayed bounded. */
  predicate Balances(a: Sheet, b: Sheet) {
    && Books(a.tasks, b.tasks, b.report.claimed - a.report.claimed, b.report.requests - a.report.requests,
             b.report.rawReplays - a.report.rawReplays, b.faults - a.faults, b.lost.Since(a.lost))
    && b.report.requests - a.report.requests == b.pulls - a.pulls
    && 0 <= b.report.published - a.report.published <= b.report.requests - a.report.requests
    && b.report.rawReplays - a.report.rawReplays + b.unacknowledged - a.unacknowledged == b.replayed - a.replayed
    && a.unacknowledged <= b.unacknowledged
    && (|a.report.failures| <= MAX_FAILURES ==> |b.report.failures| <= MAX_FAILURES)
    && Unworked(b.report) == Unworked(a.report)
  }

  lemma BalancesAddUp(a: Sheet, b: Sheet, c: Sheet)
    requires Balances(a, b) && Balances(b, c)
    ensures Balances(a, c)
  {
  }

  /** What handling a row of the symbol, claimed `claims` times for it, does to the report. */
  predicate Handled(a: Report, b: Report, symbol: string, claims: nat, sent: bool, asked: bool, failed: bool) {
    && b == a.(claimed := a.claimed + claims, requests := a.requests + if asked then 1 else 0,
               published := b.published, rawReplays := a.rawReplays + if sent then 1 else 0, failures := b.failures)
    && a.published <= b.published <= a.published + (if asked then 1 else 0)
    && b.failures == if failed then AppendBounded(a.failures, symbol, MAX_FAILURES) else a.failures
  }

  /** A turn that claimed and handled row `row` of the table `before`; `a` is the sheet after the claim. */
  lemma ClaimedTurnBalances(before: seq<Task>, a: Sheet, b: Sheet, row: nat, at: int, leaseDuration: int, deadline: int,
                            reported: set<string>, sent: bool, asked: bool, failed: bool)
    requires IsClaim(before, a.tasks, row, at, leaseDuration) && at < deadline && 0 < leaseDuration
    requires |b.tasks| == |a.tasks| && forall i :: 0 <= i < |b.tasks| && i != row ==> b.tasks[i] == a.tasks[i]
    requires row < |a.tasks| && RowEvolves(a.tasks[row], b.tasks[row], reported)
    requires Ahead(a.tasks[row], b.tasks[row]) || (b.tasks == a.tasks && a.faults < b.faults)
    requires Handled(a.report, b.report, a.tasks[row].symbol, 1, sent, asked, failed)
    requires Tally(b.tasks[row].attempts - a.tasks[row].attempts, if asked then 1 else 0, b.lost.Since(a.lost).attempts)
    requires Tally(b.tasks[row].replays - a.tasks[row].replays, if sent then 1 else 0, b.lost.Since(a.lost).replays)
    requires b.lost.Since(a.lost).Within(b.faults - a.faults) && a.unacknowledged <= b.unacknowledged
    requires b.pulls - a.pulls == (if asked then 1 else 0)
    requires b.replayed - a.replayed == (if sent then 1 else 0) + b.unacknowledged - a.unacknowledged
    ensures Balances(a.(tasks := before), b) && Lowered(before, b.tasks, deadline)
  {
    ProcessedClaim(before, a.tasks, b.tasks, row, at, leaseDuration, deadline, reported, b.faults - a.faults);
  }

  /** What a call that claims may leave behind: nothing, recovered leases, or those and the row it leased. */
  predicate ClaimTried(before: seq<Task>, after: seq<Task>, row: nat, at: int, leaseDuration: int, deadline: int) {
    || after == before || after == Recover(before, at)
    || (IsClaim(before, after, row, at, leaseDuration) && at < deadline)
  }

  /** A turn without a claim at most put expired leases back and leased a row without learning of it. */
  lemma UnclaimedTurn(a: Sheet, b: Sheet, row: nat, at: int, leaseDuration: int, deadline: int)
    requires b == a.(tasks := b.tasks, faults := b.faults) && a.faults <= b.faults && 0 < leaseDuration
    requires ClaimTried(a.tasks, b.tasks, row, at, leaseDuration, deadline)
    ensures Balances(a, b) && NotRaised(a.tasks, b.tasks, deadline)
  {
    RecoverSums(a.tasks, at, deadline);
    if IsClaim(a.tasks, b.tasks, row, at, leaseDuration) && at < deadline {
      ClaimShrinksWindow(a.tasks, row, at, leaseDuration, deadline);
    }
  }

  /** The report without what the claim loop fills in. */
  function Unworked(r: Report): Report {
    r.(claimed := 0, requests := 0, published := 0, rawReplays := 0, failures := [])
  }

  /** The store never lists more rows than it is asked for, nor more than 5000. */
  function ClampLimit(limit: int): int {
    if limit <= 0 then 50 else if 5000 < limit then 5000 else limit
  }

  /** The part of the universe a run looks at: the asset listing is limited by the request budget. */
  function Listed(universe: seq<Asset>, cfg: Config): seq<Asset> {
    if |universe| <= ClampLimit(cfg.maxRequests) then universe else universe[..ClampLimit(cfg.maxRequests)]
  }

  /** A run looks at its whole universe if and only if the universe fits the request budget (and 5000). */
  lemma ListedIsWhole(universe: seq<Asset>, cfg: Config)
    requires cfg.Normal()
    ensures Listed(universe, cfg) == universe <==> |universe| <= cfg.maxRequests && |universe| <= 5000
  {
    if |universe| > ClampLimit(cfg.maxRequests) {
      assert |Listed(universe, cfg)| < |universe|;
    }
  }

  /** Discovery may renumber a row and change its cap, and adds fresh rows; it touches nothing else. */
  predicate Enrolled(before: seq<Task>, after: seq<Task>) {
    && |before| <= |after|
    && (forall i :: 0 <= i < |before| ==>
          after[i] == before[i].(rank := after[i].rank, maxAttempts := after[i].maxAttempts))
    && (forall i :: |before| <= i < |after| ==>
          after[i].status.Queued? && after[i].attempts == 0 && after[i].replays == 0)
  }

  /** Row `i`, that of the symbol, got a new rank and cap, and nothing else changed. */
  predicate IsRenewal(before: seq<Task>, after: seq<Task>, i: int, symbol: string, rank: int, maxAttempts: nat) {
    && 0 <= i < |before| && before[i].symbol == symbol
    && after == before[i := before[i].(rank := rank, maxAttempts := maxAttempts)]
  }

  function NewRow(symbol: string, rank: int, maxAttempts: nat, at: int): Task {
    Task(symbol, rank, Queued, 0, maxAttempts, 0, at, None, "", Blank, None)
  }

  predicate HasRow(tasks: seq<Task>, symbol: string) {
    exists i :: 0 <= i < |tasks| && tasks[i].symbol == symbol
  }

  function RequeueRow(t: Task, at: int): Task {
    if t.status.Failed? then
      t.(status := Queued, attempts := 0, replays := 0, nextAttemptAt := at, lease := None,
         lastError := Blank, completedAt := None)
    else t
  }

  // ----- The table a claim loop begins with -----

  /** The symbol is a key of the table. */
  predicate Keyed(tasks: seq<Task>) {
    forall i, j :: 0 <= i < j < |tasks| ==> tasks[i].symbol != tasks[j].symbol
  }

  /** A row after discovery found `missing`, and perhaps the failed rows were requeued. */
  function StartRow(t: Task, rank: int, missing: seq<string>, cap: nat, requeue: bool, at: int): Task {
    var renewed := if t.symbol in missing then t.(rank := rank, maxAttempts := cap) else t;
    if requeue then RequeueRow(renewed, at) else renewed
  }

  /** Rows of missing symbols got a new rank and cap, rows were added for missing symbols without one,
      failed rows are queued afresh if that was asked for; nothing else changed. */
  predicate Started(before: seq<Task>, after: seq<Task>, missing: seq<string>, cap: nat, requeue: bool, at: int) {
    && |before| <= |after| && Keyed(after) && (forall s :: s in missing ==> HasRow(after, s))
    && (forall i :: 0 <= i < |before| ==> after[i] == StartRow(before[i], after[i].rank, missing, cap, requeue, at))
    && (forall i :: |before| <= i < |after| ==> after[i].symbol in missing && IsNew(after[i], cap))
  }

  predicate IsNew(t: Task, cap: nat) {
    t.status.Queued? && t.attempts == 0 && t.replays == 0 && t.maxAttempts == cap
  }

  lemma KeepsRows(before: seq<Task>, after: seq<Task>)
    requires |before| <= |after| && forall i :: 0 <= i < |before| ==> after[i].symbol == before[i].symbol
    ensures forall s :: HasRow(before, s) ==> HasRow(after, s)
  {
    forall s | HasRow(before, s)
      ensures HasRow(after, s)
    {
      var i :| 0 <= i < |before| && before[i].symbol == s;
      assert after[i].symbol == s;
    }
  }

  /** Renewing the row of a symbol extends discovery to that symbol. */
  lemma RenewalStarts(before: seq<Task>, mid: seq<Task>, after: seq<Task>, missing: seq<string>, cap: nat,
                      i: int, symbol: string, rank: int, at: int)
    requires Started(before, mid, missing, cap, false, at) && IsRenewal(mid, after, i, symbol, rank, cap)
    ensures Started(before, after, missing + [symbol], cap, false, at)
  {
    assert forall s :: s in missing + [symbol] <==> s in missing || s == symbol;
    assert forall k :: 0 <= k < |mid| ==> after[k].symbol == mid[k].symbol;
    KeepsRows(mid, after);
    assert after[i].symbol == symbol;
  }

  /** So does adding a row for it. */
  lemma AdditionStarts(before: seq<Task>, mid: seq<Task>, row: Task, missing: seq<string>, cap: nat, at: int)
    requires Started(before, mid, missing, cap, false, at) && IsNew(row, cap) && !HasRow(mid, row.symbol)
    ensures Started(before, mid + [row], missing + [row.symbol], cap, false, at)
  {
    assert forall s :: s in missing + [row.symbol] <==> s in missing || s == row.symbol;
    assert forall k :: 0 <= k < |mid| ==> mid[k].symbol != row.symbol;
    KeepsRows(mid, mid + [row]);
    assert (mid + [row])[|mid|].symbol == row.symbol;
  }

  /** Without requeueing the time does not matter. */
  lemma StartedAnyTime(before: seq<Task>, after: seq<Task>, missing: seq<string>, cap: nat, at: int)
    requires Started(before, after, missing, cap, false, 0)
    ensures Started(before, after, missing, cap, false, at)
  {
  }

  lemma EnqueueStarts(before: seq<Task>, mid: seq<Task>, after: seq<Task>, missing: seq<string>, cap: nat,
                      symbol: string, rank: int, at: int)
    requires Started(before, mid, missing, cap, false, 0)
    requires !HasRow(mid, symbol) ==> after == mid + [NewRow(symbol, rank, cap, at)]
    requires HasRow(mid, symbol) ==> exists i :: IsRenewal(mid, after, i, symbol, rank, cap)
    ensures Started(before, after, missing + [symbol], cap, false, 0)
  {
    if HasRow(mid, symbol) {
      var i :| IsRenewal(mid, after, i, symbol, rank, cap);
      RenewalStarts(before, mid, after, missing, cap, i, symbol, rank, 0);
    } else {
      AdditionStarts(before, mid, NewRow(symbol, rank, cap, at), missing, cap, 0);
    }
  }

  lemma RequeueStarts(before: seq<Task>, mid: seq<Task>, after: seq<Task>, missing: seq<string>, cap: nat, any: int,
                      at: int)
    requires Started(before, mid, missing, cap, false, any)
    requires |after| == |mid| && forall i :: 0 <= i < |mid| ==> after[i] == RequeueRow(mid[i], at)
    ensures Started(before, after, missing, cap, true, at)
  {
    KeepsRows(mid, after);
  }

  /** When a row is within its cap throughout the claim loop, by what can be seen before the run: a failed
      row that is requeued always is; a row whose symbol is found missing is measured against the new cap;
      any other against its own. */
  predicate KeepsCap(t: Task, missing: seq<string>, cap: nat, requeue: bool) {
    if requeue && t.status.Failed? then true
    else if t.symbol in missing then t.attempts <= cap
    else t.WithinCap()
  }

  /** In every persisted state of the claim loop a row is within its cap if and only if KeepsCap says so;
      rows added by discovery always are. */
  lemma CapInEveryState(before: seq<Task>, budget: int, trace: seq<Snapshot>, missing: seq<string>, cap: nat,
                        requeue: bool, at: int, j: nat, r: nat)
    requires trace != [] && Chain(budget, trace) && Started(before, trace[0].tasks, missing, cap, requeue, at)
    requires j < |trace| && r < |trace[0].tasks|
    ensures |trace[j].tasks| == |trace[0].tasks|
    ensures trace[j].tasks[r].WithinCap() <==> r >= |before| || KeepsCap(before[r], missing, cap, requeue)
  {
    if 0 < j {
      RunSafety(budget, trace, 0, j, r);
    }
  }

  predicate CapAt(before: seq<Task>, s: Snapshot, r: nat, missing: seq<string>, cap: nat, requeue: bool) {
    r < |before| <= |s.tasks| && (s.tasks[r].WithinCap() <==> KeepsCap(before[r], missing, cap, requeue))
  }

  /** KeepsCap decides the cap of every row the run found, in every state. */
  predicate CapsKnown(before: seq<Task>, trace: seq<Snapshot>, missing: seq<string>, cap: nat, requeue: bool) {
    forall j, r :: 0 <= j < |trace| && 0 <= r < |before| ==> CapAt(before, trace[j], r, missing, cap, requeue)
  }

  lemma CapsOfTrace(before: seq<Task>, budget: int, trace: seq<Snapshot>, missing: seq<string>, cap: nat,
                    requeue: bool, at: int)
    requires trace != [] && Chain(budget, trace) && Started(before, trace[0].tasks, missing, cap, requeue, at)
    ensures CapsKnown(before, trace, missing, cap, requeue)
  {
    forall j, r | 0 <= j < |trace| && 0 <= r < |before|
      ensures CapAt(before, trace[j], r, missing, cap, requeue)
    {
      CapInEveryState(before, budget, trace, missing, cap, requeue, at, j, r);
    }
  }

  /** Renewing the cap of a row that used more attempts than the new cap allows leaves it above its cap in
      every state of the loop, though it was within the old one. */
  lemma LoweredCapIsExceeded(before: seq<Task>, budget: int, trace: seq<Snapshot>, missing: seq<string>, cap: nat,
                             at: int, j: nat, r: nat)
    requires trace != [] && Chain(budget, trace) && Started(before, trace[0].tasks, missing, cap, false, at)
    requires j < |trace| && r < |before| && before[r].symbol in missing && cap < before[r].attempts
    ensures |before| <= |trace[j].tasks| && !trace[j].tasks[r].WithinCap()
  {
    CapInEveryState(before, budget, trace, missing, cap, false, at, j, r);
  }

  // ----- Succeeded rows over several runs -----

  predicate IsSucceeded(t: Task) {
    t.status.Succeeded?
  }

  /** Succeeded rows stay, up to rank and cap, and a row is newly succeeded only if its symbol is normalized. */
  predicate SucceededEvolve(before: seq<Task>, after: seq<Task>, normalized: set<string>) {
    && |before| <= |after|
    && (forall i :: 0 <= i < |before| && IsSucceeded(before[i]) ==>
          after[i] == before[i].(rank := after[i].rank, maxAttempts := after[i].maxAttempts))
    && (forall i :: 0 <= i < |after| && IsSucceeded(after[i]) ==>
          || after[i].symbol in normalized
          || (i < |before| && IsSucceeded(before[i]) && before[i].symbol == after[i].symbol))
  }

  lemma SucceededTransitive(a: seq<Task>, b: seq<Task>, c: seq<Task>, earlier: set<string>, later: set<string>)
    requires SucceededEvolve(a, b, earlier) && SucceededEvolve(b, c, later) && earlier <= later
    ensures SucceededEvolve(a, c, later)
  {
  }

  /** Discovery and requeueing leave succeeded rows as they are, up to rank and cap. */
  lemma EnrolmentSucceeds(before: seq<Task>, after: seq<Task>, normalized: set<string>)
    requires Enrolled(before, after)
    ensures SucceededEvolve(before, after, normalized)
  {
  }

  lemma RequeueSucceeds(before: seq<Task>, after: seq<Task>, at: int, normalized: set<string>)
    requires |after| == |before| && forall i :: 0 <= i < |before| ==> after[i] == RequeueRow(before[i], at)
    ensures SucceededEvolve(before, after, normalized)
    ensures Keyed(before) ==> Keyed(after)
  {
  }

  lemma SucceededLater(before: seq<Task>, after: seq<Task>, earlier: set<string>, later: set<string>)
    requires SucceededEvolve(before, after, earlier) && earlier <= later
    ensures SucceededEvolve(before, after, later)
  {
  }

  function SucceededSymbols(tasks: seq<Task>): set<string> {
    set t | t in tasks && IsSucceeded(t) :: t.symbol
  }

  /** Every row that says succeeded has its symbol in the ledger. */
  predicate SucceededKnown(tasks: seq<Task>, normalized: set<string>) {
    forall t :: t in tasks && IsSucceeded(t) ==> t.symbol in normalized
  }

  lemma StaysKnown(before: seq<Task>, after: seq<Task>, earlier: set<string>, later: set<string>)
    requires SucceededKnown(before, earlier) && earlier <= later && SucceededEvolve(before, after, later)
    ensures SucceededKnown(after, later)
  {
    forall t | t in after && IsSucceeded(t)
      ensures t.symbol in later
    {
      var i :| 0 <= i < |after| && after[i] == t;
      assert i < |before| ==> before[i] in before;
    }
  }

  lemma PreparedKnown(before: seq<Task>, after: seq<Task>, earlier: set<string>, later: set<string>)
    requires earlier <= later && SucceededEvolve(before, after, later)
    ensures SucceededKnown(before, earlier) ==> SucceededKnown(after, later)
  {
    if SucceededKnown(before, earlier) {
      StaysKnown(before, after, earlier, later);
    }
  }

  /** A whole claim loop, by its trace. */
  lemma LoopSucceeds(budget: int, trace: seq<Snapshot>, normalized: set<string>)
    requires trace != [] && Chain(budget, trace) && trace[|trace| - 1].reported <= normalized
    ensures SucceededEvolve(trace[0].tasks, trace[|trace| - 1].tasks, normalized)
  {
    if 1 < |trace| {
      ChainEvolves(budget, trace, 0, |trace| - 1);
      var a, b := trace[0], trace[|trace| - 1];
      assert forall i :: 0 <= i < |a.tasks| ==> RowEvolves(a.tasks[i], b.tasks[i], b.reported);
    }
  }

  lemma LoopKeepsKeys(budget: int, trace: seq<Snapshot>)
    requires trace != [] && Chain(budget, trace) && Keyed(trace[0].tasks)
    ensures Keyed(trace[|trace| - 1].tasks)
  {
    if 1 < |trace| {
      ChainEvolves(budget, trace, 0, |trace| - 1);
      var a, b := trace[0], trace[|trace| - 1];
      assert forall i :: 0 <= i < |a.tasks| ==> RowEvolves(a.tasks[i], b.tasks[i], b.reported);
    }
  }

  function CountStatus(tasks: seq<Task>, s: Status): nat {
    if tasks == [] then 0
    else CountStatus(tasks[..|tasks| - 1], s) + (if tasks[|tasks| - 1].status == s then 1 else 0)
  }

  function CountOf(counts: map<Status, nat>, s: Status): nat {
    if s in counts then counts[s] else 0
  }

  datatype Progress = Continue | Drained | TimedOut | Broken

  const MAX_FAILURES := 25
}
