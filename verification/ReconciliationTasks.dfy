/** The table of tasks of the equity reconciliation queue and the way one run may change it.

    A run of the reconciler only ever writes rows one at a time, so everything the run
    promises about the table is a statement about a chain of snapshots.  This module
    defines what one link of such a chain allows and proves what whole chains allow. */
module ReconciliationTasks {

  datatype Option<+T> = None | Some(value: T)

  datatype Status = Queued | Running | AwaitingNormalization | Succeeded | Failed

  /** The messages a row can carry as its last error; Other stands for text the run only copies. */
  datatype Note =
    | Blank
    | LeaseRecovered
    | NotObserved
    | ReplayedAlready
    | ReplayNotPublished
    | PullFailed
    | AttemptsExhausted
    | BudgetExhausted
    | NotActive
    | Other(text: string)

  /** One row of the queue.  Symbols are in the canonical upper-case form under which both
      the queue and the ledgers key them; times are integers in one unit. */
  datatype Task = Task(
    symbol: string,
    rank: int,
    status: Status,
    attempts: nat,
    maxAttempts: nat,
    replays: nat,
    nextAttemptAt: int,
    lease: Option<int>,
    rawEventId: string,
    lastError: Note,
    completedAt: Option<int>)
  {
    predicate WithinCap() {
      attempts <= maxAttempts
    }

    predicate Terminal() {
      status.Succeeded? || status.Failed?
    }

    /** How many more useful claims the row can absorb. */
    function Work(): nat {
      if Terminal() then 0
      else (if attempts < maxAttempts then maxAttempts - attempts else 0) + (if replays == 0 then 1 else 0) + 1
    }

    /** How much of the run is left once the row can be claimed (again). */
    function Window(deadline: int): nat {
      var from :=
        if status.Queued? then nextAttemptAt
        else if !Terminal() && lease.Some? then lease.value + 1
        else deadline;
      if from < deadline then deadline - from else 0
    }
  }

  function WorkOf(t: Task): int { t.Work() }

  function AttemptsOf(t: Task): int { t.attempts }

  function ReplaysOf(t: Task): int { t.replays }

  function WindowOf(deadline: int): Task -> int { (t: Task) => t.Window(deadline) }

  function Sum(ts: seq<Task>, f: Task -> int): int {
    if ts == [] then 0 else f(ts[0]) + Sum(ts[1..], f)
  }

  lemma {:induction false} SumUpdate(ts: seq<Task>, f: Task -> int, i: nat, t: Task)
    requires i < |ts|
    ensures Sum(ts[i := t], f) == Sum(ts, f) - f(ts[i]) + f(t)
  {
    if i == 0 {
      assert ts[0 := t][1..] == ts[1..];
    } else {
      SumUpdate(ts[1..], f, i - 1, t);
      assert ts[i := t][1..] == ts[1..][i - 1 := t];
    }
  }

  lemma {:induction false} SumMonotone(ts: seq<Task>, us: seq<Task>, f: Task -> int)
    requires |ts| == |us|
    requires forall i :: 0 <= i < |ts| ==> f(us[i]) <= f(ts[i])
    ensures Sum(us, f) <= Sum(ts, f)
  {
    if ts != [] {
      SumMonotone(ts[1..], us[1..], f);
    }
  }

  lemma {:induction false} SumNonNegative(ts: seq<Task>, f: Task -> int)
    requires forall t :: 0 <= f(t)
    ensures 0 <= Sum(ts, f)
  {
    if ts != [] {
      SumNonNegative(ts[1..], f);
    }
  }

  /** What a claim first does to every row: a lease that expired before `at` puts the row back. */
  function RecoverRow(t: Task, at: int): Task {
    if (t.status.Running? || t.status.AwaitingNormalization?) && t.lease.Some? && t.lease.value < at then
      t.(status := Queued, nextAttemptAt := at, lease := None,
         lastError := if t.lastError.Blank? then LeaseRecovered else t.lastError)
    else t
  }

  function Recover(ts: seq<Task>, at: int): (r: seq<Task>)
    ensures |r| == |ts|
    ensures forall i :: 0 <= i < |ts| ==> r[i] == RecoverRow(ts[i], at)
  {
    seq(|ts|, i requires 0 <= i < |ts| => RecoverRow(ts[i], at))
  }

  predicate Due(t: Task, at: int) {
    t.status.Queued? && t.nextAttemptAt <= at
  }

  /** Claiming the due row `row` at time `at`. */
  function ClaimRow(t: Task, at: int, leaseDuration: int): Task {
    t.(status := Running, lease := Some(at + leaseDuration))
  }

  /** Recovering leases never creates work nor time, and claiming a due row before the
      deadline uses up some of the time in which that row can be claimed. */
  lemma ClaimShrinksWindow(ts: seq<Task>, row: nat, at: int, leaseDuration: int, deadline: int)
    requires row < |ts| && Due(Recover(ts, at)[row], at) && at < deadline && 0 < leaseDuration
    ensures var us := Recover(ts, at)[row := ClaimRow(Recover(ts, at)[row], at, leaseDuration)];
            Sum(us, WorkOf) == Sum(ts, WorkOf) && Sum(us, AttemptsOf) == Sum(ts, AttemptsOf)
            && Sum(us, ReplaysOf) == Sum(ts, ReplaysOf) && Sum(us, WindowOf(deadline)) < Sum(ts, WindowOf(deadline))
  {
    var rs := Recover(ts, at);
    RecoverSums(ts, at, deadline);
    SumUpdate(rs, WorkOf, row, ClaimRow(rs[row], at, leaseDuration));
    SumUpdate(rs, AttemptsOf, row, ClaimRow(rs[row], at, leaseDuration));
    SumUpdate(rs, ReplaysOf, row, ClaimRow(rs[row], at, leaseDuration));
    SumUpdate(rs, WindowOf(deadline), row, ClaimRow(rs[row], at, leaseDuration));
  }

  lemma RecoverSums(ts: seq<Task>, at: int, deadline: int)
    ensures Sum(Recover(ts, at), WorkOf) == Sum(ts, WorkOf)
    ensures Sum(Recover(ts, at), AttemptsOf) == Sum(ts, AttemptsOf)
    ensures Sum(Recover(ts, at), ReplaysOf) == Sum(ts, ReplaysOf)
    ensures Sum(Recover(ts, at), WindowOf(deadline)) <= Sum(ts, WindowOf(deadline))
  {
    var rs := Recover(ts, at);
    SumMonotone(ts, rs, WorkOf);
    SumMonotone(rs, ts, WorkOf);
    SumMonotone(ts, rs, AttemptsOf);
    SumMonotone(rs, ts, AttemptsOf);
    SumMonotone(ts, rs, ReplaysOf);
    SumMonotone(rs, ts, ReplaysOf);
    SumMonotone(ts, rs, WindowOf(deadline));
  }

  // ----- Chains of persisted states -----

  /** What an observer of the store sees: the rows, the symbols the normalized-event ledger
      has reported so far, and how many provider requests the run has spent. */
  datatype Snapshot = Snapshot(tasks: seq<Task>, reported: set<string>, requests: nat)

  /** How row `a` may look later in the same run, when the ledger has reported `reported`. */
  predicate RowEvolves(a: Task, b: Task, reported: set<string>) {
    && b.symbol == a.symbol && b.rank == a.rank && b.maxAttempts == a.maxAttempts
    && (a.Terminal() ==> b == a)
    && a.attempts <= b.attempts && (b.attempts == a.attempts || b.attempts <= b.maxAttempts)
    && a.replays <= b.replays && (b.replays == a.replays || b.replays <= 1)
    && (b.status.Succeeded? && !a.status.Succeeded? ==> b.symbol in reported)
  }

  /** The row has moved on for good: closed, or one more attempt or its replay counted. */
  predicate Ahead(a: Task, b: Task) {
    b.Terminal() || Counted(a, b)
  }

  predicate Counted(a: Task, b: Task) {
    a.attempts < b.attempts || (a.replays == 0 && 0 < b.replays)
  }

  lemma AheadLeavesLessWork(a: Task, b: Task, reported: set<string>)
    requires !a.Terminal() && RowEvolves(a, b, reported)
    ensures b.Work() <= a.Work()
    ensures Ahead(a, b) ==> b.Work() < a.Work()
  {
  }

  predicate Evolves(budget: int, a: Snapshot, b: Snapshot) {
    && |b.tasks| == |a.tasks|
    && (forall i :: 0 <= i < |a.tasks| ==> RowEvolves(a.tasks[i], b.tasks[i], b.reported))
    && a.reported <= b.reported
    && a.requests <= b.requests <= budget
    && Sum(b.tasks, AttemptsOf) - Sum(a.tasks, AttemptsOf) <= b.requests - a.requests
  }

  predicate Link(budget: int, trace: seq<Snapshot>, k: nat) {
    k + 1 < |trace| && Evolves(budget, trace[k], trace[k + 1])
  }

  /** Every persisted state follows from the one before it. */
  predicate Chain(budget: int, trace: seq<Snapshot>) {
    forall k :: 0 <= k < |trace| - 1 ==> Link(budget, trace, k)
  }

  lemma EvolvesTransitive(budget: int, a: Snapshot, b: Snapshot, c: Snapshot)
    requires Evolves(budget, a, b) && Evolves(budget, b, c)
    ensures Evolves(budget, a, c)
  {
    forall i | 0 <= i < |a.tasks|
      ensures RowEvolves(a.tasks[i], c.tasks[i], c.reported)
    {
      assert RowEvolves(a.tasks[i], b.tasks[i], b.reported) && RowEvolves(b.tasks[i], c.tasks[i], c.reported);
    }
  }

  /** Any two persisted states of one run, however far apart, are related as neighbours are. */
  lemma {:induction false} ChainEvolves(budget: int, trace: seq<Snapshot>, i: nat, j: nat)
    requires Chain(budget, trace) && i < j < |trace|
    ensures Evolves(budget, trace[i], trace[j])
    decreases j
  {
    assert Link(budget, trace, j - 1);
    if i + 1 < j {
      ChainEvolves(budget, trace, i, j - 1);
      EvolvesTransitive(budget, trace[i], trace[j - 1], trace[j]);
    }
  }

  /** Whole-run safety, over every pair of persisted states: terminal rows are final, a row that
      becomes succeeded had been reported normalized by then, the caps on attempts and replays
      hold in a later state exactly when they hold in the earlier one, and the persisted attempts
      never outrun the provider requests, which never exceed the budget. */
  lemma RunSafety(budget: int, trace: seq<Snapshot>, i: nat, j: nat, r: nat)
    requires Chain(budget, trace) && i < j < |trace| && r < |trace[i].tasks|
    ensures |trace[j].tasks| == |trace[i].tasks|
    ensures var a, b := trace[i].tasks[r], trace[j].tasks[r];
            && (a.Terminal() ==> b == a)
            && (b.status.Succeeded? && !a.status.Succeeded? ==> b.symbol in trace[j].reported)
            && b.symbol == a.symbol && b.maxAttempts == a.maxAttempts
            && (a.WithinCap() <==> b.WithinCap())
            && (a.replays <= 1 <==> b.replays <= 1)
    ensures trace[j].requests <= budget
    ensures Sum(trace[j].tasks, AttemptsOf) <= Sum(trace[i].tasks, AttemptsOf) + (trace[j].requests - trace[i].requests)
  {
    ChainEvolves(budget, trace, i, j);
    assert RowEvolves(trace[i].tasks[r], trace[j].tasks[r], trace[j].reported);
  }

  lemma ChainExtend(budget: int, trace: seq<Snapshot>, s: Snapshot)
    requires Chain(budget, trace)
    requires trace != [] ==> Evolves(budget, trace[|trace| - 1], s)
    ensures Chain(budget, trace + [s])
  {
    var longer := trace + [s];
    forall k | 0 <= k < |longer| - 1
      ensures Link(budget, longer, k)
    {
      if k < |trace| - 1 {
        assert Link(budget, trace, k);
      }
    }
  }

  /** Writing one row in an allowed way is an allowed step of the whole table. */
  lemma RowWriteEvolves(budget: int, a: Snapshot, row: nat, t: Task, b: Snapshot)
    requires row < |a.tasks| && b.tasks == a.tasks[row := t]
    requires RowEvolves(a.tasks[row], t, b.reported)
    requires a.reported <= b.reported && a.requests <= b.requests <= budget
    requires t.attempts - a.tasks[row].attempts <= b.requests - a.requests
    ensures Evolves(budget, a, b)
  {
    SumUpdate(a.tasks, AttemptsOf, row, t);
  }

  /** Recovering expired leases is an allowed step of the whole table. */
  lemma RecoverEvolves(budget: int, a: Snapshot, at: int, b: Snapshot)
    requires b.tasks == Recover(a.tasks, at)
    requires a.reported <= b.reported && a.requests <= b.requests <= budget
    ensures Evolves(budget, a, b)
  {
    RecoverSums(a.tasks, at, 0);
  }
}
