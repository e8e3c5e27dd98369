/** The retention governor (cmd/retention-governor/main.go): each policy selects old rows of some tables,
    counts them and, when enforced, deletes them, keeping receipts of the evidence that signals cite. */
module Retention {

  datatype Table =
    | RawEvents | NormalizedEvents | OptionsChain | Snapshots | Statements | ConnectRawEvents
    | HourlyFeatures | DailyFeatures | AlgorithmResults | IdempotencyRecords

  /** A row; `kind` is its dataset or algorithm, `refs` the statements a snapshot was made from. */
  datatype Row = Row(table: Table, id: string, tenant: string, app: string, kind: string, time: int, refs: set<string>)

  datatype Signal = Signal(tenant: string, events: set<string>)

  datatype Key = Key(tenant: string, event: string)

  datatype PolicyId =
    | MarketRawEvents | EquityMetadata | OptionsDetail | FinancialMetadata | CyberRawEvents
    | CyberHighResolution | CyberMetadata | Idempotency | UnknownPolicy

  datatype Policy = Policy(id: PolicyId, retentionDays: int, enforced: bool)

  /** A condition on one table; an empty `app` or `kind` does not restrict, `wholeDays` compares dates. */
  datatype Target = Target(table: Table, app: string, kind: string, wholeDays: bool, unreferenced: bool, preserve: bool)

  const DAY := 86_400

  function PolicyTargets(id: PolicyId): seq<Target> {
    match id
    case MarketRawEvents => [Target(RawEvents, "marketops", "", false, false, false)]
    case EquityMetadata => [Target(NormalizedEvents, "marketops", "equity_eod_prices", false, false, false)]
    case OptionsDetail => [Target(OptionsChain, "", "", true, false, false)]
    case FinancialMetadata =>
      [Target(Snapshots, "", "", true, false, false), Target(Statements, "", "", true, true, false)]
    case CyberRawEvents =>
      [Target(RawEvents, "cyberops", "", false, false, false), Target(ConnectRawEvents, "", "", false, false, false)]
    case CyberHighResolution =>
      [Target(NormalizedEvents, "cyberops", "", false, false, true),
       Target(HourlyFeatures, "", "", false, false, false)]
    case CyberMetadata =>
      [Target(DailyFeatures, "", "", true, false, false),
       Target(AlgorithmResults, "", "signalops.algorithms.cyberops_iot_anomaly_v1", false, false, false)]
    case Idempotency => [Target(IdempotencyRecords, "", "", false, false, false)]
    case UnknownPolicy => []
  }

  function Cutoff(policy: Policy, now: int): int {
    now - policy.retentionDays * DAY
  }

  type Database = set<Row>

  /** Ids are primary keys. */
  ghost predicate KeysAreUnique(db: Database) {
    forall a, b :: a in db && b in db && a.table == b.table && a.id == b.id ==> a == b
  }

  /** Some snapshot, of any tenant, was made from the statement. */
  predicate Referenced(db: Database, statement: string) {
    exists f :: f in db && f.table == Snapshots && statement in f.refs
  }

  function Bound(t: Target, cutoff: int): int {
    if t.wholeDays then cutoff - cutoff % DAY else cutoff
  }

  predicate Selects(t: Target, r: Row, tenant: string, cutoff: int) {
    && r.table == t.table && r.tenant == tenant && r.time < Bound(t, cutoff)
    && (t.app == "" || r.app == t.app) && (t.kind == "" || r.kind == t.kind)
  }

  /** The rows a target's condition picks. */
  function Eligible(db: Database, t: Target, tenant: string, cutoff: int): set<Row> {
    set r | r in db && Selects(t, r, tenant, cutoff) && !(t.unreferenced && Referenced(db, r.id))
  }

  function Deleted(db: Database, t: Target, tenant: string, cutoff: int): Database {
    db - Eligible(db, t, tenant, cutoff)
  }

  /** The database after all targets in turn. */
  function After(db: Database, targets: seq<Target>, tenant: string, cutoff: int): Database {
    if targets == [] then db else After(Deleted(db, targets[0], tenant, cutoff), targets[1..], tenant, cutoff)
  }

  /** The rows an enforced run deletes, each target measured when its turn comes. */
  function Affected(db: Database, targets: seq<Target>, tenant: string, cutoff: int): nat {
    if targets == [] then 0
    else
      |Eligible(db, targets[0], tenant, cutoff)|
      + Affected(Deleted(db, targets[0], tenant, cutoff), targets[1..], tenant, cutoff)
  }

  /** The rows a dry run counts. */
  function Candidates(db: Database, targets: seq<Target>, tenant: string, cutoff: int): nat {
    if targets == [] then 0
    else |Eligible(db, targets[0], tenant, cutoff)| + Candidates(db, targets[1..], tenant, cutoff)
  }

  lemma {:induction false} AfterAppend(db: Database, targets: seq<Target>, t: Target, tenant: string, cutoff: int)
    ensures After(db, targets + [t], tenant, cutoff) == Deleted(After(db, targets, tenant, cutoff), t, tenant, cutoff)
    ensures Affected(db, targets + [t], tenant, cutoff)
         == Affected(db, targets, tenant, cutoff) + |Eligible(After(db, targets, tenant, cutoff), t, tenant, cutoff)|
    ensures Candidates(db, targets + [t], tenant, cutoff)
         == Candidates(db, targets, tenant, cutoff) + |Eligible(db, t, tenant, cutoff)|
    decreases |targets|
  {
    if targets == [] {
      assert [] + [t] == [t];
    } else {
      var next := Deleted(db, targets[0], tenant, cutoff);
      assert (targets + [t])[1..] == targets[1..] + [t];
      AfterAppend(next, targets[1..], t, tenant, cutoff);
      AfterAppend(db, targets[1..], t, tenant, cutoff);
    }
  }

  lemma AfterStep(db: Database, targets: seq<Target>, i: nat, tenant: string, cutoff: int)
    requires i < |targets|
    ensures After(db, targets[..i + 1], tenant, cutoff)
         == Deleted(After(db, targets[..i], tenant, cutoff), targets[i], tenant, cutoff)
    ensures Affected(db, targets[..i + 1], tenant, cutoff)
         == Affected(db, targets[..i], tenant, cutoff)
            + |Eligible(After(db, targets[..i], tenant, cutoff), targets[i], tenant, cutoff)|
    ensures Candidates(db, targets[..i + 1], tenant, cutoff)
         == Candidates(db, targets[..i], tenant, cutoff) + |Eligible(db, targets[i], tenant, cutoff)|
  {
    assert targets[..i + 1] == targets[..i] + [targets[i]];
    AfterAppend(db, targets[..i], targets[i], tenant, cutoff);
  }

  // ----- What a policy deletes -----

  /** Every row an enforced run deletes is one the tenant owns, in a table of the policy, and too old. */
  lemma {:induction false} DeletedIsSelected(db: Database, targets: seq<Target>, tenant: string, cutoff: int, r: Row)
    requires r in db && r !in After(db, targets, tenant, cutoff)
    ensures exists t :: t in targets && Selects(t, r, tenant, cutoff)
    decreases |targets|
  {
    var next := Deleted(db, targets[0], tenant, cutoff);
    if r in next {
      DeletedIsSelected(next, targets[1..], tenant, cutoff, r);
      var t :| t in targets[1..] && Selects(t, r, tenant, cutoff);
      assert t in targets;
    } else {
      assert targets[0] in targets;
    }
  }

  /** The runs of a policy with two targets, step by step. */
  lemma TwoTargets(db: Database, targets: seq<Target>, tenant: string, cutoff: int)
    requires |targets| == 2
    ensures var next := Deleted(db, targets[0], tenant, cutoff);
            && After(db, targets[..1], tenant, cutoff) == next
            && After(db, targets, tenant, cutoff) == Deleted(next, targets[1], tenant, cutoff)
            && Affected(db, targets, tenant, cutoff)
               == |Eligible(db, targets[0], tenant, cutoff)| + |Eligible(next, targets[1], tenant, cutoff)|
    ensures Candidates(db, targets, tenant, cutoff)
         == |Eligible(db, targets[0], tenant, cutoff)| + |Eligible(db, targets[1], tenant, cutoff)|
  {
    AfterAppend(db, [], targets[0], tenant, cutoff);
    AfterAppend(db, targets[..1], targets[1], tenant, cutoff);
    assert [] + [targets[0]] == targets[..1] && targets[..1] + [targets[1]] == targets;
  }

  /** However far a financial run gets, no surviving snapshot was made from a statement it deleted. */
  lemma NoDanglingStatement(db: Database, done: nat, tenant: string, cutoff: int, statement: Row, snapshot: Row)
    requires done <= |PolicyTargets(FinancialMetadata)|
    requires var after := After(db, PolicyTargets(FinancialMetadata)[..done], tenant, cutoff);
             && statement in db && statement !in after && statement.table == Statements
             && snapshot in after && snapshot.table == Snapshots
    ensures statement.id !in snapshot.refs
  {
    var targets := PolicyTargets(FinancialMetadata);
    var next := Deleted(db, targets[0], tenant, cutoff);
    TwoTargets(db, targets, tenant, cutoff);
    var run := targets[..done];
    assert run == [] || run == targets[..1] || run == targets;
    assert After(db, [], tenant, cutoff) == db;
    assert statement in Eligible(next, targets[1], tenant, cutoff);
  }

  /** Old statements whose every snapshot is about to go: a dry run does not count them. */
  function Freed(db: Database, tenant: string, cutoff: int): set<Row> {
    var targets := PolicyTargets(FinancialMetadata);
    var next := Deleted(db, targets[0], tenant, cutoff);
    set r | r in db && Selects(targets[1], r, tenant, cutoff) && Referenced(db, r.id) && !Referenced(next, r.id)
  }

  lemma UnionSize(a: set<Row>, b: set<Row>, c: set<Row>)
    requires a + b == c && a !! b
    ensures |a| + |b| == |c|
  {
  }

  /** A dry run of the financial policy counts less than an enforced run deletes by exactly the freed
      statements. */
  lemma FinancialDryRunMissesFreed(db: Database, tenant: string, cutoff: int)
    ensures var targets := PolicyTargets(FinancialMetadata);
            Affected(db, targets, tenant, cutoff)
            == Candidates(db, targets, tenant, cutoff) + |Freed(db, tenant, cutoff)|
  {
    var targets := PolicyTargets(FinancialMetadata);
    TwoTargets(db, targets, tenant, cutoff);
    var next := Deleted(db, targets[0], tenant, cutoff);
    var counted := Eligible(db, targets[1], tenant, cutoff);
    var deleted := Eligible(next, targets[1], tenant, cutoff);
    var freed := Freed(db, tenant, cutoff);
    assert forall r :: r in db && r.table == Statements ==> r in next;
    assert forall id :: Referenced(next, id) ==> Referenced(db, id);
    assert forall r :: r in deleted <==> r in counted || r in freed;
    assert counted + freed == deleted;
    UnionSize(counted, freed, deleted);
  }

  /** For every other policy a dry run counts exactly what an enforced run deletes. */
  lemma DryRunIsExactElsewhere(db: Database, id: PolicyId, tenant: string, cutoff: int)
    requires id != FinancialMetadata
    ensures Affected(db, PolicyTargets(id), tenant, cutoff) == Candidates(db, PolicyTargets(id), tenant, cutoff)
  {
    var targets := PolicyTargets(id);
    if |targets| == 2 {
      TwoTargets(db, targets, tenant, cutoff);
      var next := Deleted(db, targets[0], tenant, cutoff);
      assert Eligible(next, targets[1], tenant, cutoff) == Eligible(db, targets[1], tenant, cutoff);
    } else if |targets| == 1 {
      assert targets[1..] == [];
    }
  }

  /** After an enforced run nothing is left for the policy to delete. */
  lemma NothingIsLeft(db: Database, id: PolicyId, tenant: string, cutoff: int, t: Target)
    requires t in PolicyTargets(id)
    ensures Eligible(After(db, PolicyTargets(id), tenant, cutoff), t, tenant, cutoff) == {}
  {
    var targets := PolicyTargets(id);
    if |targets| == 2 {
      TwoTargets(db, targets, tenant, cutoff);
      var next := Deleted(db, targets[0], tenant, cutoff);
      var last := Deleted(next, targets[1], tenant, cutoff);
      assert forall f: Row :: f.table == Snapshots && id == FinancialMetadata ==> (f in next <==> f in last);
      assert forall s :: id == FinancialMetadata ==> (Referenced(next, s) <==> Referenced(last, s));
    } else {
      assert targets[1..] == [];
      assert After(db, targets, tenant, cutoff) == Deleted(db, targets[0], tenant, cutoff);
    }
  }

  /** The snapshots of the financial policy are decided by age alone. */
  lemma FinancialAfter(db: Database, tenant: string, cutoff: int, r: Row)
    ensures var targets := PolicyTargets(FinancialMetadata);
            r in After(db, targets, tenant, cutoff) <==>
              r in db && !Selects(targets[0], r, tenant, cutoff) &&
              !(Selects(targets[1], r, tenant, cutoff) && !Referenced(Deleted(db, targets[0], tenant, cutoff), r.id))
  {
    TwoTargets(db, PolicyTargets(FinancialMetadata), tenant, cutoff);
  }

  /** Deleting in two rounds leaves the same snapshots as deleting in one. */
  lemma SnapshotsCatchUp(db: Database, tenant: string, earlier: int, later: int, statement: string)
    requires earlier <= later
    ensures var targets := PolicyTargets(FinancialMetadata);
            Referenced(Deleted(After(db, targets, tenant, earlier), targets[0], tenant, later), statement) <==>
            Referenced(Deleted(db, targets[0], tenant, later), statement)
    ensures var targets := PolicyTargets(FinancialMetadata);
            Referenced(Deleted(db, targets[0], tenant, later), statement) ==>
            Referenced(Deleted(db, targets[0], tenant, earlier), statement)
  {
    var targets := PolicyTargets(FinancialMetadata);
    DayStartsAreOrdered(earlier, later);
    var twice := Deleted(After(db, targets, tenant, earlier), targets[0], tenant, later);
    var once := Deleted(db, targets[0], tenant, later);
    forall f: Row | f.table == Snapshots
      ensures f in twice <==> f in once
      ensures f in once ==> f in Deleted(db, targets[0], tenant, earlier)
    {
      FinancialAfter(db, tenant, earlier, f);
    }
  }

  /** A policy that was run before, with an earlier cutoff, ends where one run with the later cutoff ends:
      skipped or repeated runs make no difference. */
  lemma CatchUp(db: Database, id: PolicyId, tenant: string, earlier: int, later: int)
    requires earlier <= later
    ensures var targets := PolicyTargets(id);
            After(After(db, targets, tenant, earlier), targets, tenant, later) == After(db, targets, tenant, later)
  {
    var targets := PolicyTargets(id);
    var first := After(db, targets, tenant, earlier);
    DayStartsAreOrdered(earlier, later);
    if id == FinancialMetadata {
      forall r
        ensures r in After(first, targets, tenant, later) <==> r in After(db, targets, tenant, later)
      {
        SnapshotsCatchUp(db, tenant, earlier, later, r.id);
        FinancialAfter(db, tenant, earlier, r);
        FinancialAfter(db, tenant, later, r);
        FinancialAfter(first, tenant, later, r);
      }
    } else {
      IndependentTargetsCatchUp(db, targets, tenant, earlier, later);
    }
  }

  /** Targets decided by age alone commute with an earlier round. */
  lemma {:induction false} IndependentTargetsCatchUp(db: Database, targets: seq<Target>, tenant: string, earlier: int,
                                                     later: int)
    requires earlier <= later && forall t :: t in targets ==> !t.unreferenced
    ensures After(After(db, targets, tenant, earlier), targets, tenant, later) == After(db, targets, tenant, later)
  {
    forall r
      ensures r in After(After(db, targets, tenant, earlier), targets, tenant, later) <==>
        r in After(db, targets, tenant, later)
    {
      IndependentAfter(db, targets, tenant, earlier, r);
      IndependentAfter(db, targets, tenant, later, r);
      IndependentAfter(After(db, targets, tenant, earlier), targets, tenant, later, r);
      DayStartsAreOrdered(earlier, later);
    }
  }

  lemma {:induction false} IndependentAfter(db: Database, targets: seq<Target>, tenant: string, cutoff: int, r: Row)
    requires forall t :: t in targets ==> !t.unreferenced
    ensures r in After(db, targets, tenant, cutoff) <==>
      r in db && forall t :: t in targets ==> !Selects(t, r, tenant, cutoff)
    decreases |targets|
  {
    if targets != [] {
      IndependentAfter(Deleted(db, targets[0], tenant, cutoff), targets[1..], tenant, cutoff, r);
      assert forall t :: t in targets <==> t == targets[0] || t in targets[1..];
    }
  }

  lemma DayStartsAreOrdered(earlier: int, later: int)
    requires earlier <= later
    ensures earlier - earlier % DAY <= later - later % DAY
  {
    assert earlier / DAY <= later / DAY;
  }

  lemma {:induction false} AffectedIsLoss(db: Database, targets: seq<Target>, tenant: string, cutoff: int)
    ensures Affected(db, targets, tenant, cutoff) == |db| - |After(db, targets, tenant, cutoff)|
    decreases |targets|
  {
    if targets != [] {
      var next := Deleted(db, targets[0], tenant, cutoff);
      UnionSize(next, Eligible(db, targets[0], tenant, cutoff), db);
      AffectedIsLoss(next, targets[1..], tenant, cutoff);
    }
  }

  // ----- The run -----

  datatype Status = Running | Succeeded | Failed | Blocked

  datatype Run = Run(policy: PolicyId, enforced: bool, status: Status, candidates: nat, affected: nat)

  predicate Cites(s: Signal, r: Row) {
    s.tenant == r.tenant && r.id in s.events
  }

  /** A normalized CyberOps event that some signal of its tenant cites. */
  predicate IsEvidence(signals: set<Signal>, r: Row) {
    r.table == NormalizedEvents && r.app == "cyberops" && exists s :: s in signals && Cites(s, r)
  }

  function KeyOf(r: Row): Key {
    Key(r.tenant, r.id)
  }

  /** All evidence that went has a receipt. */
  ghost predicate EvidenceKept(before: Database, after: Database, signals: set<Signal>, receipts: map<Key, Row>) {
    forall r :: r in before && r !in after && IsEvidence(signals, r) ==> KeyOf(r) in receipts
  }

  /** No surviving snapshot was made from a statement that went. */
  ghost predicate NothingDangles(before: Database, after: Database) {
    forall st, f | st in before && st !in after && st.table == Statements && f in after && f.table == Snapshots ::
      st.id !in f.refs
  }

  /** Receipts are never changed, and a new one is the evidence it stands for. */
  ghost predicate ReceiptsGrow(before: map<Key, Row>, after: map<Key, Row>, db: Database, signals: set<Signal>) {
    && (forall k :: k in before ==> k in after && after[k] == before[k])
    && forall k :: k in after && k !in before ==>
         after[k] in db && IsEvidence(signals, after[k]) && KeyOf(after[k]) == k
  }

  lemma PolicyLeavesNothingDangling(db: Database, id: PolicyId, done: nat, tenant: string, cutoff: int)
    requires done <= |PolicyTargets(id)|
    ensures NothingDangles(db, After(db, PolicyTargets(id)[..done], tenant, cutoff))
  {
    var targets := PolicyTargets(id);
    var after := After(db, targets[..done], tenant, cutoff);
    forall st, f | st in db && st !in after && st.table == Statements && f in after && f.table == Snapshots
      ensures st.id !in f.refs
    {
      DeletedIsSelected(db, targets[..done], tenant, cutoff, st);
      assert exists t :: t in targets && Selects(t, st, tenant, cutoff);
      NoDanglingStatement(db, done, tenant, cutoff, st, f);
    }
  }

  /** Only the policy that keeps receipts can delete evidence. */
  lemma EvidenceIsPreserved(id: PolicyId, t: Target, signals: set<Signal>, r: Row, tenant: string, cutoff: int)
    requires t in PolicyTargets(id) && Selects(t, r, tenant, cutoff) && IsEvidence(signals, r)
    ensures t.preserve
  {
  }

  /** A run reports no more deletions than there were, and exact counts when it succeeded. */
  ghost predicate Reports(run: Run, before: Database, after: Database, targets: seq<Target>, tenant: string,
                          cutoff: int) {
    && run.affected <= |before| - |after|
    && (run.status == Succeeded ==> Counts(run, before, targets, tenant, cutoff))
    && (run.status == Succeeded ==> after == if run.enforced then After(before, targets, tenant, cutoff) else before)
  }

  /** The deletions recorded are those of the given targets. */
  ghost predicate RecordsLoss(run: Run, before: Database, counted: seq<Target>, tenant: string, cutoff: int) {
    run.affected == if run.enforced then Affected(before, counted, tenant, cutoff) else 0
  }

  /** What a run that got through the targets reports. */
  ghost predicate Counts(run: Run, db: Database, targets: seq<Target>, tenant: string, cutoff: int) {
    && run.candidates ==
       (if run.enforced then Affected(db, targets, tenant, cutoff) else Candidates(db, targets, tenant, cutoff))
    && run.affected == if run.enforced then Affected(db, targets, tenant, cutoff) else 0
  }

  /** Target `i` finds nothing to delete when its turn comes. */
  ghost predicate FindsNothing(db: Database, targets: seq<Target>, tenant: string, cutoff: int, i: nat) {
    i < |targets| && Eligible(After(db, targets[..i], tenant, cutoff), targets[i], tenant, cutoff) == {}
  }

  lemma {:induction false} AffectedFrom(db: Database, targets: seq<Target>, counted: nat, done: nat, tenant: string,
                                        cutoff: int)
    requires counted <= done <= |targets|
    ensures Affected(db, targets[..counted], tenant, cutoff) <= Affected(db, targets[..done], tenant, cutoff)
    ensures Affected(db, targets[..counted], tenant, cutoff) == Affected(db, targets[..done], tenant, cutoff) <==>
      forall i :: counted <= i < done ==> FindsNothing(db, targets, tenant, cutoff, i)
    decreases done
  {
    if counted < done {
      AffectedFrom(db, targets, counted, done - 1, tenant, cutoff);
      AfterStep(db, targets, done - 1, tenant, cutoff);
      assert FindsNothing(db, targets, tenant, cutoff, done - 1) <==>
        Affected(db, targets[..done - 1], tenant, cutoff) == Affected(db, targets[..done], tenant, cutoff);
    }
  }

  /** The deletions an enforced run records are those of the targets it counted: all it deleted if and only
      if each target it applied without counting it found nothing, and never more. */
  lemma RecordIsExact(run: Run, db: Database, targets: seq<Target>, counted: nat, done: nat, tenant: string,
                      cutoff: int)
    requires counted <= done <= |targets| && run.affected == Affected(db, targets[..counted], tenant, cutoff)
    ensures run.affected == |db| - |After(db, targets[..done], tenant, cutoff)| <==>
      forall i :: counted <= i < done ==> FindsNothing(db, targets, tenant, cutoff, i)
    ensures run.affected <= |db| - |After(db, targets[..done], tenant, cutoff)|
  {
    AffectedIsLoss(db, targets[..done], tenant, cutoff);
    AffectedFrom(db, targets, counted, done, tenant, cutoff);
  }

  lemma KeptInTurn(a: Database, b: Database, c: Database, signals: set<Signal>,
                   first: map<Key, Row>, second: map<Key, Row>, third: map<Key, Row>)
    requires c <= b <= a
    requires EvidenceKept(a, b, signals, second) && ReceiptsGrow(first, second, a, signals)
    requires EvidenceKept(b, c, signals, third) && ReceiptsGrow(second, third, b, signals)
    ensures EvidenceKept(a, c, signals, third) && ReceiptsGrow(first, third, a, signals)
  {
  }

  class Governor {
    var db: Database
    var receipts: map<Key, Row>
    var signals: set<Signal>
    var runs: seq<Run>

    constructor (db: Database, receipts: map<Key, Row>, signals: set<Signal>)
      ensures this.db == db && this.receipts == receipts && this.signals == signals && runs == []
    {
      this.db, this.receipts, this.signals, runs := db, receipts, signals, [];
    }

    /** A statement may fail, and a failed one may still have been carried out. */
    method Delete(t: Target, tenant: string, cutoff: int) returns (ok: bool, rows: nat, ghost carriedOut: bool)
      modifies this`db
      ensures db == if carriedOut then Deleted(old(db), t, tenant, cutoff) else old(db)
      ensures ok ==> carriedOut && rows == |Eligible(old(db), t, tenant, cutoff)|
      ensures !ok ==> rows == 0
    {
      ok, rows, carriedOut := *, 0, false;
      var reached: bool := *;
      if ok || reached {
        carriedOut := true;
        rows := if ok then |Eligible(db, t, tenant, cutoff)| else 0;
        db := Deleted(db, t, tenant, cutoff);
      }
    }

    /** Receipts for the old evidence; existing receipts stay as they are. */
    method PreserveReceipts(tenant: string, cutoff: int) returns (ok: bool)
      requires KeysAreUnique(db)
      modifies this`receipts
      ensures ReceiptsGrow(old(receipts), receipts, db, signals)
      ensures ok ==>
        forall r :: r in db && IsEvidence(signals, r) && r.tenant == tenant && r.time < cutoff ==> KeyOf(r) in receipts
    {
      ok := *;
      var reached: bool := *;
      if ok || reached {
        var cited := set r | r in db && IsEvidence(signals, r) && r.tenant == tenant && r.time < cutoff;
        receipts := (map r | r in cited :: KeyOf(r) := r) + receipts;
      }
    }

    /** Measures a target and, when enforced and there is anything to do, keeps receipts and deletes. */
    method ApplyTarget(before: Run, t: Target, tenant: string, cutoff: int)
      returns (run: Run, ghost carriedOut: bool, ghost readable: bool)
      requires KeysAreUnique(db) && before.status == Running && t in PolicyTargets(before.policy)
      modifies this`db, this`receipts
      ensures db == if carriedOut && before.enforced then Deleted(old(db), t, tenant, cutoff) else old(db)
      ensures !before.enforced ==> receipts == old(receipts)
      ensures EvidenceKept(old(db), db, signals, receipts) && ReceiptsGrow(old(receipts), receipts, old(db), signals)
      ensures run.policy == before.policy && run.enforced == before.enforced && run.status != Succeeded
      ensures run.status == Running ==>
        carriedOut && run.candidates == before.candidates + |Eligible(old(db), t, tenant, cutoff)|
      ensures run.status == Running ==>
        run.affected == before.affected + if run.enforced then |Eligible(old(db), t, tenant, cutoff)| else 0
      ensures run.status != Running ==> run.affected <= before.affected
      ensures run.status == Running ==> readable
      ensures !readable ==> run == before.(status := Failed, candidates := 0, affected := 0)
      ensures readable && run.status != Running ==> run.affected == before.affected && run.enforced
      ensures readable && run.status != Running && carriedOut ==> Eligible(old(db), t, tenant, cutoff) != {}
    {
      run, carriedOut := before, true;
      var measured: bool := *;
      readable := measured;
      if !measured {
        run, carriedOut := before.(status := Failed, candidates := 0, affected := 0), false;
      } else {
        var count := |Eligible(db, t, tenant, cutoff)|;
        run := before.(candidates := before.candidates + count);
        if before.enforced && count > 0 {
          var ok := true;
          if t.preserve {
            ok := PreserveReceipts(tenant, cutoff);
          }
          forall r | ok && r in Eligible(db, t, tenant, cutoff) && IsEvidence(signals, r)
            ensures KeyOf(r) in receipts
          {
            EvidenceIsPreserved(before.policy, t, signals, r, tenant, cutoff);
          }
          if !ok {
            run, carriedOut := run.(status := Blocked), false;
          } else {
            var rows;
            ok, rows, carriedOut := Delete(t, tenant, cutoff);
            run := if ok then run.(affected := run.affected + rows) else run.(status := Failed);
          }
        }
      }
    }

    /** Applies the targets in turn and stops at the first statement that fails. */
    method Apply(id: PolicyId, targets: seq<Target>, tenant: string, enforced: bool, cutoff: int)
      returns (run: Run, ghost done: nat, ghost counted: nat, ghost readable: bool)
      requires KeysAreUnique(db) && forall t :: t in targets ==> t in PolicyTargets(id)
      modifies this`db, this`receipts
      ensures done <= |targets| && db <= old(db)
      ensures db == if enforced then After(old(db), targets[..done], tenant, cutoff) else old(db)
      ensures !enforced ==> receipts == old(receipts)
      ensures EvidenceKept(old(db), db, signals, receipts) && ReceiptsGrow(old(receipts), receipts, old(db), signals)
      ensures run.policy == id && run.enforced == enforced && run.status != Running
      ensures Reports(run, old(db), db, targets, tenant, cutoff)
      ensures counted <= done && if readable then done <= counted + 1 else counted == 0
      ensures RecordsLoss(run, old(db), targets[..counted], tenant, cutoff)
      ensures readable ==> (run.affected == |old(db)| - |db| <==> !enforced || done == counted)
      ensures !readable ==> run == Run(id, enforced, Failed, 0, 0)
    {
      var i := 0;
      done, counted, readable := 0, 0, true;
      run := Run(id, enforced, Running, 0, 0);
      while i < |targets| && run.status == Running
        invariant done <= i <= |targets| && (run.status == Running ==> done == i)
        invariant db <= old(db)
        invariant db == if enforced then After(old(db), targets[..done], tenant, cutoff) else old(db)
        invariant !enforced ==> receipts == old(receipts)
        invariant EvidenceKept(old(db), db, signals, receipts)
        invariant ReceiptsGrow(old(receipts), receipts, old(db), signals)
        invariant run.policy == id && run.enforced == enforced && run.status != Succeeded
        invariant counted <= done && if readable then done <= counted + 1 else counted == 0
        invariant run.affected == if enforced then Affected(old(db), targets[..counted], tenant, cutoff) else 0
        invariant run.status == Running ==> readable && counted == i
        invariant readable && enforced && counted < done ==> !FindsNothing(old(db), targets, tenant, cutoff, counted)
        invariant run.status == Running ==> Counts(run, old(db), targets[..i], tenant, cutoff)
        invariant !readable ==> run == Run(id, enforced, Failed, 0, 0)
        decreases |targets| - i
      {
        ghost var was, kept, carriedOut := db, receipts, false;
        run, carriedOut, readable := ApplyTarget(run, targets[i], tenant, cutoff);
        KeptInTurn(old(db), was, db, signals, old(receipts), kept, receipts);
        AfterStep(old(db), targets, i, tenant, cutoff);
        done := if carriedOut then i + 1 else i;
        counted := if !readable then 0 else if run.status == Running then i + 1 else i;
        i := i + 1;
      }
      assert targets[..|targets|] == targets;
      if enforced {
        RecordIsExact(run, old(db), targets, counted, done, tenant, cutoff);
      }
      if run.status == Running {
        run := run.(status := Succeeded);
      }
    }

    /** One policy. The record of the run is written before and after, and either write can fail; a failed
        target makes the run failed or blocked, which is no error of the governor.  The record counts the
        deletions of the targets up to the one that failed; it is exact if and only if the statement that
        failed was not carried out.  When a target could not be measured it counts none, though those of
        earlier targets are gone. */
    method RunPolicy(tenant: string, policy: Policy, execute: bool, now: int)
      returns (err: bool, ghost done: nat, ghost counted: nat, ghost readable: bool)
      requires KeysAreUnique(db)
      modifies this`db, this`receipts, this`runs
      ensures done <= |PolicyTargets(policy.id)| && db <= old(db)
      ensures db == if execute && policy.enforced
        then After(old(db), PolicyTargets(policy.id)[..done], tenant, Cutoff(policy, now)) else old(db)
      ensures !(execute && policy.enforced) ==> receipts == old(receipts)
      ensures EvidenceKept(old(db), db, signals, receipts) && ReceiptsGrow(old(receipts), receipts, old(db), signals)
      ensures NothingDangles(old(db), db)
      ensures old(runs) <= runs && (!err ==> |runs| == |old(runs)| + 1)
      ensures !err ==>
        runs[|old(runs)|].policy == policy.id && runs[|old(runs)|].enforced == (execute && policy.enforced)
      ensures counted <= done && if readable then done <= counted + 1 else counted == 0
      ensures !err ==>
        RecordsLoss(runs[|old(runs)|], old(db), PolicyTargets(policy.id)[..counted], tenant, Cutoff(policy, now))
      ensures !err && readable ==>
        (runs[|old(runs)|].affected == |old(db)| - |db| <==> !(execute && policy.enforced) || done == counted)
      ensures !err && !readable ==> runs[|old(runs)|] == Run(policy.id, execute && policy.enforced, Failed, 0, 0)
      ensures |old(db)| - |db| ==
        if execute && policy.enforced
        then Affected(old(db), PolicyTargets(policy.id)[..done], tenant, Cutoff(policy, now)) else 0
      ensures !err ==> Reports(runs[|old(runs)|], old(db), db, PolicyTargets(policy.id), tenant, Cutoff(policy, now))
    {
      err, done, counted, readable := *, 0, 0, true;
      AffectedIsLoss(db, [], tenant, Cutoff(policy, now));
      if !err {
        var run;
        var enforced := execute && policy.enforced;
        run, done, counted, readable :=
          Apply(policy.id, PolicyTargets(policy.id), tenant, enforced, Cutoff(policy, now));
        PolicyLeavesNothingDangling(old(db), policy.id, done, tenant, Cutoff(policy, now));
        AffectedIsLoss(old(db), PolicyTargets(policy.id)[..done], tenant, Cutoff(policy, now));
        err := *;
        runs := runs + [if err then run.(status := Running) else run];
      }
    }

    /** All policies of a tenant in turn, up to the first error; without `execute` nothing is touched. */
    method RunAll(tenant: string, policies: seq<Policy>, execute: bool, now: int) returns (err: bool)
      requires KeysAreUnique(db)
      modifies this`db, this`receipts, this`runs
      ensures db <= old(db) && old(runs) <= runs
      ensures !execute ==> db == old(db) && receipts == old(receipts)
      ensures EvidenceKept(old(db), db, signals, receipts) && ReceiptsGrow(old(receipts), receipts, old(db), signals)
      ensures NothingDangles(old(db), db)
      ensures forall r :: r in old(db) && r !in db ==> r.tenant == tenant
      ensures !err ==> |runs| == |old(runs)| + |policies|
    {
      err := false;
      var i := 0;
      var clock := now;
      while i < |policies| && !err
        invariant 0 <= i <= |policies| && db <= old(db) && old(runs) <= runs
        invariant !execute ==> db == old(db) && receipts == old(receipts)
        invariant EvidenceKept(old(db), db, signals, receipts)
        invariant ReceiptsGrow(old(receipts), receipts, old(db), signals)
        invariant NothingDangles(old(db), db)
        invariant forall r :: r in old(db) && r !in db ==> r.tenant == tenant
        invariant !err ==> |runs| == |old(runs)| + i
        decreases |policies| - i
      {
        ghost var was, kept, done, counted, readable := db, receipts, 0, 0, true;
        err, done, counted, readable := RunPolicy(tenant, policies[i], execute, clock);
        KeptInTurn(old(db), was, db, signals, old(receipts), kept, receipts);
        forall r | r in was && r !in db
          ensures r.tenant == tenant
        {
          DeletedIsSelected(was, PolicyTargets(policies[i].id)[..done], tenant, Cutoff(policies[i], clock), r);
        }
        var elapsed: nat := *;
        clock := clock + elapsed;
        i := i + 1;
      }
    }
  }
}
