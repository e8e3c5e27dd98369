/** Calendar days as integers; day 0 is a Monday. */
module Calendar {

  predicate IsWeekday(day: int) {
    day % 7 < 5
  }

  /** The weekdays from `first` up to but not including `end`, in order. */
  function Weekdays(first: int, end: int): (r: seq<int>)
    ensures forall i :: 0 <= i < |r| ==> first <= r[i] < end && IsWeekday(r[i])
    ensures forall i, j :: 0 <= i < j < |r| ==> r[i] < r[j]
    ensures forall d :: first <= d < end && IsWeekday(d) ==> d in r
    ensures first <= end ==> |r| <= end - first
    decreases end - first
  {
    if end <= first then []
    else Weekdays(first, end - 1) + (if IsWeekday(end - 1) then [end - 1] else [])
  }

  method WeekdayCount(start: int, end: int) returns (count: nat)
    ensures count == |Weekdays(start, end)|
  {
    count := 0;
    var day := start;
    while day < end
      invariant start <= day && (start <= end ==> day <= end) && (end < start ==> day == start)
      invariant count == |Weekdays(start, day)|
    {
      if IsWeekday(day) {
        count := count + 1;
      }
      day := day + 1;
    }
    assert end < start ==> Weekdays(start, end) == [];
  }

  /** Three days in a row are never all on a weekend. */
  lemma ThreeDaysHaveAWeekday(first: int, end: int)
    requires first + 3 <= end
    ensures 1 <= |Weekdays(first, end)|
  {
    var d := if IsWeekday(first) then first else if IsWeekday(first + 1) then first + 1 else first + 2;
    assert d in Weekdays(first, end);
  }

  /** A date argument as given; `Blank` after trimming. */
  datatype DateText = Blank | Unreadable | Date(day: int)

  datatype Days = Days(days: seq<int>) | NotTogether | BadLimit | BadDate | Reversed | TooMany | NoWeekdays

  /** What a range of readable dates within the limits of the puller gives. */
  predicate RangeOutcome(r: Days, first: int, last: int, maxDays: int) {
    && (r.Reversed? <==> last < first)
    && (r.TooMany? <==> first <= last && maxDays < |Weekdays(first, last + 1)|)
    && (r.NoWeekdays? <==> first <= last && Weekdays(first, last + 1) == [])
    && (r.Days? ==> r.days == Weekdays(first, last + 1))
    && !r.NotTogether? && !r.BadLimit? && !r.BadDate?
  }

  /** The observation days of a pull: a single date, yesterday if it is blank, or the weekdays of an inclusive range. */
  method ParseObservationDates(single: DateText, start: DateText, end: DateText, maxDays: int, yesterday: int)
    returns (r: Days)
    ensures start.Blank? && end.Blank? ==>
      r == match single case Blank => Days([yesterday]) case Unreadable => BadDate case Date(day) => Days([day])
    ensures r.NotTogether? <==> start.Blank? != end.Blank?
    ensures r.BadLimit? <==> !start.Blank? && !end.Blank? && (maxDays <= 0 || 366 < maxDays)
    ensures !start.Blank? && !end.Blank? && 0 < maxDays <= 366 ==>
      (r.BadDate? <==> start.Unreadable? || end.Unreadable?)
    ensures start.Date? && end.Date? && 0 < maxDays <= 366 ==> RangeOutcome(r, start.day, end.day, maxDays)
  {
    if start.Blank? && end.Blank? {
      r := match single case Blank => Days([yesterday]) case Unreadable => BadDate case Date(day) => Days([day]);
    } else if start.Blank? || end.Blank? {
      r := NotTogether;
    } else if maxDays <= 0 || 366 < maxDays {
      r := BadLimit;
    } else if start.Unreadable? || end.Unreadable? {
      r := BadDate;
    } else if end.day < start.day {
      r := Reversed;
    } else {
      var days, over := CollectWeekdays(start.day, end.day, maxDays);
      r := if over then TooMany else if days == [] then NoWeekdays else Days(days);
    }
  }

  /** The weekdays of the range, or the news that there are more than allowed. */
  method CollectWeekdays(first: int, last: int, maxDays: int) returns (days: seq<int>, over: bool)
    requires 0 < maxDays && first <= last
    ensures over <==> maxDays < |Weekdays(first, last + 1)|
    ensures !over ==> days == Weekdays(first, last + 1)
  {
    var day := first;
    days, over := [], false;
    while !over && day <= last
      invariant first <= day <= last + 1 && days == Weekdays(first, day) && (over <==> maxDays < |days|)
      decreases last + 1 - day
    {
      if IsWeekday(day) {
        days := days + [day];
        over := maxDays < |days|;
      }
      day := day + 1;
    }
    WeekdaysGrow(first, day, last + 1);
  }

  lemma {:induction false} WeekdaysGrow(first: int, mid: int, end: int)
    requires first <= mid <= end
    ensures Weekdays(first, mid) <= Weekdays(first, end)
    decreases end - mid
  {
    if mid < end {
      WeekdaysGrow(first, mid, end - 1);
      assert Weekdays(first, end - 1) <= Weekdays(first, end);
    }
  }
}

/** The budgets of a pull over several days (cmd/massive-puller/main.go). */
module PullBudget {

  datatype Remaining = Remaining(budget: int) | Exceeded

  /** What is left of a configured limit; 0 stands for "no limit" both ways. */
  function RemainingBudget(configured: int, used: int): (r: Remaining)
    ensures configured <= 0 ==> r == Remaining(0)
    ensures 0 < configured ==> (r.Exceeded? <==> configured <= used)
    ensures 0 < configured && r.Remaining? ==> r.budget == configured - used && 0 < r.budget
  {
    if configured <= 0 then Remaining(0)
    else if configured - used <= 0 then Exceeded
    else Remaining(configured - used)
  }

  datatype Amounts = Amounts(requests: int, built: int, published: int)

  /** Within every limit that is set. */
  predicate Within(a: Amounts, limits: Amounts) {
    && (0 < limits.requests ==> a.requests <= limits.requests)
    && (0 < limits.built ==> a.built <= limits.built)
    && (0 < limits.published ==> a.published <= limits.published)
  }

  /** A budget that is never mistaken for "no limit". */
  predicate IsLimit(b: Amounts, limits: Amounts) {
    && (0 < limits.requests <==> 0 < b.requests) && (0 < limits.built <==> 0 < b.built)
    && (0 < limits.published <==> 0 < b.published)
    && Within(b, limits)
  }

  predicate UsedUp(used: Amounts, limits: Amounts) {
    || (0 < limits.requests && used.requests == limits.requests)
    || (0 < limits.built && used.built == limits.built)
    || (0 < limits.published && used.published == limits.published)
  }

  /** One day's pull, which honours the budget it is given and may fail. */
  method PullDay(budget: Amounts) returns (used: Amounts, ok: bool)
    ensures Within(used, budget) && 0 <= used.requests && 0 <= used.built && 0 <= used.published
  {
    var requests: nat, built: nat, published: nat := *, *, *;
    ok := *;
    used := Amounts(
      if 0 < budget.requests < requests then budget.requests else requests,
      if 0 < budget.built < built then budget.built else built,
      if 0 < budget.published < published then budget.published else published);
  }

  datatype Stop = AllDays | DayFailed | BudgetSpent

  /** All days in order.  The totals stay within the limits, every day is given a real budget, and
      the run stops early only on a failed day or when some limit is used up exactly. */
  method PullDays(days: seq<int>, limits: Amounts)
    returns (total: Amounts, pulled: seq<int>, budgets: seq<Amounts>, stop: Stop)
    ensures Within(total, limits)
    ensures pulled <= days && |budgets| == |pulled| && (pulled == [] ==> days == [])
    ensures forall i :: 0 <= i < |budgets| ==> IsLimit(budgets[i], limits)
    ensures stop.AllDays? ==> pulled == days
    ensures stop.BudgetSpent? ==> |pulled| < |days| && UsedUp(total, limits)
  {
    total, pulled, budgets, stop := Amounts(0, 0, 0), [], [], AllDays;
    while stop.AllDays? && |pulled| < |days|
      invariant pulled <= days && |budgets| == |pulled|
      invariant 0 <= total.requests && 0 <= total.built && 0 <= total.published && Within(total, limits)
      invariant forall j :: 0 <= j < |budgets| ==> IsLimit(budgets[j], limits)
      invariant pulled == [] ==> stop.AllDays? && total == Amounts(0, 0, 0)
      invariant stop.BudgetSpent? ==> |pulled| < |days| && UsedUp(total, limits)
      decreases |days| - |pulled|, stop.AllDays?
    {
      var requests := RemainingBudget(limits.requests, total.requests);
      var built := RemainingBudget(limits.built, total.built);
      var published := RemainingBudget(limits.published, total.published);
      if requests.Exceeded? || built.Exceeded? || published.Exceeded? {
        stop := BudgetSpent;
      } else {
        var budget := Amounts(requests.budget, built.budget, published.budget);
        var used, ok := PullDay(budget);
        total := Amounts(total.requests + used.requests, total.built + used.built, total.published + used.published);
        budgets, pulled := budgets + [budget], pulled + [days[|pulled|]];
        if !ok { stop := DayFailed; }
      }
    }
  }
}

/** The plan of a historical backfill campaign (cmd/marketops-algorithm-evaluation-backfill/main.go). */
module BackfillPlan {
  import opened Calendar

  const GROUP := 10

  /** The campaign id and the fixed-width formats make the id text as telling as this record. */
  datatype ChildId = ChildId(first: int, last: int, group: int)

  /** Symbol positions lo .. hi - 1 on the days start .. end - 1. */
  datatype Child = Child(id: ChildId, lo: nat, hi: nat, start: int, end: int)

  predicate Covers(c: Child, day: int, p: int) {
    c.start <= day < c.end && c.lo <= p < c.hi
  }

  /** How many children are responsible for a symbol position on a day. */
  function Count(children: seq<Child>, day: int, p: int): nat {
    if children == [] then 0
    else Count(children[..|children| - 1], day, p) + (if Covers(children[|children| - 1], day, p) then 1 else 0)
  }

  predicate WellPlanned(c: Child, start: int, end: int, chunk: int, symbols: nat) {
    && start <= c.start < c.end <= end && c.end - c.start <= chunk
    && c.lo < c.hi <= symbols && c.hi - c.lo <= GROUP
    && c.lo % GROUP == 0 && c.id == ChildId(c.start, c.end - 1, c.lo / GROUP + 1)
  }

  predicate DistinctIds(children: seq<Child>) {
    forall i, j :: 0 <= i < j < |children| ==> children[i].id != children[j].id
  }

  /** Everything planned so far lies on earlier days, or on the same days at earlier positions. */
  predicate Before(c: Child, start: int, end: int, index: int) {
    c.end <= start || (c.start == start && c.end == end && c.hi <= index)
  }

  lemma CountAppend(children: seq<Child>, c: Child, day: int, p: int)
    ensures Count(children + [c], day, p) == Count(children, day, p) + (if Covers(c, day, p) then 1 else 0)
  {
    assert (children + [c])[..|children|] == children;
  }

  ghost predicate Tiled(children: seq<Child>, first: int, start: int, end: int, index: int, symbols: nat) {
    forall day: int, p: int :: Count(children, day, p) ==
      if (first <= day < start && 0 <= p < symbols) || (start <= day < end && 0 <= p < index) then 1 else 0
  }

  /** The children of one chunk of days. */
  method PlanChunk(planned: seq<Child>, first: int, start: int, end: int, limit: int, chunk: int, symbols: nat)
    returns (out: seq<Child>)
    requires first <= start < end <= limit && end - start <= chunk
    requires Tiled(planned, first, start, start, 0, symbols) && DistinctIds(planned)
    requires forall c :: c in planned ==> WellPlanned(c, first, limit, chunk, symbols) && c.end <= start
    ensures Tiled(out, first, end, end, 0, symbols) && DistinctIds(out)
    ensures forall c :: c in out ==> WellPlanned(c, first, limit, chunk, symbols) && c.end <= end
  {
    out := planned;
    var index := 0;
    while index < symbols
      invariant index % GROUP == 0 && 0 <= index
      invariant Tiled(out, first, start, end, if index < symbols then index else symbols, symbols) && DistinctIds(out)
      invariant forall c :: c in out ==> WellPlanned(c, first, limit, chunk, symbols) && Before(c, start, end, index)
    {
      var stop := if index + GROUP > symbols then symbols else index + GROUP;
      var c := Child(ChildId(start, end - 1, index / GROUP + 1), index, stop, start, end);
      forall day: int, p: int
        ensures Count(out + [c], day, p) == Count(out, day, p) + (if Covers(c, day, p) then 1 else 0)
      {
        CountAppend(out, c, day, p);
      }
      forall x | x in out
        ensures x.id != c.id
      {
        assert Before(x, start, end, index);
      }
      out := out + [c];
      index := index + GROUP;
    }
  }

  /** The plan tiles the window: every symbol position on every day of it belongs to exactly one
      child, nothing outside it to any, and no two children share an id. */
  method PlanChildren(windowStart: int, windowEnd: int, chunk: int, symbols: nat) returns (children: seq<Child>)
    requires 0 < chunk
    ensures forall day: int, p: int ::
      Count(children, day, p) == if windowStart <= day < windowEnd && 0 <= p < symbols then 1 else 0
    ensures DistinctIds(children)
    ensures forall c :: c in children ==> WellPlanned(c, windowStart, windowEnd, chunk, symbols)
  {
    children := [];
    var start := windowStart;
    while start < windowEnd
      invariant windowStart <= start && DistinctIds(children)
      invariant var done := if start < windowEnd then start else Latest(windowStart, windowEnd);
                Tiled(children, windowStart, done, done, 0, symbols)
                && forall c :: c in children ==> WellPlanned(c, windowStart, windowEnd, chunk, symbols) && c.end <= done
      decreases windowEnd - start
    {
      var end := start + chunk;
      if end > windowEnd { end := windowEnd; }
      children := PlanChunk(children, windowStart, start, end, windowEnd, chunk, symbols);
      start := start + chunk;
    }
  }

  function Latest(a: int, b: int): int { if a <= b then b else a }

  /** A planned child asks the puller for exactly its weekdays, within the puller's limit; only a
      child without weekdays is refused. */
  method ChildDays(c: Child, start: int, end: int, chunk: int, symbols: nat) returns (r: Days)
    requires WellPlanned(c, start, end, chunk, symbols) && 1 <= chunk <= 20
    ensures Weekdays(c.start, c.end) != [] ==> r == Days.Days(Weekdays(c.start, c.end)) && |r.days| <= chunk
    ensures Weekdays(c.start, c.end) == [] ==> r.NoWeekdays?
  {
    r := ParseObservationDates(Blank, Date(c.start), Date(c.end - 1), chunk, c.start - 1);
  }

  /** The distinct symbol/day rows a child must have before it counts as done, of those expected. */
  function Required(expected: nat, symbols: nat): nat {
    var share := (expected * 80 + 99) / 100;
    if share < symbols then symbols else share
  }

  function Expected(weekdays: nat, symbols: nat): nat {
    weekdays * symbols
  }

  lemma RequiredWithin(expected: nat, symbols: nat)
    ensures Required(expected, symbols) <= expected <==> symbols <= expected
  {
  }

  lemma ExpectedAtLeast(weekdays: nat, symbols: nat)
    requires 0 < symbols
    ensures symbols <= Expected(weekdays, symbols) <==> 1 <= weekdays
  {
    if 1 <= weekdays {
      assert weekdays * symbols == symbols + (weekdays - 1) * symbols;
    }
  }

  /** The requirement can be met by the rows a child is expected to have if and only if the child has
      a weekday; a child of three days or more always has. */
  lemma RequiredIsAttainable(c: Child, start: int, end: int, chunk: int, symbols: nat)
    requires WellPlanned(c, start, end, chunk, symbols)
    ensures var n, w := c.hi - c.lo, |Weekdays(c.start, c.end)|;
            Required(Expected(w, n), n) <= Expected(w, n) <==> 1 <= w
    ensures 3 <= c.end - c.start ==> 1 <= |Weekdays(c.start, c.end)|
  {
    var n, w := c.hi - c.lo, |Weekdays(c.start, c.end)|;
    RequiredWithin(Expected(w, n), n);
    ExpectedAtLeast(w, n);
    if 3 <= c.end - c.start {
      ThreeDaysHaveAWeekday(c.start, c.end);
    }
  }
}

/** A campaign over its runs: each run resumes from the stored coverage, may stop or die after any
    effect, and may have been given another plan than the one before. */
module BackfillCampaign {
  import opened BackfillPlan

  datatype Status = Planned | Running | Failed | Succeeded

  /** What the coverage column holds: a list of completed ids, or something that cannot be decoded as one. */
  datatype Coverage = Garbled | Listed(ids: seq<ChildId>)

  datatype Record = Record(status: Status, coverage: Coverage, childIds: seq<ChildId>)

  datatype Stored = Missing | Stored(record: Record)

  function Ids(s: seq<ChildId>): set<ChildId> {
    set x | x in s
  }

  function Covered(coverage: Coverage): set<ChildId> {
    if coverage.Listed? then Ids(coverage.ids) else {}
  }

  /** The order of the id texts: their parts have fixed widths, the group two digits for up to 50 symbols. */
  predicate Precedes(a: ChildId, b: ChildId) {
    a.first < b.first || (a.first == b.first && (a.last < b.last || (a.last == b.last && a.group < b.group)))
  }

  predicate Ascending(ids: seq<ChildId>) {
    forall i, j :: 0 <= i < j < |ids| ==> Precedes(ids[i], ids[j])
  }

  /** Two ascending lists of the same ids are the same: the stored list does not depend on how the set was
      traversed. */
  lemma {:induction false} AscendingIsCanonical(a: seq<ChildId>, b: seq<ChildId>)
    requires Ascending(a) && Ascending(b) && Ids(a) == Ids(b)
    ensures a == b
  {
    FirstIsListed(a);
    FirstIsListed(b);
    if a != [] && b != [] {
      assert a[0] == b[0];
      TailIds(a);
      TailIds(b);
      AscendingIsCanonical(a[1..], b[1..]);
    }
  }

  lemma FirstIsListed(s: seq<ChildId>)
    ensures s != [] <==> Ids(s) != {}
    ensures s != [] ==> s[0] in Ids(s)
    ensures s != [] && Ascending(s) ==> forall x :: x in Ids(s) ==> x == s[0] || Precedes(s[0], x)
  {
    if s != [] {
      assert s[0] in Ids(s);
    }
  }

  lemma TailIds(s: seq<ChildId>)
    requires s != [] && Ascending(s)
    ensures Ids(s[1..]) == Ids(s) - {s[0]}
  {
    assert s == [s[0]] + s[1..];
  }

  lemma Prepended(x: ChildId, s: seq<ChildId>)
    requires Ascending(s) && forall y :: y in Ids(s) ==> Precedes(x, y)
    ensures Ascending([x] + s) && Ids([x] + s) == Ids(s) + {x}
  {
    assert forall i :: 0 <= i < |s| ==> s[i] in Ids(s);
  }

  function InsertId(ids: seq<ChildId>, x: ChildId): (r: seq<ChildId>)
    requires Ascending(ids) && x !in ids
    ensures Ascending(r) && |r| == |ids| + 1 && Ids(r) == Ids(ids) + {x}
  {
    FirstIsListed(ids);
    if ids == [] then [x]
    else if Precedes(x, ids[0]) then
      Prepended(x, ids);
      [x] + ids
    else
      var r := InsertId(ids[1..], x);
      TailIds(ids);
      Prepended(ids[0], r);
      [ids[0]] + r
  }

  /** The stored list of completed ids, each once, in ascending order. */
  method EncodeCoverage(completed: set<ChildId>) returns (coverage: Coverage)
    ensures coverage.Listed? && Covered(coverage) == completed && |coverage.ids| == |completed|
    ensures Ascending(coverage.ids)
  {
    var ids := [];
    var rest := completed;
    while rest != {}
      invariant rest <= completed && Ids(ids) == completed - rest && |ids| == |completed| - |rest|
      invariant Ascending(ids)
    {
      var x :| x in rest;
      rest := rest - {x};
      assert x !in Ids(ids);
      ids := InsertId(ids, x);
    }
    coverage := Listed(ids);
  }

  /** The set of the listed ids; what cannot be decoded counts as none. */
  method DecodeCoverage(coverage: Coverage) returns (completed: set<ChildId>)
    ensures completed == Covered(coverage)
  {
    completed := {};
    if coverage.Listed? {
      var ids := coverage.ids;
      for i := 0 to |ids|
        invariant completed == Ids(ids[..i])
      {
        assert ids[..i + 1] == ids[..i] + [ids[i]];
        completed := completed + {ids[i]};
      }
      assert ids[..|ids|] == ids;
    }
  }

  /** What one run did: the children it pulled, in turn, and those that are completed after it. */
  datatype Effect = Effect(pulled: seq<ChildId>, completed: set<ChildId>)

  function PullsAfter(pulls: seq<ChildId>, runs: seq<Effect>): (r: seq<ChildId>)
    ensures pulls <= r
  {
    if runs == [] then pulls else PullsAfter(pulls, runs[..|runs| - 1]) + runs[|runs| - 1].pulled
  }

  function CompletedAfter(completed: set<ChildId>, runs: seq<Effect>): set<ChildId> {
    if runs == [] then completed else runs[|runs| - 1].completed
  }

  /** No run took a completion back, pulled a child completed before it, or pulled one twice. */
  predicate NonePulledAgain(completed: set<ChildId>, runs: seq<Effect>) {
    runs != [] ==>
      var before := CompletedAfter(completed, runs[..|runs| - 1]);
      && NonePulledAgain(completed, runs[..|runs| - 1])
      && before <= runs[|runs| - 1].completed && PulledOnce(runs[|runs| - 1].pulled, before)
  }

  predicate PulledOnce(pulled: seq<ChildId>, completed: set<ChildId>) {
    && (forall i :: 0 <= i < |pulled| ==> pulled[i] !in completed)
    && forall i, j :: 0 <= i < j < |pulled| ==> pulled[i] != pulled[j]
  }

  lemma OneMoreRun(pulls: seq<ChildId>, completed: set<ChildId>, runs: seq<Effect>, last: Effect)
    ensures PullsAfter(pulls, runs + [last]) == PullsAfter(pulls, runs) + last.pulled
    ensures CompletedAfter(completed, runs + [last]) == last.completed
    ensures NonePulledAgain(completed, runs + [last]) <==>
      NonePulledAgain(completed, runs) && CompletedAfter(completed, runs) <= last.completed
      && PulledOnce(last.pulled, CompletedAfter(completed, runs))
  {
    assert (runs + [last])[..|runs|] == runs;
  }

  /** In such a history, whatever is completed at some point is not pulled from then on and stays completed. */
  lemma {:induction false} CompletedStaysUnpulled(completed: set<ChildId>, runs: seq<Effect>, i: nat, j: nat,
                                                  x: ChildId)
    requires NonePulledAgain(completed, runs) && i <= j < |runs| && x in CompletedAfter(completed, runs[..i])
    ensures x !in runs[j].pulled && x in runs[j].completed
    decreases |runs|
  {
    var n := |runs| - 1;
    if j < n {
      assert runs[..n][..i] == runs[..i];
      CompletedStaysUnpulled(completed, runs[..n], i, j, x);
    } else if i < n {
      assert runs[..n][..i] == runs[..i];
      CompletedStaysUnpulled(completed, runs[..n], i, n - 1, x);
      assert runs[..n][n - 1] == runs[n - 1];
    }
  }

  class Campaign {
    var stored: Stored
    var pulls: seq<ChildId>
    ghost var confirmed: set<ChildId>

    /** What the store counts as completed. */
    function Completed(): set<ChildId>
      reads this
    {
      if stored.Stored? then Covered(stored.record.coverage) else {}
    }

    /** Completed children were pulled and their coverage confirmed; a succeeded campaign has completed
        every child of the plan it recorded. */
    ghost predicate Valid()
      reads this
    {
      && Completed() <= confirmed
      && (forall x :: x in confirmed ==> x in pulls)
      && (stored.Stored? && stored.record.status.Succeeded? ==> Ids(stored.record.childIds) <= Completed())
    }

    constructor ()
      ensures Valid() && stored == Missing && pulls == []
    {
      stored, pulls, confirmed := Missing, [], {};
    }

    /** A write that fails may or may not have reached the store. */
    method Upsert(record: Record) returns (ok: bool)
      requires Valid() && Completed() <= Covered(record.coverage) <= confirmed
      requires record.status.Succeeded? ==> Ids(record.childIds) <= Covered(record.coverage)
      modifies `stored
      ensures Valid() && old(Completed()) <= Completed() <= Covered(record.coverage)
      ensures ok ==> stored == Stored(record)
      ensures stored == Stored(record) || stored == old(stored)
    {
      ok := *;
      var applied: bool := *;
      if ok || applied {
        stored := Stored(record);
      }
    }

    /** Pulls one child and waits for its normalized coverage. */
    method ExecuteChild(id: ChildId) returns (ok: bool)
      requires Valid()
      modifies `pulls, `confirmed
      ensures Valid() && (pulls == old(pulls) + [id] || (!ok && pulls == old(pulls)))
      ensures confirmed == if ok then old(confirmed) + {id} else old(confirmed)
    {
      var started: bool := *;
      ok := false;
      if started {
        pulls := pulls + [id];
        ok := *;
        if ok { confirmed := confirmed + {id}; }
      }
    }

    /** One child that is not completed yet: executed, and then stored as completed. */
    method CompleteChild(id: ChildId, completed: set<ChildId>, given: Record) returns (finished: bool, record: Record)
      requires Valid() && Completed() <= completed == Covered(given.coverage) <= confirmed && !given.status.Succeeded?
      modifies this
      ensures Valid() && old(Completed()) <= Completed() <= Covered(record.coverage) <= confirmed
      ensures record == given.(coverage := record.coverage, status := record.status) && !record.status.Succeeded?
      ensures pulls == old(pulls) + [id] || (!finished && pulls == old(pulls))
      ensures Covered(given.coverage) <= Covered(record.coverage)
      ensures finished ==> Covered(record.coverage) == completed + {id}
    {
      finished := ExecuteChild(id);
      if finished {
        var coverage := EncodeCoverage(completed + {id});
        record := given.(coverage := coverage);
        finished := Upsert(record);
      } else {
        record := given.(status := Failed);
        var _ := Upsert(record);
      }
    }

    /** The children that are not completed yet, in plan order, up to the first that fails. */
    method ExecuteChildren(plan: seq<ChildId>, given: Record) returns (finished: bool, record: Record)
      requires Valid() && Completed() <= Covered(given.coverage) <= confirmed && !given.status.Succeeded?
      modifies this
      ensures Valid() && old(Completed()) <= Completed() <= Covered(record.coverage) <= confirmed
      ensures record == given.(coverage := record.coverage, status := record.status) && !record.status.Succeeded?
      ensures old(pulls) <= pulls
      ensures forall i :: |old(pulls)| <= i < |pulls| ==> pulls[i] in plan && pulls[i] !in Covered(given.coverage)
      ensures forall i, j :: |old(pulls)| <= i < j < |pulls| ==> pulls[i] != pulls[j]
      ensures finished ==> Ids(plan) <= Covered(record.coverage)
    {
      record, finished := given, true;
      var completed := DecodeCoverage(given.coverage);
      var i := 0;
      while finished && i < |plan|
        invariant Valid() && old(Completed()) <= Completed() <= Covered(record.coverage) <= confirmed
        invariant record == given.(coverage := record.coverage, status := record.status) && !record.status.Succeeded?
        invariant i <= |plan| && old(pulls) <= pulls && Covered(given.coverage) <= completed
        invariant forall j :: |old(pulls)| <= j < |pulls| ==> pulls[j] in plan && pulls[j] !in Covered(given.coverage)
        invariant forall j :: |old(pulls)| <= j < |pulls| && finished ==> pulls[j] in completed
        invariant forall j, k :: |old(pulls)| <= j < k < |pulls| ==> pulls[j] != pulls[k]
        invariant finished ==> completed == Covered(record.coverage) && Ids(plan[..i]) <= completed
        decreases |plan| - i, finished
      {
        if plan[i] !in completed {
          finished, record := CompleteChild(plan[i], completed, record);
          completed := completed + {plan[i]};
        }
        assert plan[..i + 1] == plan[..i] + [plan[i]];
        i := i + 1;
      }
      assert finished ==> plan[..|plan|] == plan;
    }

    /** One run of the command with the plan it computed. */
    method Run(plan: seq<ChildId>, executePull: bool) returns (ok: bool)
      requires Valid()
      modifies this
      ensures Valid() && old(Completed()) <= Completed()
      ensures old(pulls) <= pulls && (!executePull ==> pulls == old(pulls))
      ensures forall i :: |old(pulls)| <= i < |pulls| ==> pulls[i] in plan
      ensures PulledOnce(pulls[|old(pulls)|..], old(Completed()))
      ensures old(stored).Stored? && old(stored).record.status.Succeeded? ==>
        stored == old(stored) && pulls == old(pulls)
      ensures ok && executePull ==> stored.Stored? && stored.record.status.Succeeded?
      ensures ok && executePull && !(old(stored).Stored? && old(stored).record.status.Succeeded?) ==>
        Ids(plan) <= Completed()
    {
      var readable: bool := *;
      ok := readable;
      if ok && !(stored.Stored? && stored.record.status.Succeeded?) {
        var completed := {};
        if stored.Stored? {
          completed := DecodeCoverage(stored.record.coverage);
        }
        var coverage := EncodeCoverage(completed);
        var record := Record(if executePull then Running else Planned, coverage, plan);
        ok := Upsert(record);
        if ok && executePull {
          ok, record := ExecuteChildren(plan, record);
          if ok {
            ok := Upsert(record.(status := Succeeded));
          }
        }
      }
    }

    /** Any number of runs, with whatever plans; the history they leave says what each of them did.
        Completion is never lost, no run pulls a child that was completed before it, by whichever run, and
        none pulls a child twice. */
    method Operate(plans: seq<seq<ChildId>>) returns (ghost runs: seq<Effect>)
      requires Valid()
      modifies this
      ensures Valid() && |runs| == |plans| && NonePulledAgain(old(Completed()), runs)
      ensures pulls == PullsAfter(old(pulls), runs) && Completed() == CompletedAfter(old(Completed()), runs)
    {
      runs := [];
      for i := 0 to |plans|
        invariant Valid() && |runs| == i && NonePulledAgain(old(Completed()), runs)
        invariant pulls == PullsAfter(old(pulls), runs) && Completed() == CompletedAfter(old(Completed()), runs)
      {
        var execute: bool := *;
        ghost var before := pulls;
        var _ := Run(plans[i], execute);
        ghost var last := Effect(pulls[|before|..], Completed());
        OneMoreRun(old(pulls), old(Completed()), runs, last);
        assert pulls == before + last.pulled;
        runs := runs + [last];
      }
    }
  }
}
