/** One run of the equity reconciliation (cmd/massive-puller/reconcile.go).

    The store, the ledgers, the provider, the broker and the clock are the environment: every
    call may let time pass and the ledgers grow, may fail, and a failed store update may or
    may not have reached the table.  The ledgers never forget during the run. */
module ReconciliationRun {
  import opened ReconciliationTasks
  import opened Reconciliation

  class Reconciler {
    // the environment
    var tasks: seq<Task>
    var normalized: set<string>
    var raw: map<string, string>
    var now: int
    var pulls: seq<string>
    var replayed: seq<string>

    // the run
    var report: Report
    var task: Task
    var row: nat

    ghost var reported: set<string>
    /** The store calls that failed or were cut off, the updates among them that never reached the table,
        and the replays that reached the broker although their call reported an error. */
    ghost var faults: nat
    ghost var lost: Losses
    ghost var unacknowledged: nat

    ghost var start: Snapshot
    ghost var trace: seq<Snapshot>
    ghost var budget: int

    ghost function Now(): Snapshot
      reads this
    {
      Snapshot(tasks, reported, report.requests)
    }

    ghost function Account(): Sheet
      reads this
    {
      Sheet(tasks, report, |pulls|, |replayed|, unacknowledged, faults, lost)
    }

    /** Every write is in the trace, and what the run counts only grows beyond it. */
    ghost predicate Valid()
      reads this
    {
      && trace != [] && trace[0] == start && Chain(budget, trace)
      && Last().tasks == tasks && Last().reported <= reported
      && Last().requests <= report.requests <= budget
      && reported <= normalized
    }

    ghost function Last(): Snapshot
      requires trace != []
      reads this
    {
      trace[|trace| - 1]
    }

    /** The record in hand is the claimed row, possibly with an attempt or a replay that is
        counted but not yet saved. */
    ghost predicate Pending()
      reads this
    {
      && row < |tasks| && trace != []
      && !tasks[row].Terminal()
      && SameClaim(tasks[row], task)
      && task.attempts - tasks[row].attempts <= report.requests - Last().requests
      && task.attempts + task.replays <= tasks[row].attempts + tasks[row].replays + 1
    }

    /** Only the row in hand may have been written. */
    twostate predicate OnlyRow()
      reads this
    {
      && row == old(row) < |tasks| == |old(tasks)|
      && (forall i :: 0 <= i < |tasks| && i != row ==> tasks[i] == old(tasks)[i])
      && RowEvolves(old(tasks)[row], tasks[row], reported)
      && lost.Since(old(lost)).Within(faults - old(faults)) && old(now) <= now && LedgersGrew()
    }

    /** The attempts and replays counted in `t` are in the table or were lost with an update. */
    twostate predicate Kept(t: Task)
      requires row < |tasks|
      reads this
    {
      && tasks[row].attempts + lost.Since(old(lost)).attempts == t.attempts
      && tasks[row].replays + lost.Since(old(lost)).replays == t.replays
    }

    /** The ledgers never forget. */
    twostate predicate LedgersGrew()
      reads this
    {
      old(normalized) <= normalized && old(raw).Keys <= raw.Keys
    }

    /** The provider was asked only for symbols that neither ledger held, and replays were published only
        for symbols that were not normalized and whose raw event is stored. */
    twostate predicate LedgersDecide()
      reads this
    {
      && LedgersGrew() && old(pulls) <= pulls && old(replayed) <= replayed
      && (forall i :: |old(pulls)| <= i < |pulls| ==> pulls[i] !in old(normalized) && pulls[i] !in old(raw))
      && (forall i :: |old(replayed)| <= i < |replayed| ==> replayed[i] !in old(normalized) && replayed[i] in raw)
    }

    /** Besides, the row moved on unless the store failed. */
    twostate predicate Advanced()
      reads this
    {
      && OnlyRow()
      && (Ahead(old(tasks)[row], tasks[row]) || (tasks == old(tasks) && old(faults) < faults))
    }

    // ----- environment steps -----

    method Elapse()
      modifies `now, `normalized, `raw
      ensures old(now) <= now && LedgersGrew()
    {
      var later: int := *;
      var arrivals: set<string> := *;
      var ingested: map<string, string> := *;
      if now < later { now := later; }
      normalized := normalized + arrivals;
      raw := raw + ingested;
    }

    /** The timer fires after the delay, or the context ends first; when both are ready either
        may be seen. */
    method Sleep(delay: int, until: int) returns (fired: bool)
      modifies `now, `normalized, `raw
      ensures old(now) <= now && LedgersGrew()
      ensures fired ==> old(now) + delay <= now
      ensures !fired ==> until <= now
    {
      var began := now;
      Elapse();
      fired := *;
      if fired {
        if now < began + delay { now := began + delay; }
      } else {
        if now < until { now := until; }
      }
    }

    method HasNormalized(symbol: string, until: Option<int>) returns (ok: bool, found: bool)
      requires reported <= normalized
      modifies `now, `normalized, `raw, `reported, `faults
      ensures old(now) <= now && reported <= normalized && LedgersGrew()
      ensures until.Some? && until.value <= old(now) ==> !ok
      ensures ok ==> faults == old(faults) && (found <==> symbol in normalized)
      ensures ok ==> reported == if found then old(reported) + {symbol} else old(reported)
      ensures !ok ==> !found && faults == old(faults) + 1 && reported == old(reported)
    {
      ok := *;
      found := false;
      if until.Some? && until.value <= now { ok := false; }
      Elapse();
      if ok {
        found := symbol in normalized;
        if found { reported := reported + {symbol}; }
      } else {
        faults := faults + 1;
      }
    }

    method FindRaw(symbol: string) returns (r: RawLookup)
      modifies `now, `normalized, `raw, `faults
      ensures old(now) <= now && LedgersGrew()
      ensures r.RawFailed? ==> faults == old(faults) + 1
      ensures !r.RawFailed? ==> faults == old(faults)
      ensures r.RawMissing? ==> symbol !in raw
      ensures r.RawFound? ==> symbol in raw && r.eventId == raw[symbol]
    {
      Elapse();
      var ok: bool := *;
      if !ok {
        faults := faults + 1;
        return RawFailed;
      }
      r := if symbol in raw then RawFound(raw[symbol]) else RawMissing;
    }

    /** The write itself, which every observer of the store sees. */
    method WriteRow()
      requires Valid() && Pending()
      requires RowEvolves(tasks[row], task, reported)
      modifies `tasks, `trace
      ensures Valid() && tasks == old(tasks)[row := task]
    {
      ghost var after := Snapshot(tasks[row := task], reported, report.requests);
      RowWriteEvolves(budget, Last(), row, task, after);
      ChainExtend(budget, trace, after);
      tasks, trace := tasks[row := task], trace + [after];
    }

    /** Writes the record in hand; a failed call may or may not have reached the table. */
    method UpdateTask() returns (ok: bool, ghost reached: bool)
      requires Valid() && Pending()
      requires RowEvolves(tasks[row], task, reported)
      modifies `now, `normalized, `raw, `tasks, `trace, `faults, `lost
      ensures Valid() && old(now) <= now && LedgersGrew()
      ensures faults == old(faults) + if ok then 0 else 1
      ensures if reached then tasks == old(tasks)[row := task] else !ok && tasks == old(tasks)
      ensures lost == if reached then old(lost) else Lost(old(lost), tasks[row], task)
    {
      Elapse();
      ok := *;
      var applied: bool := *;
      reached := ok || applied;
      if ok || applied {
        WriteRow();
      } else {
        lost := Lost(lost, tasks[row], task);
      }
      if !ok { faults := faults + 1; }
    }

    /** The record did not reach its row in the table. */
    ghost function Lost(before: Losses, inTable: Task, record: Task): Losses {
      Losses(before.updates + 1, before.attempts + record.attempts - inTable.attempts,
             before.replays + record.replays - inTable.replays)
    }

    // ----- closing, rescheduling and awaiting a task -----

    method SucceedTask() returns (ok: bool)
      requires Valid() && Pending() && task.symbol in reported
      modifies `now, `normalized, `raw, `tasks, `trace, `faults, `lost, `task
      ensures Valid() && Advanced() && Closed(old(task), task, Succeeded, Blank) && task.completedAt == Some(old(now))
      ensures Kept(old(task)) && (tasks[row] == task || tasks == old(tasks))
      ensures ok <==> faults == old(faults)
    {
      task := task.(status := Succeeded, completedAt := Some(now), lease := None, nextAttemptAt := now,
                    lastError := Blank);
      ghost var reached;
      ok, reached := UpdateTask();
    }

    method FailTask(message: Note)
      requires Valid() && Pending()
      modifies `now, `normalized, `raw, `tasks, `trace, `faults, `lost, `task
      ensures Valid() && Advanced() && Closed(old(task), task, Failed, message) && task.completedAt == Some(old(now))
      ensures Kept(old(task)) && (tasks[row] == task || tasks == old(tasks))
    {
      task := task.(status := Failed, completedAt := Some(now), lease := None, nextAttemptAt := now,
                    lastError := message);
      var _, _ := UpdateTask();
    }

    /** The record as it goes back to the queue after the provider failed. */
    function Rescheduled(t: Task, at: int, backoffs: seq<int>, cause: Note): Task
      requires backoffs != []
    {
      var index := if t.attempts < |backoffs| then t.attempts else |backoffs| - 1;
      t.(status := Queued, nextAttemptAt := at + backoffs[index], lease := None, lastError := cause)
    }

    method RescheduleOrFail(cfg: Config, cause: Note, providerFailure: bool)
      requires Valid() && Pending() && cfg.Normal()
      requires providerFailure ==> Counted(tasks[row], task)
      modifies `now, `normalized, `raw, `tasks, `trace, `faults, `lost, `task
      ensures Valid() && Advanced()
      ensures Kept(old(task)) && (tasks[row] == task || tasks == old(tasks))
      ensures providerFailure && old(task).attempts < old(task).maxAttempts ==>
        task == Rescheduled(old(task), old(now), cfg.backoffs, cause)
      ensures !providerFailure || old(task).maxAttempts <= old(task).attempts ==>
        Closed(old(task), task, Failed, cause)
    {
      if providerFailure && task.attempts < task.maxAttempts {
        var index := task.attempts;
        if index >= |cfg.backoffs| { index := |cfg.backoffs| - 1; }
        task := task.(status := Queued, nextAttemptAt := now + cfg.backoffs[index], lease := None, lastError := cause);
        var _, _ := UpdateTask();
      } else {
        FailTask(cause);
      }
    }

    /** Polls the ledger until it reports the symbol, fails, or the window closes. */
    method PollNormalized(poll: int, until: int) returns (known: bool, found: bool)
      requires reported <= normalized && 0 < poll
      modifies `now, `normalized, `raw, `reported, `faults
      ensures old(now) <= now && reported <= normalized && LedgersGrew()
      ensures known ==> faults == old(faults)
      ensures !known ==> !found && faults == old(faults) + 1
      ensures reported == if found then old(reported) + {task.symbol} else old(reported)
    {
      while true
        invariant reported == old(reported) <= normalized && faults == old(faults)
        invariant old(now) <= now && LedgersGrew()
        decreases until - now
      {
        known, found := HasNormalized(task.symbol, Some(until));
        if found || !known { return; }
        var fired := Sleep(poll, until);
        if !fired { return; }
      }
    }

    method StoreAwaiting(cfg: Config) returns (saved: bool)
      requires Valid() && Pending() && cfg.Normal()
      requires Counted(tasks[row], task)
      modifies `now, `normalized, `raw, `tasks, `trace, `faults, `lost, `task
      ensures Valid() && Advanced() && Kept(old(task)) && (saved <==> faults == old(faults))
      ensures task == old(task).(status := AwaitingNormalization, lease := Some(old(now) + cfg.leaseDuration),
                                 lastError := Blank)
      ensures tasks == old(tasks)[row := task] || (!saved && tasks == old(tasks))
      ensures saved ==> Pending()
    {
      task := task.(status := AwaitingNormalization, lease := Some(now + cfg.leaseDuration), lastError := Blank);
      ghost var reached;
      saved, reached := UpdateTask();
    }

    /** Ends the wait: succeeded if the ledger reported the symbol, queued again if not. */
    method SettleAwaiting(found: bool) returns (ok: bool)
      requires Valid() && Pending() && tasks[row] == task && (found ==> task.symbol in reported)
      modifies `now, `normalized, `raw, `tasks, `trace, `faults, `lost, `task
      ensures Valid() && OnlyRow() && Kept(old(task)) && (ok <==> faults == old(faults))
      ensures tasks[row].attempts == old(task).attempts && tasks[row].replays == old(task).replays
      ensures ok ==> tasks[row] == task
      ensures found ==> Closed(old(task), task, Succeeded, Blank)
      ensures !found ==> BackInQueue(old(task), task)
    {
      if found {
        ok := SucceedTask();
      } else {
        task := task.(status := Queued, nextAttemptAt := now, lease := None, lastError := NotObserved);
        ghost var reached;
        ok, reached := UpdateTask();
      }
    }

    method AwaitNormalization(cfg: Config, deadline: int) returns (ok: bool)
      requires Valid() && Pending() && cfg.Normal()
      requires Counted(tasks[row], task)
      modifies `now, `normalized, `raw, `tasks, `trace, `faults, `lost, `reported, `task
      ensures Valid() && Advanced() && Kept(old(task)) && (ok <==> faults == old(faults))
      ensures tasks != old(tasks) ==>
        tasks[row].attempts == old(task).attempts && tasks[row].replays == old(task).replays
      ensures ok ==> tasks[row] == task
      ensures ok && task.Terminal() ==> Closed(old(task), task, Succeeded, Blank) && task.symbol in reported
      ensures ok && !task.Terminal() ==> BackInQueue(old(task), task)
    {
      ok := StoreAwaiting(cfg);
      if ok {
        ok := AwaitStored(cfg, deadline);
      }
    }

    /** The wait itself, once the row says that it is waiting. */
    method AwaitStored(cfg: Config, deadline: int) returns (ok: bool)
      requires Valid() && Pending() && cfg.Normal() && tasks[row] == task
      modifies `now, `normalized, `raw, `tasks, `trace, `faults, `lost, `reported, `task
      ensures Valid() && OnlyRow() && Kept(old(task)) && (ok <==> faults == old(faults))
      ensures tasks[row].attempts == old(task).attempts && tasks[row].replays == old(task).replays
      ensures ok ==> tasks[row] == task
      ensures ok && task.Terminal() ==> Closed(old(task), task, Succeeded, Blank) && task.symbol in reported
      ensures ok && !task.Terminal() ==> BackInQueue(old(task), task)
    {
      var until := now + cfg.backoffs[0];
      if deadline < until { until := deadline; }
      var known, found := PollNormalized(cfg.poll, until);
      ok := known;
      if known {
        ok := SettleAwaiting(found);
      }
    }

    // ----- one claimed task -----

    /** At most one replay, of this symbol, reached the broker; what was not acknowledged is counted apart. */
    twostate predicate Replays(symbol: string, sent: bool)
      reads this
    {
      && (replayed == old(replayed) || replayed == old(replayed) + [symbol])
      && |replayed| - |old(replayed)| == (if sent then 1 else 0) + unacknowledged - old(unacknowledged)
      && old(unacknowledged) <= unacknowledged
    }

    /** A publication that reports an error may have reached the broker. */
    method PublishReplay(symbol: string) returns (ok: bool, ghost appended: bool)
      modifies `now, `normalized, `raw, `replayed, `unacknowledged
      ensures old(now) <= now && LedgersGrew() && (ok ==> appended)
      ensures replayed == if appended then old(replayed) + [symbol] else old(replayed)
      ensures unacknowledged == old(unacknowledged) + if appended && !ok then 1 else 0
    {
      Elapse();
      ok := *;
      var reached: bool := *;
      appended := ok || reached;
      if ok || reached { replayed := replayed + [symbol]; }
      if appended && !ok { unacknowledged := unacknowledged + 1; }
    }

    /** One provider call for one symbol; success means exactly one event was published. */
    method Pull(symbol: string) returns (ok: bool)
      modifies `now, `normalized, `raw, `pulls
      ensures old(now) <= now && LedgersGrew()
      ensures pulls == old(pulls) + [symbol]
    {
      pulls := pulls + [symbol];
      Elapse();
      ok := *;
    }

    /** The replay was published: count it and wait for its effect. */
    method AwaitReplayed(cfg: Config, deadline: int) returns (failed: bool)
      requires Valid() && Pending() && cfg.Normal() && task.replays == 0 && tasks[row].attempts == task.attempts
      modifies `now, `normalized, `raw, `tasks, `trace, `faults, `lost, `reported, `task, `report
      ensures Valid() && Advanced()
      ensures report == old(report).(rawReplays := old(report).rawReplays + 1)
      ensures ReplayOutcome(old(task), old(task).rawEventId, tasks[row], true, failed, faults - old(faults),
        lost.Since(old(lost)))
    {
      task := task.(replays := 1);
      report := report.(rawReplays := report.rawReplays + 1);
      var ok := AwaitNormalization(cfg, deadline);
      failed := !ok;
    }

    /** The raw event is there: replay it, but only once. */
    method ReplayTask(cfg: Config, deadline: int, eventId: string) returns (sent: bool, failed: bool)
      requires Valid() && Pending() && cfg.Normal() && task == tasks[row]
      modifies `now, `normalized, `raw, `tasks, `trace, `faults, `lost, `reported, `task, `replayed, `unacknowledged,
        `report
      ensures Valid() && Advanced()
      ensures Replays(old(task).symbol, sent)
      ensures report == if sent then old(report).(rawReplays := old(report).rawReplays + 1) else old(report)
      ensures replayed != old(replayed) ==> old(task).replays == 0
      ensures ReplayOutcome(old(task), eventId, tasks[row], sent, failed, faults - old(faults), lost.Since(old(lost)))
    {
      task := task.(rawEventId := eventId);
      sent, failed := false, true;
      if task.replays >= 1 {
        FailTask(ReplayedAlready);
      } else {
        sent, failed := ReplayOnce(cfg, deadline);
      }
    }

    /** The one replay of a row. */
    method ReplayOnce(cfg: Config, deadline: int) returns (sent: bool, failed: bool)
      requires Valid() && Pending() && cfg.Normal() && task.replays == 0 && tasks[row].attempts == task.attempts
      modifies `now, `normalized, `raw, `tasks, `trace, `faults, `lost, `reported, `task, `replayed, `unacknowledged,
        `report
      ensures Valid() && Advanced()
      ensures Replays(old(task).symbol, sent)
      ensures report == if sent then old(report).(rawReplays := old(report).rawReplays + 1) else old(report)
      ensures ReplayOutcome(old(task), old(task).rawEventId, tasks[row], sent, failed, faults - old(faults),
        lost.Since(old(lost)))
    {
      failed := true;
      ghost var appended;
      sent, appended := PublishReplay(task.symbol);
      if sent {
        failed := AwaitReplayed(cfg, deadline);
      } else {
        RescheduleOrFail(cfg, ReplayNotPublished, false);
      }
    }

    /** Nothing is stored for the symbol: ask the provider, within the global budget and the
        attempts of the row. */
    method PullTask(cfg: Config, deadline: int) returns (asked: bool, failed: bool)
      requires Valid() && Pending() && cfg.Normal() && task == tasks[row] && budget == cfg.maxRequests
      modifies `now, `normalized, `raw, `tasks, `trace, `faults, `lost, `reported, `task, `pulls, `report
      ensures Valid() && Advanced()
      ensures pulls == if asked then old(pulls) + [old(task).symbol] else old(pulls)
      ensures report == old(report).(published := report.published, requests := report.requests)
      ensures report.requests == old(report).requests + if asked then 1 else 0
      ensures old(report).published <= report.published <= old(report).published + if asked then 1 else 0
      ensures asked <==> old(report).requests < cfg.maxRequests && old(task).attempts < old(task).maxAttempts
      ensures PullOutcome(old(task), old(report).requests < cfg.maxRequests, tasks[row], asked,
        report.published - old(report).published, failed, faults - old(faults), lost.Since(old(lost)))
    {
      asked, failed := false, true;
      if report.requests >= cfg.maxRequests {
        FailTask(BudgetExhausted);
      } else if task.attempts >= task.maxAttempts {
        FailTask(AttemptsExhausted);
      } else {
        asked := true;
        task := task.(attempts := task.attempts + 1);
        report := report.(requests := report.requests + 1);
        failed := PullOnce(cfg, deadline);
      }
    }

    /** Notes the raw event the pull left behind, if the ledger shows it. */
    method LinkRaw()
      requires Valid() && Pending()
      modifies `now, `normalized, `raw, `faults, `task
      ensures Valid() && Pending() && old(now) <= now && old(faults) <= faults && LedgersGrew()
      ensures task == old(task).(rawEventId := task.rawEventId)
      ensures task.rawEventId == old(task).rawEventId || (task.symbol in raw && task.rawEventId == raw[task.symbol])
    {
      var lookup := FindRaw(task.symbol);
      if lookup.RawFound? {
        task := task.(rawEventId := lookup.eventId);
      }
    }

    /** The provider call itself, already counted in the record and in the report. */
    method PullOnce(cfg: Config, deadline: int) returns (failed: bool)
      requires Valid() && Pending() && cfg.Normal()
      requires Counted(tasks[row], task)
      modifies `now, `normalized, `raw, `tasks, `trace, `faults, `lost, `reported, `task, `pulls, `report
      ensures Valid() && Advanced()
      ensures pulls == old(pulls) + [old(task).symbol]
      ensures report == old(report).(published := report.published)
      ensures old(report).published <= report.published <= old(report).published + 1
      ensures Kept(old(task))
      ensures PullResult(old(task), tasks[row], report.published - old(report).published, failed, faults - old(faults))
        || tasks == old(tasks)
    {
      var pulled := Pull(task.symbol);
      failed := true;
      if !pulled {
        RescheduleOrFail(cfg, PullFailed, true);
      } else {
        failed := AwaitPulled(cfg, deadline);
      }
    }

    /** The provider's event was published: count it, link it and wait for its effect. */
    method AwaitPulled(cfg: Config, deadline: int) returns (failed: bool)
      requires Valid() && Pending() && cfg.Normal()
      requires Counted(tasks[row], task)
      modifies `now, `normalized, `raw, `tasks, `trace, `faults, `lost, `reported, `task, `report
      ensures Valid() && Advanced()
      ensures report == old(report).(published := old(report).published + 1)
      ensures Kept(old(task))
      ensures PullResult(old(task), tasks[row], 1, failed, faults - old(faults)) || tasks == old(tasks)
    {
      report := report.(published := report.published + 1);
      LinkRaw();
      var ok := AwaitNormalization(cfg, deadline);
      failed := !ok;
    }

    /** Asks the ledgers about the claimed symbol: normalized first, then raw. */
    method LookUp(deadline: int) returns (seen: Seen)
      requires reported <= normalized
      modifies `now, `normalized, `raw, `faults, `reported
      ensures old(now) <= now && reported <= normalized && LedgersGrew()
      ensures seen.AlreadyNormalized? ==> task.symbol in normalized
      ensures seen.RawPresent? || seen.NothingStored? ==> task.symbol !in old(normalized)
      ensures seen.RawPresent? ==> task.symbol in raw && seen.eventId == raw[task.symbol]
      ensures seen.NothingStored? ==> task.symbol !in old(raw)
      ensures faults == old(faults) + if seen.LedgerFailed? || seen.RawLookupFailed? then 1 else 0
      ensures reported == if seen.AlreadyNormalized? then old(reported) + {task.symbol} else old(reported)
    {
      var known, found := HasNormalized(task.symbol, Some(deadline));
      if !known {
        seen := LedgerFailed;
      } else if found {
        seen := AlreadyNormalized;
      } else {
        var lookup := FindRaw(task.symbol);
        seen := match lookup
          case RawFailed => RawLookupFailed
          case RawFound(eventId) => RawPresent(eventId)
          case RawMissing => NothingStored;
      }
    }

    /** A claimed task: a normalized row short-circuits everything, a stored raw event is replayed
        instead of asking the provider, and only then is the provider asked. */
    method ProcessTask(cfg: Config, deadline: int) returns (seen: Seen, sent: bool, asked: bool, failed: bool)
      requires Valid() && Pending() && cfg.Normal() && task == tasks[row] && budget == cfg.maxRequests
      modifies `now, `normalized, `raw, `tasks, `trace, `faults, `lost, `reported, `task, `pulls, `replayed,
        `unacknowledged, `report
      ensures Valid() && Advanced()
      ensures pulls == if asked then old(pulls) + [old(task).symbol] else old(pulls)
      ensures Replays(old(task).symbol, sent)
      ensures report.requests == old(report).requests + if asked then 1 else 0
      ensures report.rawReplays == old(report).rawReplays + if sent then 1 else 0
      ensures report == old(report).(requests := report.requests, published := report.published,
        rawReplays := report.rawReplays)
      ensures old(report).published <= report.published <= old(report).published + if asked then 1 else 0
      ensures (asked ==> seen.NothingStored?) && (replayed != old(replayed) ==> seen.RawPresent?)
      ensures seen.AlreadyNormalized? ==> old(task).symbol in normalized
      ensures seen.RawPresent? || seen.NothingStored? ==> old(task).symbol !in old(normalized)
      ensures seen.RawPresent? ==> old(task).symbol in raw
      ensures seen.NothingStored? ==> old(task).symbol !in old(raw)
      ensures TaskOutcome(seen, old(task), old(report).requests < cfg.maxRequests, tasks[row], sent, asked,
        report.published - old(report).published, failed, faults - old(faults), lost.Since(old(lost)))
    {
      seen := LookUp(deadline);
      sent, asked, failed := Decide(cfg, deadline, seen);
    }

    /** What is done once the ledgers have answered. */
    method Decide(cfg: Config, deadline: int, seen: Seen) returns (sent: bool, asked: bool, failed: bool)
      requires Valid() && Pending() && cfg.Normal() && task == tasks[row] && budget == cfg.maxRequests
      requires seen.AlreadyNormalized? ==> task.symbol in reported
      modifies `now, `normalized, `raw, `tasks, `trace, `faults, `lost, `reported, `task, `pulls, `replayed,
        `unacknowledged, `report
      ensures Valid() && OnlyRow()
      ensures seen.LedgerFailed? || seen.RawLookupFailed? || Advanced()
      ensures pulls == if asked then old(pulls) + [old(task).symbol] else old(pulls)
      ensures Replays(old(task).symbol, sent)
      ensures report.requests == old(report).requests + if asked then 1 else 0
      ensures report.rawReplays == old(report).rawReplays + if sent then 1 else 0
      ensures report == old(report).(requests := report.requests, published := report.published,
        rawReplays := report.rawReplays)
      ensures old(report).published <= report.published <= old(report).published + if asked then 1 else 0
      ensures (asked ==> seen.NothingStored?) && (replayed != old(replayed) ==> seen.RawPresent?)
      ensures TaskOutcome(seen, old(task), old(report).requests < cfg.maxRequests, tasks[row], sent, asked,
        report.published - old(report).published, failed, faults - old(faults), lost.Since(old(lost)))
    {
      sent, asked, failed := false, false, true;
      match seen
      case AlreadyNormalized =>
        var ok := SucceedTask();
        failed := !ok;
      case RawPresent(eventId) =>
        sent, failed := ReplayTask(cfg, deadline, eventId);
      case NothingStored =>
        asked, failed := PullTask(cfg, deadline);
      case LedgerFailed | RawLookupFailed =>
    }

    // ----- the claim loop -----

    /** Puts back every row whose lease has expired. */
    method RecoverLeases(at: int)
      requires Valid()
      modifies `tasks, `trace
      ensures Valid() && tasks == Recover(old(tasks), at)
    {
      ghost var after := Snapshot(Recover(tasks, at), reported, report.requests);
      RecoverEvolves(budget, Last(), at, after);
      ChainExtend(budget, trace, after);
      tasks, trace := Recover(tasks, at), trace + [after];
    }

    /** The due row of least rank, if any row is due. */
    method NextDue(at: int) returns (found: bool, next: nat)
      ensures !found ==> forall i :: 0 <= i < |tasks| ==> !Due(tasks[i], at)
      ensures found ==> next < |tasks| && Due(tasks[next], at)
      ensures found ==> forall i :: 0 <= i < |tasks| && Due(tasks[i], at) ==> tasks[next].rank <= tasks[i].rank
    {
      found, next := false, 0;
      for i := 0 to |tasks|
        invariant !found ==> forall j :: 0 <= j < i ==> !Due(tasks[j], at)
        invariant found ==> next < i && Due(tasks[next], at)
        invariant found ==> forall j :: 0 <= j < i && Due(tasks[j], at) ==> tasks[next].rank <= tasks[j].rank
      {
        if Due(tasks[i], at) && (!found || tasks[i].rank < tasks[next].rank) {
          found, next := true, i;
        }
      }
    }

    method LeaseRow(next: nat, at: int, leaseDuration: int)
      requires Valid() && next < |tasks| && Due(tasks[next], at)
      modifies `tasks, `trace, `task, `row
      ensures Valid() && Pending() && row == next && task == tasks[row]
      ensures tasks == old(tasks)[next := ClaimRow(old(tasks)[next], at, leaseDuration)]
    {
      row, task := next, ClaimRow(tasks[next], at, leaseDuration);
      ghost var after := Snapshot(tasks[row := task], reported, report.requests);
      RowWriteEvolves(budget, Last(), row, task, after);
      ChainExtend(budget, trace, after);
      tasks, trace := tasks[row := task], trace + [after];
    }

    /** Leases are recovered and the due row of least rank is leased, both at time `at`.  A call that fails
        may have done the one or both. */
    method ClaimNext(cfg: Config, deadline: int) returns (claim: Claim, at: int)
      requires Valid() && cfg.Normal()
      modifies `now, `normalized, `raw, `tasks, `trace, `faults, `task, `row
      ensures Valid() && old(now) <= at <= now && LedgersGrew()
      ensures faults == old(faults) + if claim.ClaimFailed? then 1 else 0
      ensures ClaimTried(old(tasks), tasks, row, at, cfg.leaseDuration, deadline)
      ensures claim.NothingDue? ==>
        tasks == Recover(old(tasks), at) && forall i :: 0 <= i < |tasks| ==> !Due(tasks[i], at)
      ensures !claim.ClaimFailed? ==> at < deadline
      ensures claim.Claimed? ==>
        Pending() && task == tasks[row] && IsClaim(old(tasks), tasks, row, at, cfg.leaseDuration)
    {
      Elapse();
      at := now;
      claim := ClaimFailed;
      var reached: bool, answered: bool := *, *;
      if reached && at < deadline {
        RecoverLeases(at);
        var carriedOn: bool := *;
        if answered || carriedOn {
          var found, next := NextDue(at);
          if found {
            LeaseRow(next, at, cfg.leaseDuration);
          }
          claim := if !answered then ClaimFailed else if found then Claimed else NothingDue;
        }
      }
      if claim.ClaimFailed? {
        faults := faults + 1;
      }
    }

    /** A claimed row of an active asset is processed, and a failure noted. */
    method HandleActive(cfg: Config, deadline: int) returns (seen: Seen, sent: bool, asked: bool, failed: bool)
      requires Valid() && Pending() && cfg.Normal() && task == tasks[row] && budget == cfg.maxRequests
      modifies `now, `normalized, `raw, `tasks, `trace, `faults, `lost, `reported, `task, `pulls, `replayed,
        `unacknowledged, `report
      ensures Valid() && Advanced() && LedgersDecide()
      ensures pulls == if asked then old(pulls) + [old(task).symbol] else old(pulls)
      ensures Replays(old(task).symbol, sent)
      ensures TaskOutcome(seen, old(task), old(report).requests < cfg.maxRequests, tasks[row], sent, asked,
        report.published - old(report).published, failed, faults - old(faults), lost.Since(old(lost)))
      ensures Handled(old(report), report, old(task).symbol, 0, sent, asked, failed)
      ensures Tally(tasks[row].attempts - old(task).attempts, if asked then 1 else 0, lost.Since(old(lost)).attempts)
      ensures Tally(tasks[row].replays - old(task).replays, if sent then 1 else 0, lost.Since(old(lost)).replays)
    {
      var symbol := task.symbol;
      seen, sent, asked, failed := ProcessTask(cfg, deadline);
      OutcomeTallies(seen, old(task), old(report).requests < cfg.maxRequests, tasks[row], sent, asked,
        report.published - old(report).published, failed, faults - old(faults), lost.Since(old(lost)));
      if failed {
        report := report.(failures := AppendBounded(report.failures, symbol, MAX_FAILURES));
      }
    }

    /** What the loop does with a row it has just claimed. */
    method HandleClaim(cfg: Config, deadline: int, active: set<string>) returns (sent: bool, asked: bool, failed: bool)
      requires Valid() && Pending() && cfg.Normal() && task == tasks[row] && budget == cfg.maxRequests
      modifies `now, `normalized, `raw, `tasks, `trace, `faults, `lost, `reported, `task, `pulls, `replayed,
        `unacknowledged, `report
      ensures Valid() && Advanced() && LedgersDecide()
      ensures pulls == if asked then old(pulls) + [old(task).symbol] else old(pulls)
      ensures Replays(old(task).symbol, sent)
      ensures old(task).symbol !in active ==> !sent && !asked && !failed
      ensures old(task).symbol !in active && faults == old(faults) ==> Closed(old(task), tasks[row], Failed, NotActive)
      ensures Handled(old(report), report, old(task).symbol, 1, sent, asked, failed)
      ensures Tally(tasks[row].attempts - old(task).attempts, if asked then 1 else 0, lost.Since(old(lost)).attempts)
      ensures Tally(tasks[row].replays - old(task).replays, if sent then 1 else 0, lost.Since(old(lost)).replays)
    {
      report := report.(claimed := report.claimed + 1);
      sent, asked, failed := HandleCounted(cfg, deadline, active);
    }

    /** The row, once its claim is counted. */
    method HandleCounted(cfg: Config, deadline: int, active: set<string>)
      returns (sent: bool, asked: bool, failed: bool)
      requires Valid() && Pending() && cfg.Normal() && task == tasks[row] && budget == cfg.maxRequests
      modifies `now, `normalized, `raw, `tasks, `trace, `faults, `lost, `reported, `task, `pulls, `replayed,
        `unacknowledged, `report
      ensures Valid() && Advanced() && LedgersDecide()
      ensures pulls == if asked then old(pulls) + [old(task).symbol] else old(pulls)
      ensures Replays(old(task).symbol, sent)
      ensures old(task).symbol !in active ==> !sent && !asked && !failed
      ensures old(task).symbol !in active && faults == old(faults) ==> Closed(old(task), tasks[row], Failed, NotActive)
      ensures Handled(old(report), report, old(task).symbol, 0, sent, asked, failed)
      ensures Tally(tasks[row].attempts - old(task).attempts, if asked then 1 else 0, lost.Since(old(lost)).attempts)
      ensures Tally(tasks[row].replays - old(task).replays, if sent then 1 else 0, lost.Since(old(lost)).replays)
    {
      sent, asked, failed := false, false, false;
      if task.symbol !in active {
        FailTask(NotActive);
      } else {
        var _, published, requested, failure := HandleActive(cfg, deadline);
        sent, asked, failed := published, requested, failure;
      }
    }

    /** Nothing was due: stop if every row is closed, otherwise sleep. */
    method Idle(cfg: Config, deadline: int) returns (next: Progress)
      requires cfg.Normal()
      modifies `now, `normalized, `raw, `faults
      ensures old(now) <= now && LedgersGrew() && old(faults) <= faults
      ensures next.Broken? ==> old(faults) < faults
      ensures next.Continue? ==> old(now) < now
      ensures next.Drained? ==> forall t :: t in tasks ==> t.Terminal()
      ensures next.TimedOut? ==> deadline <= now
    {
      var listed: bool := *;
      if !listed {
        faults := faults + 1;
        next := Broken;
      } else {
        var wait, active := NextReconciliationWait(tasks, now, cfg.poll);
        if !active {
          next := Drained;
        } else {
          var fired := Sleep(wait, deadline);
          next := if fired then Continue else TimedOut;
        }
      }
    }

    /** The turn that claimed a row at time `at`, begun with the sheet `before`. */
    method ClaimedTurn(cfg: Config, deadline: int, active: set<string>, ghost before: Sheet, ghost at: int)
      requires Valid() && Pending() && cfg.Normal() && task == tasks[row] && budget == cfg.maxRequests
      requires IsClaim(before.tasks, tasks, row, at, cfg.leaseDuration) && at < deadline
      requires Account() == before.(tasks := tasks)
      modifies `now, `normalized, `raw, `tasks, `trace, `faults, `lost, `reported, `task, `pulls, `replayed,
        `unacknowledged, `report
      ensures Valid() && old(now) <= now && old(faults) <= faults && LedgersDecide()
      ensures Balances(before, Account())
      ensures Lowered(before.tasks, tasks, deadline)
    {
      ghost var claimed := Account();
      var sent, asked, failed := HandleClaim(cfg, deadline, active);
      ClaimedTurnBalances(before.tasks, claimed, Account(), row, at, cfg.leaseDuration, deadline, reported, sent, asked,
        failed);
      assert claimed.(tasks := before.tasks) == before;
    }

    /** The turn that claimed nothing, of the run that began it with sheet `before`. */
    method Unclaimed(cfg: Config, deadline: int, claim: Claim, ghost at: int, ghost before: Sheet)
      returns (next: Progress)
      requires cfg.Normal() && !claim.Claimed?
      requires Account() == before.(tasks := tasks, faults := before.faults + if claim.ClaimFailed? then 1 else 0)
      requires ClaimTried(before.tasks, tasks, row, at, cfg.leaseDuration, deadline)
      modifies `now, `normalized, `raw, `faults
      ensures old(now) <= now && LedgersGrew() && old(faults) <= faults
      ensures Balances(before, Account()) && NotRaised(before.tasks, tasks, deadline)
      ensures next.Continue? ==> old(now) < now
      ensures next.Drained? ==> forall t :: t in tasks ==> t.Terminal()
      ensures next.TimedOut? ==> deadline <= now
      ensures next.Broken? ==> before.faults < faults
    {
      next := Broken;
      if claim.NothingDue? {
        next := Idle(cfg, deadline);
      }
      UnclaimedTurn(before, Account(), row, at, cfg.leaseDuration, deadline);
    }

    /** One turn of the claim loop.  A turn that continues lowers (work, time left to claim, time
        left) lexicographically, whatever the store and the provider do. */
    method Step(cfg: Config, deadline: int, active: set<string>) returns (next: Progress)
      requires Valid() && cfg.Normal() && budget == cfg.maxRequests
      modifies `now, `normalized, `raw, `tasks, `trace, `faults, `lost, `reported, `task, `row, `pulls, `replayed,
        `unacknowledged, `report
      ensures Valid() && old(now) <= now && old(faults) <= faults && LedgersDecide()
      ensures Balances(old(Account()), Account())
      ensures next.Drained? ==> forall t :: t in tasks ==> t.Terminal()
      ensures next.TimedOut? ==> deadline <= now
      ensures next.Broken? ==> old(faults) < faults
      ensures next.Continue? ==> old(now) < deadline
      ensures next.Continue? ==>
        Lowered(old(tasks), tasks, deadline) || (NotRaised(old(tasks), tasks, deadline) && old(now) < now)
    {
      next := TimedOut;
      if now < deadline {
        next := Turn(cfg, deadline, active);
      } else {
        UnclaimedTurn(Account(), Account(), row, now, cfg.leaseDuration, deadline);
      }
    }

    /** A turn before the deadline: a row is claimed and handled, or there is none. */
    method Turn(cfg: Config, deadline: int, active: set<string>) returns (next: Progress)
      requires Valid() && cfg.Normal() && budget == cfg.maxRequests
      modifies `now, `normalized, `raw, `tasks, `trace, `faults, `lost, `reported, `task, `row, `pulls, `replayed,
        `unacknowledged, `report
      ensures Valid() && old(now) <= now && old(faults) <= faults && LedgersDecide()
      ensures Balances(old(Account()), Account())
      ensures next.Drained? ==> forall t :: t in tasks ==> t.Terminal()
      ensures next.TimedOut? ==> deadline <= now
      ensures next.Broken? ==> old(faults) < faults
      ensures next.Continue? ==>
        Lowered(old(tasks), tasks, deadline) || (NotRaised(old(tasks), tasks, deadline) && old(now) < now)
    {
      ghost var before := Account();
      var claim, at := ClaimNext(cfg, deadline);
      if claim.Claimed? {
        ClaimedTurn(cfg, deadline, active, before, at);
        next := Continue;
      } else {
        next := Unclaimed(cfg, deadline, claim, at, before);
      }
    }

    method ClaimLoop(cfg: Config, active: set<string>) returns (end: Progress)
      requires cfg.Normal() && budget == cfg.maxRequests && reported <= normalized
      requires report.claimed == report.requests == report.rawReplays == 0 && |report.failures| <= MAX_FAILURES
      modifies `now, `normalized, `raw, `tasks, `trace, `start, `faults, `lost, `reported, `task, `row, `pulls,
        `replayed, `unacknowledged, `report
      ensures Valid() && start == Snapshot(old(tasks), old(reported), 0) && old(faults) <= faults
      ensures !end.Continue? && LedgersDecide()
      ensures Balances(old(Account()), Account())
      ensures end.Drained? ==> forall t :: t in tasks ==> t.Terminal()
      ensures end.TimedOut? ==> old(now) + cfg.deadline <= now
      ensures end.Broken? ==> old(faults) < faults
    {
      ghost var begin := Account();
      start, trace := Now(), [Now()];
      var deadline := now + cfg.deadline;
      end := Continue;
      while end.Continue?
        invariant Valid() && start == Snapshot(old(tasks), old(reported), 0)
        invariant old(faults) <= faults && old(now) <= now && LedgersDecide()
        invariant Balances(begin, Account())
        invariant end.Drained? ==> forall t :: t in tasks ==> t.Terminal()
        invariant end.TimedOut? ==> deadline <= now
        invariant end.Broken? ==> old(faults) < faults
        decreases end.Continue?, Sum(tasks, WorkOf), Sum(tasks, WindowOf(deadline)), deadline - now
      {
        SumNonNegative(tasks, WorkOf);
        SumNonNegative(tasks, WindowOf(deadline));
        ghost var before := Account();
        end := Step(cfg, deadline, active);
        BalancesAddUp(begin, before, Account());
      }
    }

    /** Counts the assets that are normalized now. */
    method Sweep(assets: seq<Asset>) returns (ok: bool)
      requires reported <= normalized && report.finalComplete == 0
      modifies `now, `normalized, `raw, `reported, `faults, `report
      ensures reported <= normalized && old(reported) <= reported && old(faults) <= faults && LedgersGrew()
      ensures report == old(report).(finalComplete := report.finalComplete)
      ensures ok ==> CountIn(assets, old(normalized)) <= report.finalComplete <= CountIn(assets, reported)
      ensures !ok ==> old(faults) < faults
    {
      for i := 0 to |assets|
        invariant reported <= normalized && old(reported) <= reported && old(faults) <= faults && LedgersGrew()
        invariant report == old(report).(finalComplete := report.finalComplete)
        invariant CountIn(assets[..i], old(normalized)) <= report.finalComplete <= CountIn(assets[..i], reported)
      {
        ghost var known := reported;
        var answered, found := HasNormalized(assets[i].ticker, None);
        if !answered { return false; }
        assert assets[..i + 1][..i] == assets[..i];
        CountInMonotone(assets[..i], known, reported);
        if found {
          report := report.(finalComplete := report.finalComplete + 1);
        }
      }
      assert assets[..|assets|] == assets;
      ok := true;
    }

    method CountStatuses() returns (counts: map<Status, nat>)
      ensures forall s :: CountOf(counts, s) == CountStatus(tasks, s)
    {
      counts := map[];
      for i := 0 to |tasks|
        invariant forall s :: CountOf(counts, s) == CountStatus(tasks[..i], s)
      {
        assert tasks[..i + 1][..i] == tasks[..i];
        counts := counts[tasks[i].status := CountOf(counts, tasks[i].status) + 1];
      }
      assert tasks[..|tasks|] == tasks;
    }

    /** Adds the row for a symbol, or renews rank and cap of the row it already has; a call that fails may
        have been carried out. */
    method Enqueue(symbol: string, rank: int, maxAttempts: nat, at: int)
      returns (ok: bool, created: bool, ghost applied: bool)
      requires Keyed(tasks)
      modifies `tasks, `faults
      ensures faults == old(faults) + if ok then 0 else 1
      ensures ok ==> applied && (created <==> !HasRow(old(tasks), symbol))
      ensures !ok ==> !created
      ensures !applied ==> tasks == old(tasks)
      ensures applied && !HasRow(old(tasks), symbol) ==> tasks == old(tasks) + [NewRow(symbol, rank, maxAttempts, at)]
      ensures applied && HasRow(old(tasks), symbol) ==>
        exists i :: IsRenewal(old(tasks), tasks, i, symbol, rank, maxAttempts)
      ensures Keyed(tasks) && Enrolled(old(tasks), tasks)
    {
      ok := *;
      var reached: bool := *;
      created, applied := false, ok || reached;
      if ok || reached {
        var i := 0;
        while i < |tasks| && tasks[i].symbol != symbol
          invariant 0 <= i <= |tasks| && forall j :: 0 <= j < i ==> tasks[j].symbol != symbol
        {
          i := i + 1;
        }
        created := ok && i == |tasks|;
        tasks := if i < |tasks| then tasks[i := tasks[i].(rank := rank, maxAttempts := maxAttempts)]
                 else tasks + [NewRow(symbol, rank, maxAttempts, at)];
        assert i < |old(tasks)| ==> IsRenewal(old(tasks), tasks, i, symbol, rank, maxAttempts);
      }
      if !ok { faults := faults + 1; }
    }

    /** A symbol whose raw event is there may be tried at once, any other after the first backoff. */
    method EnqueueMissing(cfg: Config, asset: Asset, began: int, ghost before: seq<Task>, ghost missing: seq<string>)
      returns (stored: bool)
      requires cfg.Normal() && Started(before, tasks, missing, cfg.maxAttempts, false, 0)
      modifies `now, `normalized, `raw, `faults, `report, `tasks
      ensures LedgersGrew() && report == old(report).(enqueued := report.enqueued)
      ensures old(faults) <= faults && (!stored ==> old(faults) < faults)
      ensures stored ==> Started(before, tasks, missing + [asset.ticker], cfg.maxAttempts, false, 0)
      ensures Keyed(tasks) && Enrolled(old(tasks), tasks)
      ensures stored ==> |tasks| == |old(tasks)| + report.enqueued - old(report).enqueued
      ensures |old(tasks)| < |tasks| ==> tasks[|old(tasks)|] == NewRow(asset.ticker, asset.rank, cfg.maxAttempts,
        if asset.ticker in raw then began else began + cfg.backoffs[0])
    {
      var lookup := FindRaw(asset.ticker);
      stored := !lookup.RawFailed?;
      if stored {
        var at := if lookup.RawFound? then began else began + cfg.backoffs[0];
        var created;
        ghost var applied;
        stored, created, applied := Enqueue(asset.ticker, asset.rank, cfg.maxAttempts, at);
        if created { report := report.(enqueued := report.enqueued + 1); }
        if stored {
          EnqueueStarts(before, old(tasks), tasks, missing, cfg.maxAttempts, asset.ticker, asset.rank, at);
        }
      }
    }

    method NoteMissing(cfg: Config, asset: Asset, began: int, ghost before: seq<Task>) returns (stored: bool)
      requires cfg.Normal() && Keyed(tasks)
      requires (!cfg.dryRun ==> Started(before, tasks, report.missing, cfg.maxAttempts, false, 0))
      modifies `now, `normalized, `raw, `faults, `report, `tasks
      ensures LedgersGrew() && old(faults) <= faults && (!stored ==> old(faults) < faults)
      ensures report == old(report).(missing := old(report).missing + [asset.ticker], enqueued := report.enqueued)
      ensures cfg.dryRun ==> stored && tasks == old(tasks)
      ensures stored && !cfg.dryRun ==> Started(before, tasks, report.missing, cfg.maxAttempts, false, 0)
      ensures Keyed(tasks) && Enrolled(old(tasks), tasks)
    {
      report := report.(missing := report.missing + [asset.ticker]);
      stored := true;
      if !cfg.dryRun {
        stored := EnqueueMissing(cfg, asset, began, before, old(report).missing);
      }
    }

    /** Sorts the assets into complete and missing ones and gives every missing one a row. */
    method Discover(cfg: Config, assets: seq<Asset>) returns (ok: bool)
      requires cfg.Normal() && reported <= normalized && Keyed(tasks)
      requires report.initiallyComplete == 0 && report.missing == []
      modifies `now, `normalized, `raw, `reported, `faults, `report, `tasks
      ensures reported <= normalized && old(reported) <= reported && LedgersGrew()
      ensures old(faults) <= faults && (!ok ==> old(faults) < faults)
      ensures report == old(report).(initiallyComplete := report.initiallyComplete, missing := report.missing,
        enqueued := report.enqueued)
      ensures cfg.dryRun ==> tasks == old(tasks)
      ensures Keyed(tasks) && Enrolled(old(tasks), tasks)
      ensures forall s :: s in report.missing ==> s !in old(normalized)
      ensures ok ==> forall a :: a in assets ==> a.ticker in reported || a.ticker in report.missing
      ensures ok ==> report.initiallyComplete + |report.missing| == |assets|
      ensures ok ==> report.initiallyComplete <= CountIn(assets, reported)
      ensures ok && !cfg.dryRun ==> Started(old(tasks), tasks, report.missing, cfg.maxAttempts, false, 0)
    {
      var began := now;
      ok := true;
      var i := 0;
      while ok && i < |assets|
        invariant reported <= normalized && old(reported) <= reported && LedgersGrew()
        invariant old(faults) <= faults && (!ok ==> old(faults) < faults)
        invariant report == old(report).(initiallyComplete := report.initiallyComplete, missing := report.missing,
          enqueued := report.enqueued)
        invariant cfg.dryRun ==> tasks == old(tasks)
        invariant Keyed(tasks) && Enrolled(old(tasks), tasks)
        invariant forall s :: s in report.missing ==> s !in old(normalized)
        invariant 0 <= i <= |assets|
        invariant ok ==> forall j :: 0 <= j < i ==> assets[j].ticker in reported || assets[j].ticker in report.missing
        invariant ok ==> report.initiallyComplete + |report.missing| == i
        invariant ok ==> report.initiallyComplete <= CountIn(assets[..i], reported)
        invariant ok && !cfg.dryRun ==> Started(old(tasks), tasks, report.missing, cfg.maxAttempts, false, 0)
        decreases |assets| - i, ok
      {
        ok := DiscoverAsset(cfg, assets, i, began, old(tasks));
        i := i + 1;
      }
      assert assets[..|assets|] == assets;
    }

    method DiscoverAsset(cfg: Config, assets: seq<Asset>, i: nat, began: int, ghost before: seq<Task>)
      returns (ok: bool)
      requires cfg.Normal() && reported <= normalized && Keyed(tasks) && i < |assets|
      requires !cfg.dryRun ==> Started(before, tasks, report.missing, cfg.maxAttempts, false, 0)
      requires report.initiallyComplete <= CountIn(assets[..i], reported)
      modifies `now, `normalized, `raw, `reported, `faults, `report, `tasks
      ensures reported <= normalized && old(reported) <= reported && LedgersGrew()
      ensures old(faults) <= faults && (!ok ==> old(faults) < faults)
      ensures report == old(report).(initiallyComplete := report.initiallyComplete, missing := report.missing,
        enqueued := report.enqueued)
      ensures cfg.dryRun ==> tasks == old(tasks)
      ensures Keyed(tasks) && Enrolled(old(tasks), tasks)
      ensures report.missing == old(report).missing ||
        (report.missing == old(report).missing + [assets[i].ticker] && assets[i].ticker !in old(normalized))
      ensures ok ==>
        report.initiallyComplete + |report.missing| == old(report).initiallyComplete + |old(report).missing| + 1
      ensures ok ==> assets[i].ticker in reported || assets[i].ticker in report.missing
      ensures ok ==> report.initiallyComplete <= CountIn(assets[..i + 1], reported)
      ensures ok && !cfg.dryRun ==> Started(before, tasks, report.missing, cfg.maxAttempts, false, 0)
    {
      var answered, found := HasNormalized(assets[i].ticker, None);
      ok := answered;
      if answered {
        assert assets[..i + 1][..i] == assets[..i];
        CountInMonotone(assets[..i], old(reported), reported);
        if found {
          report := report.(initiallyComplete := report.initiallyComplete + 1);
        } else {
          ok := NoteMissing(cfg, assets[i], began, before);
        }
      }
    }

    /** Queues the failed rows afresh; a call that fails may have been carried out. */
    method RequeueFailed(at: int) returns (ok: bool, ghost applied: bool)
      modifies `tasks, `report, `faults
      ensures |tasks| == |old(tasks)| && (ok ==> applied) && faults == old(faults) + if ok then 0 else 1
      ensures applied ==> forall i :: 0 <= i < |tasks| ==> tasks[i] == RequeueRow(old(tasks)[i], at)
      ensures !applied ==> tasks == old(tasks)
      ensures report == if ok then old(report).(requeued := CountStatus(old(tasks), Failed)) else old(report)
    {
      ok := *;
      var reached: bool := *;
      applied := ok || reached;
      if ok || reached {
        var counts := CountStatuses();
        if ok { report := report.(requeued := CountOf(counts, Failed)); }
        tasks := seq(|tasks|, i requires 0 <= i < |tasks| reads this`tasks => RequeueRow(tasks[i], at));
      }
      if !ok { faults := faults + 1; }
    }

    /** Everything before the claim loop; `ready` when the loop is to run, and then `at` is when requeued
        rows are due. */
    method Prepare(cfg: Config, universe: seq<Asset>)
      returns (verdict: Verdict, ready: bool, assets: seq<Asset>, ghost at: int)
      requires cfg.Normal() && reported == {} && Keyed(tasks)
      requires report.initiallyComplete == report.finalComplete == 0 && report.missing == []
      modifies `now, `normalized, `raw, `reported, `faults, `report, `tasks
      ensures reported <= normalized && LedgersGrew() && assets == Listed(universe, cfg)
      ensures old(faults) <= faults && (verdict.StoreFailed? ==> old(faults) < faults)
      ensures report.claimed == old(report).claimed && report.requests == old(report).requests
      ensures report.rawReplays == old(report).rawReplays && report.failures == old(report).failures
      ensures report.published == old(report).published
      ensures !cfg.dryRun && !cfg.acknowledgeWrites <==> verdict.WritesNotAcknowledged?
      ensures verdict.WritesNotAcknowledged? || cfg.dryRun ==> !ready && tasks == old(tasks)
      ensures !cfg.dryRun ==> (ready <==> verdict.NoError?)
      ensures cfg.dryRun && verdict.NoError? ==> report.finalComplete == report.initiallyComplete
      ensures ready ==> report.finalComplete == 0 && report.initiallyComplete <= CountIn(assets, reported)
      ensures Keyed(tasks) && SucceededEvolve(old(tasks), tasks, normalized)
      ensures ready ==> forall s :: s in report.missing ==> s !in old(normalized)
      ensures ready ==> forall a :: a in assets ==> a.ticker in reported || a.ticker in report.missing
      ensures ready ==> old(now) + cfg.backoffs[0] <= at
      ensures ready ==> Started(old(tasks), tasks, report.missing, cfg.maxAttempts, cfg.requeueFailed, at)
    {
      verdict, ready, assets, at := WritesNotAcknowledged, false, Listed(universe, cfg), 0;
      if cfg.dryRun || cfg.acknowledgeWrites {
        verdict := StoreFailed;
        Elapse();
        var listed: bool := *;
        if listed {
          report := report.(universe := |assets|);
          verdict := EmptyUniverse;
          if assets != [] {
            verdict, ready, at := Enroll(cfg, assets);
          }
        } else {
          faults := faults + 1;
        }
      }
    }

    method Enroll(cfg: Config, assets: seq<Asset>) returns (verdict: Verdict, ready: bool, ghost at: int)
      requires cfg.Normal() && reported <= normalized && Keyed(tasks)
      requires report.initiallyComplete == report.finalComplete == 0 && report.missing == []
      modifies `now, `normalized, `raw, `reported, `faults, `report, `tasks
      ensures reported <= normalized && LedgersGrew() && (verdict.NoError? || verdict.StoreFailed?)
      ensures old(faults) <= faults && (verdict.StoreFailed? ==> old(faults) < faults)
      ensures report.claimed == old(report).claimed && report.requests == old(report).requests
      ensures report.rawReplays == old(report).rawReplays && report.failures == old(report).failures
      ensures report.published == old(report).published
      ensures cfg.dryRun ==> !ready && tasks == old(tasks)
      ensures !cfg.dryRun ==> (ready <==> verdict.NoError?)
      ensures cfg.dryRun && verdict.NoError? ==> report.finalComplete == report.initiallyComplete
      ensures ready ==> report.finalComplete == 0 && report.initiallyComplete <= CountIn(assets, reported)
      ensures Keyed(tasks) && SucceededEvolve(old(tasks), tasks, normalized)
      ensures ready ==> forall s :: s in report.missing ==> s !in old(normalized)
      ensures ready ==> forall a :: a in assets ==> a.ticker in reported || a.ticker in report.missing
      ensures at == old(now) + cfg.backoffs[0]
      ensures ready ==> Started(old(tasks), tasks, report.missing, cfg.maxAttempts, cfg.requeueFailed, at)
    {
      var began := now;
      at := began + cfg.backoffs[0];
      var discovered := Discover(cfg, assets);
      EnrolmentSucceeds(old(tasks), tasks, normalized);
      ready := discovered && !cfg.dryRun;
      verdict := if discovered then NoError else StoreFailed;
      if discovered && cfg.dryRun {
        report := report.(finalComplete := report.initiallyComplete);
      }
      if ready {
        StartedAnyTime(old(tasks), tasks, report.missing, cfg.maxAttempts, at);
      }
      if ready && cfg.requeueFailed {
        ready := Requeue(cfg, began + cfg.backoffs[0], old(tasks));
        verdict := if ready then NoError else StoreFailed;
      }
    }

    method Requeue(cfg: Config, at: int, ghost before: seq<Task>) returns (ok: bool)
      requires cfg.Normal() && Started(before, tasks, report.missing, cfg.maxAttempts, false, 0)
      requires SucceededEvolve(before, tasks, normalized)
      modifies `tasks, `report, `faults
      ensures report == old(report).(requeued := report.requeued) && faults == old(faults) + if ok then 0 else 1
      ensures Keyed(tasks) && SucceededEvolve(before, tasks, normalized)
      ensures ok ==> Started(before, tasks, report.missing, cfg.maxAttempts, true, at)
    {
      ghost var applied;
      ok, applied := RequeueFailed(at);
      if applied {
        RequeueStarts(before, old(tasks), tasks, report.missing, cfg.maxAttempts, 0, at);
        RequeueSucceeds(old(tasks), tasks, at, normalized);
        SucceededTransitive(before, old(tasks), tasks, normalized, normalized);
      }
    }

    // ----- a whole run; `looped` tells whether it came to the claim loop -----

    /** A dry run and a run that may not write leave everything alone. */
    twostate predicate Guarded(cfg: Config, verdict: Verdict, looped: bool)
      reads this
    {
      && Keyed(tasks) && LedgersDecide()
      && (!cfg.dryRun && !cfg.acknowledgeWrites ==> verdict.WritesNotAcknowledged?)
      && (verdict.WritesNotAcknowledged? || cfg.dryRun ==> !looped && tasks == old(tasks))
      && (cfg.dryRun && verdict.NoError? ==> report.finalComplete == report.initiallyComplete)
      && (!looped ==> pulls == old(pulls) && replayed == old(replayed))
      && (verdict.StoreFailed? ==> 0 < faults)
    }

    /** The table the loop began with, requeued rows due at `at`, and the cap of every row in every state
        of the loop. */
    twostate predicate Began(cfg: Config, at: int)
      reads this
    {
      && Valid() && budget == cfg.maxRequests && cfg.Normal() && old(now) + cfg.backoffs[0] <= at
      && Started(old(tasks), start.tasks, report.missing, cfg.maxAttempts, cfg.requeueFailed, at)
      && (forall s :: s in report.missing ==> s !in old(normalized))
      && CapsKnown(old(tasks), trace, report.missing, cfg.maxAttempts, cfg.requeueFailed)
    }

    /** The books, and the counters against the logs. */
    twostate predicate Balanced()
      reads this
    {
      && Books(start.tasks, tasks, report.claimed, report.requests, report.rawReplays, faults, lost)
      && report.requests == |pulls| - |old(pulls)|
      && report.rawReplays + unacknowledged == |replayed| - |old(replayed)|
      && 0 <= report.published <= report.requests <= budget
    }

    /** Succeeded rows are kept, and counted once the run comes to its end. */
    twostate predicate Completed(cfg: Config, universe: seq<Asset>, verdict: Verdict, looped: bool)
      reads this
    {
      && SucceededEvolve(old(tasks), tasks, normalized)
      && (SucceededKnown(old(tasks), old(normalized)) ==> SucceededKnown(tasks, normalized))
      && (looped && !verdict.StoreFailed? ==>
            && report.initiallyComplete <= report.finalComplete
            && (SucceededKnown(old(tasks), old(normalized)) ==>
                  CountIn(Listed(universe, cfg), SucceededSymbols(tasks)) <= report.finalComplete)
            && forall s :: CountOf(report.statusCounts, s) == CountStatus(tasks, s))
      && (!cfg.dryRun && verdict.NoError? ==>
            looped && forall a :: a in Listed(universe, cfg) ==> a.ticker in normalized)
    }

    method Run(given: Config, universe: seq<Asset>) returns (verdict: Verdict, looped: bool, ghost at: int)
      requires Keyed(tasks)
      modifies this
      ensures Guarded(Normalize(given), verdict, looped)
      ensures looped ==> Began(Normalize(given), at) && Balanced()
      ensures Completed(Normalize(given), universe, verdict, looped)
    {
      var cfg := Normalize(given);
      reported, faults, lost, unacknowledged, budget := {}, 0, NOTHING_LOST, 0, cfg.maxRequests;
      report := Report(0, 0, [], 0, 0, 0, 0, 0, 0, 0, map[], [], false);
      verdict, looped, at := RunNormal(cfg, universe);
    }

    /** The run with complete settings and an empty report. */
    method RunNormal(cfg: Config, universe: seq<Asset>) returns (verdict: Verdict, looped: bool, ghost at: int)
      requires Keyed(tasks) && cfg.Normal() && reported == {} && budget == cfg.maxRequests
      requires faults == unacknowledged == 0 && lost == NOTHING_LOST
      requires report == Report(0, 0, [], 0, 0, 0, 0, 0, 0, 0, map[], [], false)
      modifies this
      ensures Guarded(cfg, verdict, looped)
      ensures looped ==> Began(cfg, at) && Balanced()
      ensures Completed(cfg, universe, verdict, looped)
    {
      var assets;
      verdict, looped, assets, at := Prepare(cfg, universe);
      ghost var begin, ledger := tasks, normalized;
      PreparedKnown(old(tasks), begin, old(normalized), ledger);
      if looped {
        verdict := LoopAndSweep(cfg, assets);
        SucceededTransitive(old(tasks), begin, tasks, ledger, normalized);
        CapsOfTrace(old(tasks), budget, trace, report.missing, cfg.maxAttempts, cfg.requeueFailed, at);
        PreparedKnown(old(tasks), tasks, old(normalized), normalized);
      }
    }

    /** The claim loop over the listed assets. */
    method Loop(cfg: Config, assets: seq<Asset>) returns (end: Progress)
      requires cfg.Normal() && budget == cfg.maxRequests && reported <= normalized && Keyed(tasks)
      requires report.claimed == report.requests == report.rawReplays == report.finalComplete == 0
      requires report.failures == [] && lost == NOTHING_LOST && unacknowledged == 0
      requires report.initiallyComplete <= CountIn(assets, reported) && report.published == 0
      modifies `now, `normalized, `raw, `tasks, `trace, `start, `faults, `lost, `reported, `task, `row, `pulls,
        `replayed,
        `unacknowledged, `report
      ensures Valid() && start.tasks == old(tasks) && LedgersDecide()
      ensures Keyed(tasks) && SucceededEvolve(old(tasks), tasks, normalized)
      ensures Balanced() && report.missing == old(report).missing
      ensures report.initiallyComplete == old(report).initiallyComplete <= CountIn(assets, reported)
      ensures report.finalComplete == 0 && (report.deadlineReached <==> end.TimedOut?)
      ensures end.Broken? ==> 0 < faults
    {
      var active := set a | a in assets :: a.ticker;
      end := ClaimLoop(cfg, active);
      StartIsReported(assets);
      LoopSucceeds(budget, trace, normalized);
      LoopKeepsKeys(budget, trace);
      report := report.(deadlineReached := end.TimedOut?);
    }

    /** The part of a write run after discovery. */
    method LoopAndSweep(cfg: Config, assets: seq<Asset>) returns (verdict: Verdict)
      requires cfg.Normal() && budget == cfg.maxRequests && reported <= normalized && Keyed(tasks)
      requires report.claimed == report.requests == report.rawReplays == report.finalComplete == 0
      requires report.failures == [] && lost == NOTHING_LOST && unacknowledged == 0
      requires report.initiallyComplete <= CountIn(assets, reported) && report.published == 0
      modifies `now, `normalized, `raw, `tasks, `trace, `start, `faults, `lost, `reported, `task, `row, `pulls,
        `replayed,
        `unacknowledged, `report
      ensures Valid() && start.tasks == old(tasks) && LedgersDecide()
      ensures Keyed(tasks) && SucceededEvolve(old(tasks), tasks, normalized)
      ensures Balanced() && report.missing == old(report).missing
      ensures !verdict.StoreFailed? ==>
        old(report).initiallyComplete == report.initiallyComplete <= report.finalComplete
      ensures !verdict.StoreFailed? && old(SucceededKnown(tasks, normalized)) ==>
        CountIn(assets, SucceededSymbols(tasks)) <= report.finalComplete
      ensures !verdict.StoreFailed? ==> forall s :: CountOf(report.statusCounts, s) == CountStatus(tasks, s)
      ensures !verdict.WritesNotAcknowledged? && (verdict.StoreFailed? ==> 0 < faults)
      ensures verdict.NoError? ==> forall a :: a in assets ==> a.ticker in normalized
      ensures !verdict.StoreFailed? ==> (verdict.DeadlineReached? <==> report.deadlineReached)
    {
      var end := Loop(cfg, assets);
      ghost var ledger := normalized;
      verdict := StoreFailed;
      if !end.Broken? {
        verdict := Conclude(assets);
      }
      SucceededLater(old(tasks), tasks, ledger, normalized);
      if old(SucceededKnown(tasks, normalized)) {
        StaysKnown(old(tasks), tasks, old(normalized), ledger);
        CountInMonotone(assets, SucceededSymbols(tasks), ledger);
      }
    }

    method Conclude(assets: seq<Asset>) returns (verdict: Verdict)
      requires Valid() && report.finalComplete == 0
      modifies `now, `normalized, `raw, `faults, `reported, `report
      ensures Valid() && LedgersGrew() && old(faults) <= faults && (verdict.StoreFailed? ==> old(faults) < faults)
      ensures report == old(report).(statusCounts := report.statusCounts, finalComplete := report.finalComplete)
      ensures verdict.StoreFailed? || verdict.DeadlineReached? || verdict.Incomplete? || verdict.NoError?
      ensures !verdict.StoreFailed? ==> CountIn(assets, old(normalized)) <= report.finalComplete
      ensures !verdict.StoreFailed? ==> CountIn(assets, old(reported)) <= report.finalComplete
      ensures !verdict.StoreFailed? ==> forall s :: CountOf(report.statusCounts, s) == CountStatus(tasks, s)
      ensures !verdict.StoreFailed? ==> (verdict.DeadlineReached? <==> report.deadlineReached)
      ensures verdict.NoError? ==> forall a :: a in assets ==> a.ticker in normalized
    {
      verdict := StoreFailed;
      CountInMonotone(assets, reported, normalized);
      var readable: bool := *;
      if readable {
        var counts := CountStatuses();
        report := report.(statusCounts := counts);
        var swept := Sweep(assets);
        if swept && report.deadlineReached {
          verdict := DeadlineReached;
        } else if swept && report.finalComplete != |assets| {
          verdict := Incomplete;
        } else if swept {
          CountInMonotone(assets, reported, normalized);
          CountInAll(assets, reported);
          verdict := NoError;
        }
      } else {
        faults := faults + 1;
      }
    }

    /** What had been reported when the loop began is still reported at its end. */
    lemma StartIsReported(assets: seq<Asset>)
      requires Valid()
      ensures CountIn(assets, start.reported) <= CountIn(assets, reported)
    {
      if 1 < |trace| {
        ChainEvolves(budget, trace, 0, |trace| - 1);
      }
      CountInMonotone(assets, start.reported, reported);
    }

    /** Any number of runs on the same table, with whatever settings and universes: a row once succeeded
        stays succeeded, and only rows of normalized symbols ever become so. */
    method Operate(runs: seq<(Config, seq<Asset>)>)
      requires Keyed(tasks)
      modifies this
      ensures Keyed(tasks) && LedgersDecide() && SucceededEvolve(old(tasks), tasks, normalized)
      ensures old(SucceededKnown(tasks, normalized)) ==> SucceededKnown(tasks, normalized)
    {
      for i := 0 to |runs|
        invariant Keyed(tasks) && LedgersDecide() && SucceededEvolve(old(tasks), tasks, normalized)
        invariant old(SucceededKnown(tasks, normalized)) ==> SucceededKnown(tasks, normalized)
      {
        ghost var rows, ledger := tasks, normalized;
        ghost var at;
        var verdict, looped;
        verdict, looped, at := Run(runs[i].0, runs[i].1);
        SucceededTransitive(old(tasks), rows, tasks, ledger, normalized);
      }
    }
  }
}
