/** The replay worker (cmd/replay-worker/main.go): a window of a ledger is read page by page and
    published again, record by record.  The ledger is listed in a stable order. */
module Replay {
  import opened Sequences

  datatype Item = Item(sourceId: string, key: string, decodable: bool)

  datatype RecordStatus = Published | Failed

  datatype RecordResult = RecordResult(sourceId: string, key: string, status: RecordStatus, attempts: nat)

  datatype Result = Result(scanned: nat, published: nat, failed: nat, batches: nat, canceled: bool,
                           records: seq<RecordResult>)

  datatype Outcome = Completed | Canceled | Stopped

  const MAX_RECORD_RESULTS := 100
  const PAGE_LIMIT := 5000

  const MAX_BATCH := 200

  datatype WorkerConfig = WorkerConfig(maxRecords: int, batchSize: int, maxAttempts: int)

  /** A setting that is absent or not positive falls back to its default. */
  function Setting(value: int, fallback: int): int {
    if value <= 0 then fallback else value
  }

  /** What the environment configures; the batch is capped. */
  function LoadWorkerConfig(maxRecords: int, batchSize: int, maxAttempts: int): (cfg: WorkerConfig)
    ensures 0 < cfg.maxRecords && 0 < cfg.batchSize <= MAX_BATCH && 0 < cfg.maxAttempts
  {
    var batch := Setting(batchSize, 50);
    WorkerConfig(Setting(maxRecords, 50), if MAX_BATCH < batch then MAX_BATCH else batch, Setting(maxAttempts, 3))
  }

  function MaxRecords(configured: int): (r: nat)
    ensures 0 < r
  {
    if configured <= 0 then 50 else configured
  }

  function BatchSize(configured: int, maxRecords: nat): (r: nat)
    requires 0 < maxRecords
    ensures 0 < r <= maxRecords && (0 < configured ==> r <= configured)
  {
    if configured <= 0 || maxRecords < configured then maxRecords else configured
  }

  function Min(a: int, b: int): int { if a <= b then a else b }

  /** One page of the ledger: never more rows than asked for, nor than the store's own limit. */
  function Page(source: seq<Item>, limit: nat, offset: nat): (r: seq<Item>)
    requires offset <= |source| && 0 < limit
    ensures r <= source[offset..]
    ensures |r| == Min(Min(limit, PAGE_LIMIT), |source| - offset)
  {
    source[offset..offset + Min(Min(limit, PAGE_LIMIT), |source| - offset)]
  }

  function AppendRecordResult(records: seq<RecordResult>, record: RecordResult): seq<RecordResult> {
    if MAX_RECORD_RESULTS <= |records| then records else records + [record]
  }

  function Times(q: nat, d: nat): nat { q * d }

  lemma TimesNext(q: nat, d: nat)
    ensures Times(q + 1, d) == Times(q, d) + d
  {
  }

  function Ceiling(n: nat, d: nat): nat
    requires 0 < d
  {
    (n + d - 1) / d
  }

  /** q full pages and a last one of `last` records, if any, are that many pages. */
  lemma CeilingOf(n: nat, d: nat, q: nat, last: nat)
    requires 0 < d && n == Times(q, d) + last && last <= d
    ensures Ceiling(n, d) == if last == 0 then q else q + 1
  {
    if last == 0 {
      QuotientIs(n + d - 1, d, q, d - 1);
    } else {
      TimesNext(q, d);
      QuotientIs(n + d - 1, d, q + 1, last - 1);
    }
  }

  lemma QuotientIs(x: nat, d: nat, q: nat, r: nat)
    requires 0 < d && r < d && x == Times(q, d) + r
    ensures x / d == q
  {
    assert (x / d - q) * d == r - x % d;
    NoMultipleBetween(x / d - q, d);
  }

  lemma NoMultipleBetween(k: int, d: int)
    requires 0 < d
    ensures 0 - d < k * d < d ==> k == 0
  {
    if 1 <= k {
      assert d <= k * d;
    } else if k <= -1 {
      assert k * d <= 0 - d;
    }
  }

  /** The records a result keeps of `log`, published in that order. */
  predicate Records(records: seq<RecordResult>, log: seq<Item>, maxAttempts: int) {
    && |records| == Min(|log|, MAX_RECORD_RESULTS)
    && forall i :: 0 <= i < |records| ==>
         && records[i].sourceId == log[i].sourceId && records[i].key == log[i].key && records[i].status.Published?
         && 1 <= records[i].attempts && (records[i].attempts <= maxAttempts || records[i].attempts == 1)
  }

  /** The records of `log` and, if there is room, the failure of the item that comes next in `source`. */
  predicate EndsInFailure(records: seq<RecordResult>, log: seq<Item>, source: seq<Item>, maxAttempts: int) {
    && |log| < |source| && |records| == Min(|log| + 1, MAX_RECORD_RESULTS)
    && Records(records[..Min(|log|, MAX_RECORD_RESULTS)], log, maxAttempts)
    && (|log| < MAX_RECORD_RESULTS ==>
          && records[|log|].status.Failed? && records[|log|].sourceId == source[|log|].sourceId
          && records[|log|].key == source[|log|].key)
  }

  /** At most the last record scanned has failed, and the kept records say what became of each. */
  predicate Accounts(result: Result, log: seq<Item>, source: seq<Item>, maxAttempts: int) {
    && result.published == |log| && result.failed <= 1 && |log| + result.failed <= result.scanned
    && (if result.failed == 0 then Records(result.records, log, maxAttempts)
        else EndsInFailure(result.records, log, source, maxAttempts))
  }

  // ----- The topic -----

  /** The items in turn, item `i` as many times in a row as `copies` says. */
  function Spread(items: seq<Item>, copies: seq<nat>): seq<Item>
    requires |copies| <= |items|
  {
    if copies == [] then []
    else
      var n := |copies| - 1;
      Spread(items, copies[..n]) + Copies(copies[n], items[n])
  }

  lemma {:induction false} SpreadPrefix(items: seq<Item>, more: seq<Item>, copies: seq<nat>)
    requires |copies| <= |items| && items <= more
    ensures Spread(items, copies) == Spread(more, copies)
  {
    if copies != [] {
      SpreadPrefix(items, more, copies[..|copies| - 1]);
    }
  }

  /** Every acknowledged item is in the topic at least once, the one after them perhaps, all in order, and
      none more often than it was tried. */
  predicate InTopic(topic: seq<Item>, log: seq<Item>, source: seq<Item>, copies: seq<nat>, maxAttempts: int) {
    && |log| <= |copies| <= |log| + 1 && |copies| <= |source| && topic == Spread(source, copies)
    && forall i :: 0 <= i < |copies| ==>
         (i < |log| ==> 1 <= copies[i]) && (copies[i] <= maxAttempts || copies[i] <= 1)
  }

  lemma {:induction false} CollapseSpread(items: seq<Item>, copies: seq<nat>)
    requires |copies| <= |items| && forall i :: 0 <= i < |copies| ==> 1 <= copies[i]
    requires forall i, j :: 0 <= i < j < |items| ==> items[i] != items[j]
    ensures Collapse(Spread(items, copies)) == items[..|copies|]
    ensures copies != [] ==>
      var topic := Spread(items, copies); topic != [] && topic[|topic| - 1] == items[|copies| - 1]
  {
    if copies != [] {
      var n := |copies| - 1;
      CollapseSpread(items, copies[..n]);
      CollapseCopies(Spread(items, copies[..n]), copies[n], items[n]);
      assert items[..n + 1] == items[..n] + [items[n]];
    }
  }

  /** Without immediate repetitions the topic is the log, or the log and the record after it; it is the log
      when no record failed. */
  lemma TopicIsLog(topic: seq<Item>, log: seq<Item>, source: seq<Item>, copies: seq<nat>, maxAttempts: int)
    requires InTopic(topic, log, source, copies, maxAttempts) && log <= source
    requires forall i, j :: 0 <= i < j < |source| ==> source[i] != source[j]
    ensures Collapse(topic) == log || (|log| < |source| && Collapse(topic) == log + [source[|log|]])
    ensures |copies| == |log| ==> Collapse(topic) == log
  {
    var n := |log|;
    CollapseSpread(source, copies[..n]);
    if |copies| == n {
      assert copies[..n] == copies;
    } else {
      CollapseCopies(Spread(source, copies[..n]), copies[n], source[n]);
    }
  }

  lemma InTopicStep(topic: seq<Item>, log: seq<Item>, source: seq<Item>, copies: seq<nat>, maxAttempts: int, n: nat)
    requires InTopic(topic, log, source, copies, maxAttempts) && |copies| == |log| < |source|
    requires n <= maxAttempts || n <= 1
    ensures var item := source[|log|];
            && InTopic(topic + Copies(n, item), log, source, copies + [n], maxAttempts)
            && (1 <= n ==> InTopic(topic + Copies(n, item), log + [item], source, copies + [n], maxAttempts))
  {
    var more := copies + [n];
    assert more[..|copies|] == copies;
  }

  lemma InTopicPrefix(topic: seq<Item>, log: seq<Item>, source: seq<Item>, more: seq<Item>, copies: seq<nat>,
                      maxAttempts: int)
    requires InTopic(topic, log, source, copies, maxAttempts) && source <= more
    ensures InTopic(topic, log, more, copies, maxAttempts)
  {
    SpreadPrefix(source, more, copies);
  }

  /** Publishes until acknowledged, the attempts are used up, or the context ends during a pause.  An
      attempt that reports an error may have reached the topic. */
  method PublishWithRetry(item: Item, maxAttempts: int, before: seq<Item>)
    returns (ok: bool, attempts: nat, topic: seq<Item>, ghost ended: bool, ghost copies: nat)
    ensures 1 <= attempts && (attempts <= maxAttempts || attempts == 1)
    ensures !ok && !ended ==> attempts == maxAttempts || (maxAttempts <= 0 && attempts == 1)
    ensures topic == before + Copies(copies, item) && copies <= attempts && (ok ==> 1 <= copies)
  {
    topic, ended, copies := before, false, 0;
    var limit := if maxAttempts <= 0 then 1 else maxAttempts;
    attempts := 1;
    while true
      invariant 1 <= attempts <= limit && !ended
      invariant topic == before + Copies(copies, item) && copies < attempts
      decreases limit - attempts
    {
      ok := *;
      var reached: bool := *;
      if ok || reached {
        topic, copies := topic + [item], copies + 1;
      }
      if ok { return; }
      if attempts == limit { return; }
      var canceled: bool := *;
      if canceled {
        ended := true;
        return;
      }
      attempts := attempts + 1;
    }
  }

  lemma PublishedKept(records: seq<RecordResult>, log: seq<Item>, item: Item, attempts: nat, maxAttempts: int)
    requires Records(records, log, maxAttempts) && 1 <= attempts && (attempts <= maxAttempts || attempts == 1)
    ensures Records(AppendRecordResult(records, RecordResult(item.sourceId, item.key, Published, attempts)),
                    log + [item], maxAttempts)
  {
  }

  lemma FailureKept(records: seq<RecordResult>, log: seq<Item>, source: seq<Item>, attempts: nat, maxAttempts: int)
    requires Records(records, log, maxAttempts) && |log| < |source|
    ensures var failure := RecordResult(source[|log|].sourceId, source[|log|].key, RecordStatus.Failed, attempts);
            EndsInFailure(AppendRecordResult(records, failure), log, source, maxAttempts)
  {
    var item := source[|log|];
    var failure := RecordResult(item.sourceId, item.key, RecordStatus.Failed, attempts);
    var after := AppendRecordResult(records, failure);
    assert after[..Min(|log|, MAX_RECORD_RESULTS)] == records;
  }

  /** Publishes the record that comes next in `source` after those of `before`. */
  method PublishRecord(source: seq<Item>, maxAttempts: int, before: seq<Item>, given: Result, topic0: seq<Item>,
                       ghost copies0: seq<nat>)
    returns (ok: bool, result: Result, topic: seq<Item>, ghost copies: seq<nat>)
    requires before <= source && |before| < |source| && |copies0| == |before|
    requires InTopic(topic0, before, source, copies0, maxAttempts)
    requires Records(given.records, before, maxAttempts) && given.published == |before|
    ensures result == given.(published := result.published, failed := result.failed, records := result.records)
    ensures ok ==> result.published == given.published + 1 && result.failed == given.failed
    ensures ok ==> Records(result.records, source[..|before| + 1], maxAttempts) && |copies| == |before| + 1
    ensures !ok ==> result.published == given.published && result.failed == given.failed + 1
    ensures !ok ==> EndsInFailure(result.records, before, source, maxAttempts)
    ensures InTopic(topic, if ok then source[..|before| + 1] else before, source, copies, maxAttempts)
  {
    var item, attempts := source[|before|], 0;
    ok, topic, copies := false, topic0, copies0;
    if item.decodable {
      ghost var ended, tried;
      ok, attempts, topic, ended, tried := PublishWithRetry(item, maxAttempts, topic0);
      InTopicStep(topic0, before, source, copies0, maxAttempts, tried);
      copies := copies0 + [tried];
    }
    assert source[..|before| + 1] == before + [item];
    var record := RecordResult(item.sourceId, item.key, if ok then Published else Failed, attempts);
    result := given.(records := AppendRecordResult(given.records, record));
    FailureKept(given.records, before, source, attempts, maxAttempts);
    if ok {
      PublishedKept(given.records, before, item, attempts, maxAttempts);
      result := result.(published := result.published + 1);
    } else {
      result := result.(failed := result.failed + 1);
    }
  }

  /** Publishes the records of one page in order, up to the first that fails. */
  method PublishPage(page: seq<Item>, maxAttempts: int, before: seq<Item>, given: Result, topic0: seq<Item>,
                     ghost copies0: seq<nat>)
    returns (ok: bool, result: Result, log: seq<Item>, topic: seq<Item>, ghost copies: seq<nat>)
    requires InTopic(topic0, before, before, copies0, maxAttempts) && |copies0| == |before|
    requires Records(given.records, before, maxAttempts) && given.published == |before|
    ensures before <= log <= before + page
    ensures result == given.(published := |log|, failed := result.failed, records := result.records)
    ensures ok ==> log == before + page && result.failed == given.failed && Records(result.records, log, maxAttempts)
    ensures !ok ==> |log| < |before + page| && result.failed == given.failed + 1
    ensures !ok ==> EndsInFailure(result.records, log, before + page, maxAttempts)
    ensures InTopic(topic, log, before + page, copies, maxAttempts) && (ok ==> |copies| == |log|)
  {
    var source := before + page;
    ok, result, log, topic, copies := true, given, before, topic0, copies0;
    InTopicPrefix(topic, log, before, source, copies, maxAttempts);
    var i := 0;
    while ok && i < |page|
      invariant 0 <= i <= |page| && before <= log == source[..|before| + i]
      invariant result == given.(published := |log|, failed := result.failed, records := result.records)
      invariant ok ==> result.failed == given.failed && Records(result.records, log, maxAttempts)
      invariant !ok ==> i < |page| && result.failed == given.failed + 1
      invariant !ok ==> EndsInFailure(result.records, log, source, maxAttempts)
      invariant InTopic(topic, log, source, copies, maxAttempts) && (ok ==> |copies| == |log|)
      decreases |page| - i, ok
    {
      ok, result, topic, copies := PublishRecord(source, maxAttempts, log, result, topic, copies);
      if ok {
        log := log + [page[i]];
        i := i + 1;
      }
    }
  }

  /** Counts a page as scanned and publishes it. */
  method PublishBatch(source: seq<Item>, offset: nat, page: seq<Item>, maxAttempts: int, before: seq<Item>,
                      given: Result, topic0: seq<Item>, ghost copies0: seq<nat>)
    returns (ok: bool, result: Result, log: seq<Item>, topic: seq<Item>, ghost copies: seq<nat>)
    requires InTopic(topic0, before, source, copies0, maxAttempts) && |copies0| == |before|
    requires offset <= |source| && page <= source[offset..] && before == source[..offset]
    requires Accounts(given, before, source, maxAttempts) && given.failed == 0
    ensures log <= source && |log| <= offset + |page| && Accounts(result, log, source, maxAttempts)
    ensures result == given.(batches := given.batches + 1, scanned := given.scanned + |page|,
      published := |log|, failed := result.failed, records := result.records)
    ensures if ok then log == source[..offset + |page|] && result.failed == 0 else result.failed == 1
    ensures InTopic(topic, log, source, copies, maxAttempts) && (ok ==> |copies| == |log|)
  {
    result := given.(batches := given.batches + 1, scanned := given.scanned + |page|);
    PageExtends(source, offset, page);
    SpreadPrefix(before, source, copies0);
    ok, result, log, topic, copies := PublishPage(page, maxAttempts, before, result, topic0, copies0);
    InTopicPrefix(topic, log, before + page, source, copies, maxAttempts);
  }

  /** Loads the next page, if there is one, and publishes it. */
  method NextBatch(source: seq<Item>, offset: nat, limit: nat, batch: nat, maxAttempts: int, before: seq<Item>,
                   given: Result, topic0: seq<Item>, ghost copies0: seq<nat>)
    returns (ok: bool, taken: nat, result: Result, log: seq<Item>, topic: seq<Item>, ghost copies: seq<nat>)
    requires offset <= |source| && 0 < limit <= batch && before == source[..offset]
    requires InTopic(topic0, before, source, copies0, maxAttempts) && |copies0| == offset
    requires Accounts(given, before, source, maxAttempts) && given.failed == 0 && given.scanned == offset
    requires offset == Times(given.batches, batch)
    ensures taken == Min(Min(limit, PAGE_LIMIT), |source| - offset) && result.canceled == given.canceled
    ensures log <= source && |log| <= offset + taken && Accounts(result, log, source, maxAttempts)
    ensures ok ==> log == source[..offset + taken] && result.failed == 0 && |copies| == |log|
    ensures result.scanned == offset + taken && result.batches == Ceiling(offset + taken, batch)
    ensures taken == batch ==> offset + taken == Times(result.batches, batch)
    ensures InTopic(topic, log, source, copies, maxAttempts)
  {
    var page := Page(source, limit, offset);
    ok, taken, result, log, topic, copies := true, |page|, given, before, topic0, copies0;
    TimesNext(given.batches, batch);
    CeilingOf(offset + taken, batch, given.batches, taken);
    if page != [] {
      ok, result, log, topic, copies := PublishBatch(source, offset, page, maxAttempts, before, given, topic0, copies0);
    }
  }

  /** A whole job of a worker with the given settings.  `log` is what the broker acknowledged, in order, and
      `topic` what it holds: the same, with each record perhaps repeated at once, and perhaps the one that
      failed. */
  method ExecuteReplayJob(supported: bool, source: seq<Item>, configuredMax: int, configuredBatch: int,
                          configuredAttempts: int)
    returns (outcome: Outcome, result: Result, log: seq<Item>, topic: seq<Item>, ghost copies: seq<nat>)
    ensures InTopic(topic, log, source, copies,
                    LoadWorkerConfig(configuredMax, configuredBatch, configuredAttempts).maxAttempts)
    ensures !outcome.Stopped? ==> |copies| == |log|
    ensures var cfg := LoadWorkerConfig(configuredMax, configuredBatch, configuredAttempts);
            log <= source && |log| <= cfg.maxRecords && Accounts(result, log, source, cfg.maxAttempts)
    ensures result.canceled <==> outcome.Canceled?
    ensures !outcome.Stopped? ==> result.failed == 0 && result.scanned == result.published
    ensures outcome.Canceled? ==>
      var cfg := LoadWorkerConfig(configuredMax, configuredBatch, configuredAttempts);
      result.published == Times(result.batches, BatchSize(cfg.batchSize, cfg.maxRecords))
    ensures outcome.Completed? ==>
      var cfg := LoadWorkerConfig(configuredMax, configuredBatch, configuredAttempts);
      && log == source[..Min(cfg.maxRecords, |source|)]
      && result.batches == Ceiling(|log|, BatchSize(cfg.batchSize, cfg.maxRecords))
  {
    var cfg := LoadWorkerConfig(configuredMax, configuredBatch, configuredAttempts);
    var max := MaxRecords(cfg.maxRecords);
    var batch := BatchSize(cfg.batchSize, max);
    var maxAttempts := cfg.maxAttempts;
    log, topic, copies, result := [], [], [], Result(0, 0, 0, 0, false, []);
    outcome := if supported then Completed else Stopped;
    var offset, more := 0, supported;
    CeilingOf(0, batch, 0, 0);
    while more && offset < max
      invariant offset <= |source| && offset <= max && log <= source
      invariant Accounts(result, log, source, maxAttempts) && (outcome.Stopped? ==> !more)
      invariant !outcome.Stopped? ==> log == source[..offset] && result.scanned == offset && result.failed == 0
      invariant |log| <= max && result.scanned <= max
      invariant InTopic(topic, log, source, copies, maxAttempts) && (!outcome.Stopped? ==> |copies| == |log|)
      invariant result.canceled <==> outcome.Canceled?
      invariant more && offset < max ==> offset == Times(result.batches, batch)
      invariant outcome.Canceled? ==> !more && offset == Times(result.batches, batch)
      invariant outcome.Completed? ==> result.batches == Ceiling(offset, batch)
      invariant outcome.Completed? && (!more || offset == max) ==> offset == Min(max, |source|)
      decreases max - offset, more
    {
      var running: bool, canceled: bool, loaded: bool := *, *, *;
      more := running && !canceled && loaded;
      if more {
        var limit := Min(batch, max - offset);
        var taken;
        more, taken, result, log, topic, copies :=
          NextBatch(source, offset, limit, batch, maxAttempts, log, result, topic, copies);
        if more {
          offset := offset + taken;
          more := taken == limit;
        } else {
          outcome := Stopped;
        }
      } else if running && canceled {
        outcome, result := Canceled, result.(canceled := true);
      } else {
        outcome := Stopped;
      }
    }
  }

  lemma PageExtends(source: seq<Item>, offset: nat, page: seq<Item>)
    requires offset <= |source| && page <= source[offset..]
    ensures source[..offset] + page == source[..offset + |page|]
  {
  }
}
