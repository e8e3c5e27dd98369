/** The two outbox relays.  Both list undelivered rows, publish each and then mark it; a failed or
    interrupted call may or may not have taken effect.  New rows may take any place in the order of
    the outbox, at any time: that order is a time and an id which other programs choose. */
module Outbox {
  import opened Sequences

  // ----- Sequences of events -----

  predicate Distinct(s: seq<string>) {
    forall i, j :: 0 <= i < j < |s| ==> s[i] != s[j]
  }

  function Elements(s: seq<string>): set<string> {
    set x | x in s
  }

  predicate KnownOnly(s: seq<string>, outbox: seq<string>) {
    forall x :: x in s ==> x in outbox
  }

  /** What is new in the collapsed log after `events`: all of them, except a first one that repeats the last. */
  function NewEvents(log: seq<string>, events: seq<string>): (r: seq<string>)
    ensures r <= events || (events != [] && r == events[1..])
  {
    if log != [] && events != [] && log[|log| - 1] == events[0] then events[1..] else events
  }

  lemma {:induction false} CollapseConcat(log: seq<string>, events: seq<string>)
    requires Distinct(events)
    ensures Collapse(log + events) == Collapse(log) + NewEvents(log, events)
  {
    if events == [] {
      assert log + events == log;
    } else {
      var front, e := events[..|events| - 1], events[|events| - 1];
      assert events == front + [e];
      CollapseConcat(log, front);
      CollapseStep(log, front, e);
    }
  }

  lemma CollapseStep(log: seq<string>, front: seq<string>, e: string)
    requires Collapse(log + front) == Collapse(log) + NewEvents(log, front) && e !in front
    ensures Collapse(log + (front + [e])) == Collapse(log) + NewEvents(log, front + [e])
  {
    assert log + (front + [e]) == (log + front) + [e];
    CollapseAppend(log + front, e);
    if front == [] {
      assert log + front == log;
      assert front + [e] == [e];
    } else {
      assert (log + front)[|log + front| - 1] == front[|front| - 1];
      NewEventsStep(log, front, e);
    }
  }

  lemma NewEventsStep(log: seq<string>, front: seq<string>, e: string)
    requires front != []
    ensures NewEvents(log, front + [e]) == NewEvents(log, front) + [e]
  {
    assert (front + [e])[1..] == front[1..] + [e];
  }

  /** Each event is logged once, up to immediate repetition. */
  predicate Once(log: seq<string>) {
    Distinct(Collapse(log))
  }

  /** None of the events was logged before, except that the first may be the one logged last. */
  predicate Immediate(log: seq<string>, events: seq<string>) {
    forall i :: 0 <= i < |events| && events[i] in log ==> i == 0 && log[|log| - 1] == events[0]
  }

  /** Exactly such events can be published without a repetition that is not immediate. */
  lemma RepeatsStayImmediate(log: seq<string>, events: seq<string>)
    requires Distinct(events)
    ensures Once(log + events) <==> Once(log) && Immediate(log, events)
  {
    CollapseConcat(log, events);
    CollapseElements(log);
    var c, n := Collapse(log), NewEvents(log, events);
    DistinctConcat(c, n);
    if log != [] && events != [] && log[|log| - 1] == events[0] {
      assert n == events[1..];
      assert forall i :: 1 <= i < |events| ==> n[i - 1] == events[i];
    } else {
      assert n == events;
      assert forall i :: 0 <= i < |events| ==> n[i] == events[i];
      assert log != [] && events != [] && log[|log| - 1] != events[0] ==> log[|log| - 1] in log;
    }
  }

  lemma DistinctConcat(a: seq<string>, b: seq<string>)
    ensures Distinct(a + b) <==> Distinct(a) && Distinct(b) && forall i :: 0 <= i < |b| ==> b[i] !in a
  {
    var s := a + b;
    assert forall i :: 0 <= i < |a| ==> s[i] == a[i];
    assert forall i :: 0 <= i < |b| ==> s[|a| + i] == b[i];
    if Distinct(s) {
      forall i | 0 <= i < |b|
        ensures b[i] !in a
      {
        assert s[|a| + i] == b[i];
      }
    }
  }

  // ----- Arrivals -----

  datatype Arrival = Arrival(place: nat, event: string)

  function Insert(s: seq<string>, at: nat, x: string): seq<string> {
    if at <= |s| then s[..at] + [x] + s[at..] else s + [x]
  }

  /** The outbox after the arrivals, in turn. */
  function Arrived(outbox: seq<string>, arrivals: seq<Arrival>): seq<string> {
    if arrivals == [] then outbox
    else
      var last := arrivals[|arrivals| - 1];
      Insert(Arrived(outbox, arrivals[..|arrivals| - 1]), last.place, last.event)
  }

  /** No event arrives twice. */
  predicate Fresh(outbox: seq<string>, arrivals: seq<Arrival>) {
    arrivals != [] ==>
      var front := arrivals[..|arrivals| - 1];
      Fresh(outbox, front) && arrivals[|arrivals| - 1].event !in Arrived(outbox, front)
  }

  /** No arrival took a place before the first `n` events of its time. */
  predicate NoneBefore(arrivals: seq<Arrival>, n: nat) {
    forall i :: 0 <= i < |arrivals| ==> n <= arrivals[i].place
  }

  lemma InsertElements(s: seq<string>, at: nat, x: string)
    ensures forall y :: y in Insert(s, at, x) <==> y in s || y == x
    ensures Distinct(s) && x !in s ==> Distinct(Insert(s, at, x))
  {
    var k := if at <= |s| then at else |s|;
    var r := Insert(s, at, x);
    assert r == s[..k] + [x] + s[k..];
    assert forall i :: 0 <= i < k ==> r[i] == s[i];
    assert forall i :: k <= i < |s| ==> r[i + 1] == s[i];
    assert r[k] == x;
  }

  lemma {:induction false} ArrivedElements(outbox: seq<string>, arrivals: seq<Arrival>)
    requires Distinct(outbox) && Fresh(outbox, arrivals)
    ensures Distinct(Arrived(outbox, arrivals)) && KnownOnly(outbox, Arrived(outbox, arrivals))
  {
    if arrivals != [] {
      var front, last := arrivals[..|arrivals| - 1], arrivals[|arrivals| - 1];
      ArrivedElements(outbox, front);
      InsertElements(Arrived(outbox, front), last.place, last.event);
    }
  }

  /** One arrival: what was a prefix stays one if and only if the event does not come before its end,
      and what was none becomes none. */
  lemma LateArrival(outbox: seq<string>, done: seq<string>, at: nat, e: string)
    requires KnownOnly(done, outbox) && e !in outbox
    ensures done <= Insert(outbox, at, e) <==> done <= outbox && |done| <= at
  {
    var after := Insert(outbox, at, e);
    var k := if at <= |outbox| then at else |outbox|;
    assert after[k] == e && after[..k] == outbox[..k];
    assert |done| <= k ==> after[..|done|] == outbox[..|done|];
  }

  /** Any number of arrivals. */
  lemma {:induction false} LateArrivals(outbox: seq<string>, done: seq<string>, arrivals: seq<Arrival>)
    requires Distinct(outbox) && Fresh(outbox, arrivals) && KnownOnly(done, outbox)
    ensures done <= Arrived(outbox, arrivals) <==> done <= outbox && NoneBefore(arrivals, |done|)
  {
    if arrivals != [] {
      var front, last := arrivals[..|arrivals| - 1], arrivals[|arrivals| - 1];
      LateArrivals(outbox, done, front);
      ArrivedElements(outbox, front);
      LateArrival(Arrived(outbox, front), done, last.place, last.event);
    }
  }

  /** Another event may have been written to the outbox, at any place. */
  method ReceiveOne(outbox: seq<string>, ghost before: seq<string>, ghost given: seq<Arrival>)
    returns (after: seq<string>, arrived: seq<string>, ghost arrivals: seq<Arrival>)
    requires Distinct(before) && Fresh(before, given) && outbox == Arrived(before, given)
    ensures given <= arrivals && Fresh(before, arrivals) && after == Arrived(before, arrivals)
    ensures Distinct(after) && KnownOnly(outbox, after) && KnownOnly(after, outbox + arrived)
  {
    var some: bool, place: nat, e: string := *, *, *;
    after, arrived, arrivals := outbox, [], given;
    ArrivedElements(before, given);
    if some && e !in outbox {
      InsertElements(outbox, place, e);
      after, arrived, arrivals := Insert(outbox, place, e), [e], given + [Arrival(place, e)];
      assert arrivals[..|arrivals| - 1] == given;
    }
  }

  /** Any number of events may have been written to the outbox, at any places. */
  method Receive(outbox: seq<string>, ghost before: seq<string>, ghost given: seq<Arrival>)
    returns (after: seq<string>, arrived: seq<string>, ghost arrivals: seq<Arrival>)
    requires Distinct(before) && Fresh(before, given) && outbox == Arrived(before, given)
    ensures given <= arrivals && Fresh(before, arrivals) && after == Arrived(before, arrivals)
    ensures Distinct(after) && KnownOnly(outbox, after) && KnownOnly(after, outbox + arrived)
  {
    ArrivedElements(before, given);
    after, arrived, arrivals := outbox, [], given;
    var count: int := *;
    while 0 < count
      invariant given <= arrivals && Fresh(before, arrivals) && after == Arrived(before, arrivals)
      invariant Distinct(after) && KnownOnly(outbox, after) && KnownOnly(after, outbox + arrived)
    {
      var one;
      after, one, arrivals := ReceiveOne(after, before, arrivals);
      arrived, count := arrived + one, count - 1;
    }
  }

  // ----- Listings -----

  function Undelivered(rows: seq<string>, delivered: set<string>): seq<string> {
    if rows == [] then []
    else
      var last := rows[|rows| - 1];
      Undelivered(rows[..|rows| - 1], delivered) + if last in delivered then [] else [last]
  }

  /** The first `limit` rows that are not delivered yet, in list order. */
  function Pending(rows: seq<string>, delivered: set<string>, limit: nat): seq<string> {
    var u := Undelivered(rows, delivered);
    if |u| <= limit then u else u[..limit]
  }

  /** Place `at` of the rows holds the listed row `i`, and the undelivered rows before it are those
      listed before it. */
  predicate ListedAt(rows: seq<string>, delivered: set<string>, listed: seq<string>, i: nat, at: nat) {
    && i < |listed| && at < |rows| && rows[at] == listed[i] && listed[i] !in delivered
    && (forall p :: 0 <= p < at ==> rows[p] in delivered || rows[p] in listed[..i])
    && forall j :: 0 <= j < i ==> listed[j] in rows[..at]
  }

  lemma {:induction false} UndeliveredInOrder(rows: seq<string>, delivered: set<string>, i: nat) returns (at: nat)
    requires i < |Undelivered(rows, delivered)|
    ensures ListedAt(rows, delivered, Undelivered(rows, delivered), i, at)
  {
    var n := |rows| - 1;
    var front, u := Undelivered(rows[..n], delivered), Undelivered(rows, delivered);
    if i < |front| {
      at := UndeliveredInOrder(rows[..n], delivered, i);
      assert u[..i] == front[..i] && rows[..n][..at] == rows[..at];
    } else {
      at := n;
      assert u[..i] == front;
      AllUndelivered(rows[..n], delivered);
    }
  }

  lemma {:induction false} AllUndelivered(rows: seq<string>, delivered: set<string>)
    ensures forall x :: x in Undelivered(rows, delivered) <==> x in rows && x !in delivered
    ensures Distinct(rows) ==> Distinct(Undelivered(rows, delivered))
  {
    if rows != [] {
      AllUndelivered(rows[..|rows| - 1], delivered);
      assert rows == rows[..|rows| - 1] + [rows[|rows| - 1]];
    }
  }

  lemma PendingRows(rows: seq<string>, delivered: set<string>, limit: nat)
    requires Distinct(rows)
    ensures Distinct(Pending(rows, delivered, limit)) && KnownOnly(Pending(rows, delivered, limit), rows)
    ensures forall x :: x in Pending(rows, delivered, limit) ==> x !in delivered
  {
    AllUndelivered(rows, delivered);
  }

  /** A listing holds undelivered rows in the order of the outbox and skips none. */
  lemma PendingInOrder(rows: seq<string>, delivered: set<string>, limit: nat, i: nat) returns (at: nat)
    requires i < |Pending(rows, delivered, limit)|
    ensures ListedAt(rows, delivered, Pending(rows, delivered, limit), i, at)
  {
    at := UndeliveredInOrder(rows, delivered, i);
    assert Pending(rows, delivered, limit)[..i] == Undelivered(rows, delivered)[..i];
  }

  /** When the delivered rows are a prefix, the undelivered ones are the rest. */
  lemma {:induction false} UndeliveredAfterPrefix(rows: seq<string>, delivered: set<string>, marked: nat)
    requires marked <= |rows| && forall i :: 0 <= i < |rows| ==> (rows[i] in delivered <==> i < marked)
    ensures Undelivered(rows, delivered) == rows[marked..]
  {
    if marked < |rows| {
      UndeliveredAfterPrefix(rows[..|rows| - 1], delivered, marked);
      assert rows[marked..] == rows[..|rows| - 1][marked..] + [rows[|rows| - 1]];
    } else if rows != [] {
      UndeliveredAfterPrefix(rows[..|rows| - 1], delivered, marked - 1);
    }
  }

  // ----- The signal assurance relay -----

  const BATCH := 100

  /** The first `marked` events are the delivered ones, and at most the next one is published already. */
  predicate MarkedPrefix(outbox: seq<string>, delivered: set<string>, marked: nat, published: nat) {
    && marked <= published <= marked + 1 && published <= |outbox|
    && forall i :: 0 <= i < |outbox| ==> (outbox[i] in delivered <==> i < marked)
  }

  /** The events of a listing that follow a marked prefix, published from the first on. */
  lemma PublishedPart(outbox: seq<string>, delivered: set<string>, limit: nat, k: nat, m: nat, n: nat)
    requires Distinct(outbox) && k <= |Pending(outbox, delivered, limit)|
    ensures Distinct(Pending(outbox, delivered, limit)[..k])
    ensures MarkedPrefix(outbox, delivered, m, n) ==>
      m + k <= |outbox| && Pending(outbox, delivered, limit)[..k] == outbox[m..m + k]
  {
    PendingRows(outbox, delivered, limit);
    if MarkedPrefix(outbox, delivered, m, n) {
      UndeliveredAfterPrefix(outbox, delivered, m);
      assert Pending(outbox, delivered, limit)[..k] == outbox[m..][..k];
    }
  }

  /** What publishing the events of a listing does to the order of the log, while the outbox stays. */
  lemma FlushOrder(outbox: seq<string>, marked: nat, log: seq<string>, events: seq<string>)
    requires Distinct(outbox) && Distinct(events)
    requires Collapse(log) <= outbox ==> marked <= |Collapse(log)| <= marked + 1
    requires Collapse(log) <= outbox ==>
      marked + |events| <= |outbox| && events == outbox[marked..marked + |events|]
    ensures Collapse(log + events) <= outbox <==> Collapse(log) <= outbox
    ensures Collapse(log) <= outbox ==>
      |Collapse(log + events)| == if events == [] then |Collapse(log)| else marked + |events|
  {
    CollapseConcat(log, events);
    if log != [] {
      CollapseLast(log);
    }
    OrderOfConcat(outbox, log, Collapse(log), events, marked);
  }

  lemma OrderOfConcat(outbox: seq<string>, log: seq<string>, c: seq<string>, events: seq<string>, m: nat)
    requires Distinct(outbox)
    requires if log == [] then c == [] else c != [] && c[|c| - 1] == log[|log| - 1]
    requires c <= outbox ==> m <= |c| <= m + 1 && m + |events| <= |outbox| && events == outbox[m..m + |events|]
    ensures c + NewEvents(log, events) <= outbox <==> c <= outbox
    ensures c <= outbox ==> |c + NewEvents(log, events)| == if events == [] then |c| else m + |events|
  {
    if c <= outbox {
      PrefixGrows(outbox, log, c, m, |events|);
    }
  }

  lemma PrefixGrows(outbox: seq<string>, log: seq<string>, c: seq<string>, m: nat, k: nat)
    requires Distinct(outbox) && c <= outbox && m <= |c| <= m + 1 && m + k <= |outbox|
    requires if log == [] then c == [] else c != [] && c[|c| - 1] == log[|log| - 1]
    ensures var after := c + NewEvents(log, outbox[m..m + k]);
            after <= outbox && |after| == if k == 0 then |c| else m + k
  {
    var events := outbox[m..m + k];
    if k > 0 {
      assert events[0] == outbox[m];
      if |c| == m + 1 {
        assert NewEvents(log, events) == events[1..] == outbox[m + 1..m + k];
        assert c + outbox[m + 1..m + k] == outbox[..m + k];
      } else {
        assert log != [] ==> log[|log| - 1] == outbox[m - 1];
        assert NewEvents(log, events) == events;
        assert c + events == outbox[..m + k];
      }
    }
  }

  /** Up to immediate repetitions, the log is a prefix of the outbox. */
  predicate Ordered(outbox: seq<string>, log: seq<string>) {
    Collapse(log) <= outbox
  }

  /** What is marked was published, what was published is in the outbox, and as long as the log is
      ordered the marked events are a prefix of it, at most one behind. */
  predicate RelayState(outbox: seq<string>, delivered: set<string>, log: seq<string>, marked: nat) {
    && Distinct(outbox) && KnownOnly(log, outbox)
    && (forall x :: x in delivered ==> x in log)
    && (Ordered(outbox, log) ==> MarkedPrefix(outbox, delivered, marked, |Collapse(log)|))
  }

  /** The first `done` events of a listing were marked, and at most the next one was published. */
  predicate Progressed(before: set<string>, listed: seq<string>, done: nat, sent: nat, after: set<string>) {
    done <= sent <= |listed| && sent <= done + 1 && after == before + Elements(listed[..done])
  }

  lemma MarkedPart(outbox: seq<string>, before: set<string>, events: seq<string>, m: nat, n: nat, later: seq<string>)
    requires MarkedPrefix(outbox, before, m, n) && Distinct(later) && m + |events| <= |outbox|
    requires events == outbox[m..m + |events|] && m + |events| <= |later|
    requires later[..m + |events|] == outbox[..m + |events|]
    requires forall x :: x in before + Elements(events) ==> x in outbox[..m + |events|]
    ensures forall i :: 0 <= i < |later| ==> (later[i] in before + Elements(events) <==> i < m + |events|)
  {
    var k := m + |events|;
    forall i | 0 <= i < |later|
      ensures later[i] in before + Elements(events) <==> i < k
    {
      if i < k {
        assert later[i] == later[..k][i] == outbox[i];
        assert m <= i ==> events[i - m] == outbox[i];
      }
    }
  }

  /** The listed events that were published continue the marked prefix, if there is one. */
  predicate Continues(outbox: seq<string>, log: seq<string>, marked: nat, events: seq<string>) {
    && Distinct(events) && KnownOnly(events, outbox)
    && (Ordered(outbox, log) ==>
          && marked <= |Collapse(log)| <= marked + 1
          && marked + |events| <= |outbox| && events == outbox[marked..marked + |events|])
  }

  /** Publishing `events` while others arrive leaves the log ordered if and only if it was ordered before
      and no arrival took a place before an event published by then. */
  lemma FlushKeepsOrder(outbox: seq<string>, log: seq<string>, marked: nat, events: seq<string>, arrivals: seq<Arrival>)
    requires Distinct(outbox) && KnownOnly(log, outbox) && Fresh(outbox, arrivals)
    requires Continues(outbox, log, marked, events)
    ensures Ordered(Arrived(outbox, arrivals), log + events) <==>
      Ordered(outbox, log) && NoneBefore(arrivals, |Collapse(log + events)|)
    ensures Ordered(outbox, log) ==>
      |Collapse(log + events)| == if events == [] then |Collapse(log)| else marked + |events|
  {
    FlushOrder(outbox, marked, log, events);
    CollapseElements(log + events);
    LateArrivals(outbox, Collapse(log + events), arrivals);
  }

  /** As long as the log is ordered, what is marked stays a prefix. */
  lemma MarksFollow(outbox: seq<string>, delivered: set<string>, log: seq<string>, marked: nat, events: seq<string>,
                    done: nat, arrivals: seq<Arrival>)
    requires RelayState(outbox, delivered, log, marked) && Fresh(outbox, arrivals)
    requires Continues(outbox, log, marked, events) && done <= |events| <= done + 1
    requires Ordered(Arrived(outbox, arrivals), log + events)
    ensures MarkedPrefix(Arrived(outbox, arrivals), delivered + Elements(events[..done]), marked + done,
                         |Collapse(log + events)|)
  {
    FlushKeepsOrder(outbox, log, marked, events, arrivals);
    FlushOrder(outbox, marked, log, events);
    ArrivedElements(outbox, arrivals);
    var published := |Collapse(log + events)|;
    assert outbox[..published] == Collapse(log + events) == Arrived(outbox, arrivals)[..published];
    assert events[..done] == outbox[marked..marked + done];
    StillMarked(outbox, delivered, events[..done], marked, |Collapse(log)|, Arrived(outbox, arrivals), published);
  }

  /** A flush that published `sent` of the listed events and marked `done` of them, while others arrived. */
  lemma FlushEnds(outbox: seq<string>, delivered: set<string>, log: seq<string>, limit: nat, marked: nat,
                  done: nat, sent: nat, after: set<string>, arrivals: seq<Arrival>)
    requires RelayState(outbox, delivered, log, marked) && Fresh(outbox, arrivals)
    requires Progressed(delivered, Pending(outbox, delivered, limit), done, sent, after)
    ensures Continues(outbox, log, marked, Pending(outbox, delivered, limit)[..sent])
    ensures RelayState(Arrived(outbox, arrivals), after, log + Pending(outbox, delivered, limit)[..sent], marked + done)
  {
    var events := Pending(outbox, delivered, limit)[..sent];
    PendingRows(outbox, delivered, limit);
    PublishedPart(outbox, delivered, limit, sent, marked, |Collapse(log)|);
    ArrivedElements(outbox, arrivals);
    assert Pending(outbox, delivered, limit)[..done] == events[..done];
    if Ordered(Arrived(outbox, arrivals), log + events) {
      MarksFollow(outbox, delivered, log, marked, events, done, arrivals);
    }
  }

  lemma StillMarked(outbox: seq<string>, delivered: set<string>, events: seq<string>, m: nat, n: nat,
                    later: seq<string>, published: nat)
    requires Distinct(outbox) && Distinct(later) && MarkedPrefix(outbox, delivered, m, n) && AllKnown(delivered, outbox)
    requires m + |events| <= |outbox| && events == outbox[m..m + |events|]
    requires m + |events| <= published <= m + |events| + 1 && published <= |outbox| && published <= |later|
    requires outbox[..published] == later[..published]
    ensures MarkedPrefix(later, delivered + Elements(events), m + |events|, published)
  {
    var k := m + |events|;
    assert outbox[..k] == outbox[..published][..k] == later[..published][..k] == later[..k];
    forall x | x in delivered + Elements(events)
      ensures x in outbox[..k]
    {
      if x in events {
        assert outbox[..k][m..] == events;
      } else {
        var i :| 0 <= i < |outbox| && outbox[i] == x;
        assert outbox[..k][i] == x;
      }
    }
    MarkedPart(outbox, delivered, events, m, n, later);
  }

  predicate AllKnown(delivered: set<string>, outbox: seq<string>) {
    forall x :: x in delivered ==> x in outbox
  }

  // ----- Histories -----

  /** What happened during a flush or between two: what arrived, what reached the log and what was marked,
      and how the relay came to that. */
  datatype Period<T> = Period(arrivals: seq<Arrival>, published: seq<string>, marks: set<string>, how: T)

  function OutboxAfter<T>(outbox: seq<string>, periods: seq<Period<T>>): seq<string> {
    if |periods| == 0 then outbox
    else Arrived(OutboxAfter(outbox, periods[..|periods| - 1]), periods[|periods| - 1].arrivals)
  }

  function LogAfter<T>(log: seq<string>, periods: seq<Period<T>>): (r: seq<string>)
    ensures log <= r
  {
    if |periods| == 0 then log else LogAfter(log, periods[..|periods| - 1]) + periods[|periods| - 1].published
  }

  function DeliveredAfter<T>(delivered: set<string>, periods: seq<Period<T>>): (r: set<string>)
    ensures delivered <= r
  {
    if |periods| == 0 then delivered
    else DeliveredAfter(delivered, periods[..|periods| - 1]) + periods[|periods| - 1].marks
  }

  predicate NoneOf(published: seq<string>, delivered: set<string>) {
    forall x :: x in published ==> x !in delivered
  }

  /** Nothing reached the log in a period before which it was marked. */
  predicate NothingRepublished<T>(delivered: set<string>, periods: seq<Period<T>>) {
    |periods| == 0
    || (NothingRepublished(delivered, periods[..|periods| - 1])
        && NoneOf(periods[|periods| - 1].published, DeliveredAfter(delivered, periods[..|periods| - 1])))
  }

  lemma AfterOneMore<T>(outbox: seq<string>, delivered: set<string>, log: seq<string>, periods: seq<Period<T>>,
                        p: Period<T>)
    ensures (periods + [p])[..|periods|] == periods
    ensures OutboxAfter(outbox, periods + [p]) == Arrived(OutboxAfter(outbox, periods), p.arrivals)
    ensures DeliveredAfter(delivered, periods + [p]) == DeliveredAfter(delivered, periods) + p.marks
    ensures LogAfter(log, periods + [p]) == LogAfter(log, periods) + p.published
  {
    assert (periods + [p])[..|periods|] == periods;
  }

  lemma {:induction false} ArrivedSize(outbox: seq<string>, arrivals: seq<Arrival>)
    ensures |Arrived(outbox, arrivals)| == |outbox| + |arrivals|
  {
    if arrivals != [] {
      ArrivedSize(outbox, arrivals[..|arrivals| - 1]);
    }
  }

  lemma {:induction false} OutboxGrows<T>(outbox: seq<string>, periods: seq<Period<T>>)
    ensures |outbox| <= |OutboxAfter(outbox, periods)|
    ensures |outbox| == |OutboxAfter(outbox, periods)| ==> forall i :: 0 <= i < |periods| ==> periods[i].arrivals == []
  {
    if |periods| != 0 {
      var n := |periods| - 1;
      OutboxGrows(outbox, periods[..n]);
      ArrivedSize(OutboxAfter(outbox, periods[..n]), periods[n].arrivals);
      assert |outbox| == |OutboxAfter(outbox, periods)| ==>
        forall i :: 0 <= i < n ==> periods[i] == periods[..n][i];
    }
  }

  // ----- Histories of the signal relay -----

  /** A period of the signal relay: the first events of the listing reached the log, and all of them, or all
      but the last, were marked; how many is in `how`. */
  predicate IsFlush(outbox: seq<string>, delivered: set<string>, p: Period<nat>) {
    && Fresh(outbox, p.arrivals) && p.published <= Pending(outbox, delivered, BATCH)
    && p.how <= |p.published| <= p.how + 1 && p.marks == Elements(p.published[..p.how])
  }

  predicate SignalHistory(outbox: seq<string>, delivered: set<string>, periods: seq<Period<nat>>) {
    periods != [] ==>
      var front := periods[..|periods| - 1];
      && SignalHistory(outbox, delivered, front)
      && IsFlush(OutboxAfter(outbox, front), DeliveredAfter(delivered, front), periods[|periods| - 1])
  }

  function DoneIn(periods: seq<Period<nat>>): nat {
    if periods == [] then 0 else DoneIn(periods[..|periods| - 1]) + periods[|periods| - 1].how
  }

  /** No event ever took a place before one that was published by the end of the same period. */
  predicate LateOnly(log: seq<string>, periods: seq<Period<nat>>) {
    periods != [] ==>
      && LateOnly(log, periods[..|periods| - 1])
      && NoneBefore(periods[|periods| - 1].arrivals, |Collapse(LogAfter(log, periods))|)
  }

  /** Nothing was published that had been logged, except the first event of a period as the last one before. */
  predicate AllImmediate(log: seq<string>, periods: seq<Period<nat>>) {
    periods != [] ==>
      var front := periods[..|periods| - 1];
      AllImmediate(log, front) && Immediate(LogAfter(log, front), periods[|periods| - 1].published)
  }

  /** What one period does to the relay, to the order of its log and to repetitions in it. */
  lemma SignalStep(outbox: seq<string>, delivered: set<string>, log: seq<string>, marked: nat, p: Period<nat>)
    requires RelayState(outbox, delivered, log, marked) && IsFlush(outbox, delivered, p)
    ensures RelayState(Arrived(outbox, p.arrivals), delivered + p.marks, log + p.published, marked + p.how)
    ensures Ordered(Arrived(outbox, p.arrivals), log + p.published) <==>
      Ordered(outbox, log) && NoneBefore(p.arrivals, |Collapse(log + p.published)|)
    ensures Ordered(outbox, log) && p.published != [] ==> |Collapse(log + p.published)| == marked + |p.published|
    ensures Once(log + p.published) <==> Once(log) && Immediate(log, p.published)
    ensures NoneOf(p.published, delivered)
  {
    var listed := Pending(outbox, delivered, BATCH);
    assert p.published == listed[..|p.published|] && p.published[..p.how] == listed[..p.how];
    PendingRows(outbox, delivered, BATCH);
    FlushEnds(outbox, delivered, log, BATCH, marked, p.how, |p.published|, delivered + p.marks, p.arrivals);
    FlushKeepsOrder(outbox, log, marked, p.published, p.arrivals);
    RepeatsStayImmediate(log, p.published);
  }

  /** Over any history the log is in outbox order at the end if and only if it was at the beginning and
      no event arrived too early; each event is logged once, up to immediate repetition, if and only if that
      was so and every period published so; and no marked event is published again. */
  lemma {:induction false} SignalRun(outbox: seq<string>, delivered: set<string>, log: seq<string>, marked: nat,
                                     periods: seq<Period<nat>>)
    requires RelayState(outbox, delivered, log, marked) && SignalHistory(outbox, delivered, periods)
    ensures RelayState(OutboxAfter(outbox, periods), DeliveredAfter(delivered, periods), LogAfter(log, periods),
                       marked + DoneIn(periods))
    ensures Ordered(OutboxAfter(outbox, periods), LogAfter(log, periods)) <==>
      Ordered(outbox, log) && LateOnly(log, periods)
    ensures Once(LogAfter(log, periods)) <==> Once(log) && AllImmediate(log, periods)
    ensures NothingRepublished(delivered, periods)
  {
    if periods != [] {
      var front, last := periods[..|periods| - 1], periods[|periods| - 1];
      SignalRun(outbox, delivered, log, marked, front);
      SignalStep(OutboxAfter(outbox, front), DeliveredAfter(delivered, front), LogAfter(log, front),
                 marked + DoneIn(front), last);
    }
  }

  /** Where nothing arrived, nothing arrived too early. */
  lemma {:induction false} NothingArrived(log: seq<string>, periods: seq<Period<nat>>)
    requires forall i :: 0 <= i < |periods| ==> periods[i].arrivals == []
    ensures LateOnly(log, periods)
  {
    if periods != [] {
      NothingArrived(log, periods[..|periods| - 1]);
    }
  }

  /** A log in the order of the outbox holds each event once. */
  lemma OrderedIsOnce(outbox: seq<string>, log: seq<string>)
    requires Distinct(outbox) && Ordered(outbox, log)
    ensures Once(log)
  {
    assert forall i :: 0 <= i < |Collapse(log)| ==> Collapse(log)[i] == outbox[i];
  }

  /** Without that order it need not: `b` is published, its mark is lost, and `a` arrives before it.  The
      next flush lists both, and the log becomes b, a, b. */
  lemma LostMarkIsRepeated(a: string, b: string)
    requires a != b
    ensures RelayState([b], {}, [b], 0) && Once([b])
    ensures var listed := Pending(Insert([b], 0, a), {}, BATCH);
            [b] + listed == [b, a, b] && !Immediate([b], listed) && !Once([b, a, b])
  {
    var outbox: seq<string> := [a, b];
    assert Insert([b], 0, a) == outbox;
    NothingDelivered(outbox);
    OneLogged(b);
    PublishedAgain([b], outbox, b);
    assert [b] + outbox == [b, a, b];
  }

  lemma PublishedAgain(log: seq<string>, events: seq<string>, b: string)
    requires |log| == 1 && log[0] == b && |events| == 2 && events[0] != b && events[1] == b
    ensures !Immediate(log, events) && !Once(log + events)
  {
    RepeatsStayImmediate(log, events);
  }

  lemma OneLogged(b: string)
    ensures RelayState([b], {}, [b], 0) && Collapse([b]) == [b] && Once([b])
  {
    CollapseAppend([], b);
    assert [] + [b] == [b];
  }

  lemma NothingDelivered(outbox: seq<string>)
    requires |outbox| <= BATCH
    ensures Pending(outbox, {}, BATCH) == outbox
  {
    UndeliveredAfterPrefix(outbox, {}, 0);
    assert outbox[0..] == outbox;
  }

  /** The relay stops at the first error.  The process may also die after any effect: an interrupted
      flush looks like a stopped one. */
  class SignalRelay {
    var outbox: seq<string>
    var delivered: set<string>
    var log: seq<string>

    ghost var marked: nat

    ghost predicate Valid()
      reads this
    {
      RelayState(outbox, delivered, log, marked)
    }

    ghost predicate InOrder()
      reads this
    {
      Ordered(outbox, log)
    }

    constructor ()
      ensures Valid() && InOrder() && outbox == [] && log == [] && delivered == {}
    {
      outbox, delivered, log := [], {}, [];
      marked := 0;
    }

    /** What the period says is what happened since. */
    twostate predicate Happened(new p: Period<nat>)
      reads this
    {
      && IsFlush(old(outbox), old(delivered), p) && outbox == Arrived(old(outbox), p.arrivals)
      && delivered == old(delivered) + p.marks && log == old(log) + p.published
    }

    /** Between two flushes events may arrive. */
    method Arrive() returns (ghost period: Period<nat>)
      requires Valid()
      modifies `outbox
      ensures Valid() && Happened(period) && period.published == []
      ensures InOrder() <==> old(InOrder()) && NoneBefore(period.arrivals, |Collapse(log)|)
    {
      ghost var arrivals := [];
      var after, arrived;
      after, arrived, arrivals := Receive(outbox, outbox, []);
      period := Period(arrivals, [], {}, 0);
      SignalStep(outbox, delivered, log, marked, period);
      assert log + [] == log && delivered + {} == delivered;
      outbox := after;
    }

    method Publish(event: string) returns (acknowledged: bool, ghost appended: bool)
      modifies `log
      ensures acknowledged ==> appended
      ensures log == if appended then old(log) + [event] else old(log)
    {
      acknowledged := *;
      var reached: bool := *;
      appended := acknowledged || reached;
      if acknowledged || reached {
        log := log + [event];
      }
    }

    method MarkPublished(event: string) returns (confirmed: bool, ghost stored: bool)
      modifies `delivered
      ensures confirmed ==> stored
      ensures delivered == if stored then old(delivered) + {event} else old(delivered)
    {
      confirmed := *;
      var reached: bool := *;
      stored := confirmed || reached;
      if confirmed || reached {
        delivered := delivered + {event};
      }
    }

    /** Publishes and marks the listed events in turn, up to the first error, while others arrive. */
    method FlushEvents(events: seq<string>)
      returns (flushed: bool, ghost done: nat, ghost sent: nat, ghost arrivals: seq<Arrival>)
      requires Distinct(outbox)
      modifies `outbox, `delivered, `log
      ensures Progressed(old(delivered), events, done, sent, delivered) && log == old(log) + events[..sent]
      ensures Fresh(old(outbox), arrivals) && outbox == Arrived(old(outbox), arrivals)
      ensures flushed ==> done == |events|
    {
      flushed, done, sent, arrivals := true, 0, 0, [];
      var i := 0;
      while flushed && i < |events|
        invariant 0 <= i <= |events| && Distinct(outbox)
        invariant Progressed(old(delivered), events, done, sent, delivered) && log == old(log) + events[..sent]
        invariant Fresh(old(outbox), arrivals) && outbox == Arrived(old(outbox), arrivals)
        invariant flushed ==> done == sent == i
        decreases |events| - i, flushed
      {
        ghost var appended, stored;
        assert events[..i + 1] == events[..i] + [events[i]];
        flushed, appended := Publish(events[i]);
        sent := if appended then i + 1 else i;
        if flushed {
          flushed, stored := MarkPublished(events[i]);
          done := if stored then i + 1 else i;
          i := i + 1;
        }
        var arrived;
        outbox, arrived, arrivals := Receive(outbox, old(outbox), arrivals);
      }
    }

    /** Whatever arrives and wherever: the log grows by the first events of the listing, in its order and
        once each; a finished flush marked all it listed.  The log is in outbox order afterwards if and
        only if it was before and nothing that arrived during the flush took a place before an event
        published by its end, which for a finished flush is the end of its listing.  Each event is logged
        once, up to immediate repetition, if and only if that was so before and nothing published had been
        logged, except the first event as the last one. */
    method Flush() returns (flushed: bool, events: seq<string>, ghost period: Period<nat>)
      requires Valid()
      modifies this
      ensures Valid() && Happened(period) && period.published <= events
      ensures events == [] || events == Pending(old(outbox), old(delivered), BATCH)
      ensures flushed ==> events == Pending(old(outbox), old(delivered), BATCH)
      ensures flushed ==> period.published == events && period.marks == Elements(events)
      ensures InOrder() <==> old(InOrder()) && NoneBefore(period.arrivals, |Collapse(log)|)
      ensures old(InOrder()) && period.published != [] ==> |Collapse(log)| == old(marked) + |period.published|
      ensures Once(log) <==> old(Once(log)) && Immediate(old(log), period.published)
    {
      var listed: bool := *;
      flushed, events := listed, [];
      if listed {
        events := Pending(outbox, delivered, BATCH);
      }
      ghost var done, sent, arrivals;
      var finished;
      finished, done, sent, arrivals := FlushEvents(events);
      flushed := flushed && finished;
      period := Period(arrivals, events[..sent], Elements(events[..done]), done);
      assert events[..|events|] == events && events[..sent][..done] == events[..done];
      SignalStep(old(outbox), old(delivered), old(log), old(marked), period);
      marked := marked + done;
    }

    /** Any number of flushes, each possibly cut short, with events arriving at any place during and
        between them; the history they leave says all that happened.  A marked event is never published
        again; the log is in outbox order at the end if and only if no event arrived before one that was
        published by the end of the same period, so always when none arrived; and each event is logged once,
        up to immediate repetition, at least then, and exactly if no flush published an event that had been
        logged before another one. */
    method Operate(rounds: nat) returns (ghost periods: seq<Period<nat>>)
      requires Valid()
      modifies this
      ensures Valid() && SignalHistory(old(outbox), old(delivered), periods)
      ensures outbox == OutboxAfter(old(outbox), periods) && log == LogAfter(old(log), periods)
      ensures delivered == DeliveredAfter(old(delivered), periods)
      ensures NothingRepublished(old(delivered), periods)
      ensures InOrder() <==> old(InOrder()) && LateOnly(old(log), periods)
      ensures outbox == old(outbox) ==> (InOrder() <==> old(InOrder()))
      ensures Once(log) <==> old(Once(log)) && AllImmediate(old(log), periods)
      ensures InOrder() ==> Once(log)
    {
      periods := [];
      for i := 0 to rounds
        invariant Valid() && SignalHistory(old(outbox), old(delivered), periods)
        invariant outbox == OutboxAfter(old(outbox), periods) && log == LogAfter(old(log), periods)
        invariant delivered == DeliveredAfter(old(delivered), periods)
      {
        ghost var idle := Arrive();
        AfterOneMore(old(outbox), old(delivered), old(log), periods, idle);
        periods := periods + [idle];
        ghost var period;
        var flushed, events;
        flushed, events, period := Flush();
        AfterOneMore(old(outbox), old(delivered), old(log), periods, period);
        periods := periods + [period];
      }
      SignalRun(old(outbox), old(delivered), old(log), old(marked), periods);
      OutboxGrows(old(outbox), periods);
      if outbox == old(outbox) {
        NothingArrived(old(log), periods);
      }
      if InOrder() {
        OrderedIsOnce(outbox, log);
      }
    }
  }

  // ----- The CyberOps relay -----

  const CONNECT_BATCH := 50

  /** The log without any repetition: the order in which rows were published for the first time. */
  function First(log: seq<string>): (r: seq<string>)
    ensures forall x :: x in r <==> x in log
  {
    if log == [] then []
    else
      var front, last := log[..|log| - 1], log[|log| - 1];
      assert log == front + [last];
      First(front) + if last in front then [] else [last]
  }

  lemma FirstAppend(log: seq<string>, x: string)
    ensures First(log + [x]) == First(log) + if x in log then [] else [x]
  {
    assert (log + [x])[..|log|] == log;
  }

  /** The rows whose flag is set, among those that have one. */
  function Selected(rows: seq<string>, flags: seq<bool>): (r: seq<string>)
    requires |flags| <= |rows|
    ensures forall x :: x in r <==> exists i :: 0 <= i < |flags| && flags[i] && rows[i] == x
  {
    if flags == [] then []
    else
      var n := |flags| - 1;
      assert forall i :: 0 <= i < n ==> flags[..n][i] == flags[i];
      Selected(rows, flags[..n]) + if flags[n] then [rows[n]] else []
  }

  /** Row `k` was not published ahead of a listed one that never was. */
  predicate InTurn(log: seq<string>, listed: seq<string>, flags: seq<bool>, k: nat)
    requires |flags| <= |listed|
  {
    k < |flags| && flags[k] ==> forall j :: 0 <= j < k ==> flags[j] || listed[j] in log
  }

  predicate AllInTurn(log: seq<string>, listed: seq<string>, flags: seq<bool>)
    requires |flags| <= |listed|
  {
    forall k :: 0 <= k < |flags| ==> InTurn(log, listed, flags, k)
  }

  /** Where the first publications are a prefix of the rows, the next new one keeps that if and only if
      every row before it has been published. */
  lemma NextInTurn(rows: seq<string>, first: seq<string>, at: nat)
    requires Distinct(rows) && first <= rows && at < |rows| && rows[at] !in first
    ensures first + [rows[at]] <= rows <==> forall p :: 0 <= p < at ==> rows[p] in first
  {
    assert forall p :: 0 <= p < |first| ==> rows[p] == first[p];
    if first + [rows[at]] <= rows {
      assert rows[|first|] == (first + [rows[at]])[|first|] == rows[at];
      assert at == |first|;
    } else if |first| < at {
      assert rows[|first|] !in first;
    }
  }

  /** The rows published before the listed row `n` was tried. */
  predicate PublishedBy(log: seq<string>, listed: seq<string>, flags: seq<bool>, n: nat, x: string)
    requires n <= |flags| <= |listed|
  {
    x in log || x in Selected(listed, flags[..n])
  }

  /** The listed row `n` is in turn if and only if every row before it has been published. */
  lemma InTurnMeans(rows: seq<string>, delivered: set<string>, log: seq<string>, listed: seq<string>,
                    flags: seq<bool>, n: nat, at: nat)
    requires Distinct(listed) && n < |flags| <= |listed| && flags[n]
    requires ListedAt(rows, delivered, listed, n, at) && forall x :: x in delivered ==> x in log
    ensures InTurn(log, listed, flags, n) <==> forall p :: 0 <= p < at ==> PublishedBy(log, listed, flags, n, rows[p])
  {
    if InTurn(log, listed, flags, n) {
      forall p | 0 <= p < at
        ensures PublishedBy(log, listed, flags, n, rows[p])
      {
        TurnPublished(rows, delivered, log, listed, flags, n, at, p);
      }
    }
    if forall p :: 0 <= p < at ==> PublishedBy(log, listed, flags, n, rows[p]) {
      forall j | 0 <= j < n
        ensures flags[j] || listed[j] in log
      {
        PublishedTurn(rows, delivered, log, listed, flags, n, at, j);
      }
    }
  }

  lemma TurnPublished(rows: seq<string>, delivered: set<string>, log: seq<string>, listed: seq<string>,
                      flags: seq<bool>, n: nat, at: nat, p: nat)
    requires n < |flags| <= |listed| && flags[n] && InTurn(log, listed, flags, n) && p < at
    requires ListedAt(rows, delivered, listed, n, at) && forall x :: x in delivered ==> x in log
    ensures PublishedBy(log, listed, flags, n, rows[p])
  {
    if rows[p] !in delivered {
      var j :| 0 <= j < n && listed[..n][j] == rows[p];
      assert listed[j] in log || flags[..n][j];
    }
  }

  lemma PublishedTurn(rows: seq<string>, delivered: set<string>, log: seq<string>, listed: seq<string>,
                      flags: seq<bool>, n: nat, at: nat, j: nat)
    requires Distinct(listed) && n < |flags| <= |listed| && j < n
    requires ListedAt(rows, delivered, listed, n, at)
    requires forall p :: 0 <= p < at ==> PublishedBy(log, listed, flags, n, rows[p])
    ensures flags[j] || listed[j] in log
  {
    assert listed[j] in rows[..at];
    var p :| 0 <= p < at && rows[..at][p] == listed[j];
    assert PublishedBy(log, listed, flags, n, rows[p]);
    if listed[j] !in log {
      var i :| 0 <= i < n && flags[..n][i] && listed[i] == listed[j];
    }
  }

  /** Where a prefix holds the row at `at`, it holds those before it. */
  lemma BeforeMember(rows: seq<string>, first: seq<string>, at: nat)
    requires Distinct(rows) && first <= rows && at < |rows| && rows[at] in first
    ensures forall p :: 0 <= p < at ==> rows[p] in first
  {
    var q :| 0 <= q < |first| && first[q] == rows[at];
    assert rows[q] == first[q] && q == at;
    assert forall p :: 0 <= p < |first| ==> rows[p] == first[p];
  }

  /** One more publication, of the row at `at`. */
  lemma FirstStep(rows: seq<string>, before: seq<string>, at: nat)
    requires Distinct(rows) && at < |rows|
    ensures First(before + [rows[at]]) <= rows <==>
      First(before) <= rows && forall p :: 0 <= p < at ==> rows[p] in before
  {
    var first := First(before);
    FirstAppend(before, rows[at]);
    if first <= rows {
      if rows[at] in before {
        BeforeMember(rows, first, at);
      } else {
        NextInTurn(rows, first, at);
      }
    }
  }

  lemma InTurnStep(rows: seq<string>, delivered: set<string>, log: seq<string>, listed: seq<string>,
                   flags: seq<bool>, n: nat, at: nat)
    requires Distinct(rows) && Distinct(listed) && n < |flags| <= |listed| && flags[n]
    requires ListedAt(rows, delivered, listed, n, at) && forall x :: x in delivered ==> x in log
    ensures var before := log + Selected(listed, flags[..n]);
            First(before + [listed[n]]) <= rows <==> First(before) <= rows && InTurn(log, listed, flags, n)
  {
    var before := log + Selected(listed, flags[..n]);
    InTurnMeans(rows, delivered, log, listed, flags, n, at);
    FirstStep(rows, before, at);
    assert forall x :: x in before <==> PublishedBy(log, listed, flags, n, x);
  }

  /** The rows are published for the first time in their order if and only if they were so far and no
      row is published after an earlier one of the listing was not, unless that one had been before. */
  lemma {:induction false} OrderKept(rows: seq<string>, delivered: set<string>, log: seq<string>, limit: nat,
                                     flags: seq<bool>)
    requires Distinct(rows) && |flags| <= |Pending(rows, delivered, limit)|
    requires forall x :: x in delivered ==> x in log
    ensures First(log + Selected(Pending(rows, delivered, limit), flags)) <= rows <==>
      First(log) <= rows && AllInTurn(log, Pending(rows, delivered, limit), flags)
    decreases |flags|
  {
    var listed := Pending(rows, delivered, limit);
    PendingRows(rows, delivered, limit);
    if flags == [] {
      assert log + [] == log;
    } else {
      var n := |flags| - 1;
      OrderKept(rows, delivered, log, limit, flags[..n]);
      AllInTurnStep(log, listed, flags);
      if flags[n] {
        var at := PendingInOrder(rows, delivered, limit, n);
        InTurnStep(rows, delivered, log, listed, flags, n, at);
        assert log + Selected(listed, flags) == (log + Selected(listed, flags[..n])) + [listed[n]];
      } else {
        assert Selected(listed, flags) == Selected(listed, flags[..n]);
      }
    }
  }

  lemma AllInTurnStep(log: seq<string>, listed: seq<string>, flags: seq<bool>)
    requires flags != [] && |flags| <= |listed|
    ensures AllInTurn(log, listed, flags) <==>
      AllInTurn(log, listed, flags[..|flags| - 1]) && InTurn(log, listed, flags, |flags| - 1)
  {
    var front := flags[..|flags| - 1];
    forall k | 0 <= k < |front|
      ensures InTurn(log, listed, front, k) <==> InTurn(log, listed, flags, k)
    {
    }
  }

  /** Of the rows tried, those that were acknowledged reached the log. */
  predicate AckedAreSent(acks: seq<bool>, sent: seq<bool>) {
    |acks| == |sent| && forall i :: 0 <= i < |acks| && acks[i] ==> sent[i]
  }

  function AttemptsOf(attempts: map<string, nat>, row: string): nat {
    if row in attempts then attempts[row] else 0
  }

  /** Attempts were counted for none but the rows tried. */
  ghost predicate SameAttempts(before: map<string, nat>, after: map<string, nat>, tried: seq<string>) {
    forall x :: x !in tried ==> AttemptsOf(after, x) == AttemptsOf(before, x)
  }

  lemma SameAttemptsStep(a: map<string, nat>, b: map<string, nat>, c: map<string, nat>, listed: seq<string>, n: nat)
    requires n < |listed| && SameAttempts(a, b, listed[..n]) && SameAttempts(b, c, [listed[n]])
    ensures SameAttempts(a, c, listed[..n + 1])
  {
    assert listed[..n + 1] == listed[..n] + [listed[n]];
  }

  /** A flush tried as many of the listed rows as `acks` has answers: those it could decode; the ones that
      reached the log did so in list order, and those acknowledged are among them. */
  predicate Tried(listed: seq<string>, acks: seq<bool>, sent: seq<bool>, log0: seq<string>, log: seq<string>,
                  decodable: set<string>)
  {
    && |acks| <= |listed| && AckedAreSent(acks, sent) && log == log0 + Selected(listed, sent)
    && forall i :: 0 <= i < |acks| ==> listed[i] in decodable
  }

  /** The rows a flush listed, and which of those it tried reached the log. */
  datatype Tries = Tries(listed: seq<string>, sent: seq<bool>)

  /** A period of the CyberOps relay: of the listed rows it tried, those with a flag reached the log, and only
      such were marked. */
  predicate IsConnectFlush(rows: seq<string>, delivered: set<string>, p: Period<Tries>) {
    && Fresh(rows, p.arrivals) && (p.how.listed == [] || p.how.listed == Pending(rows, delivered, CONNECT_BATCH))
    && |p.how.sent| <= |p.how.listed| && p.published == Selected(p.how.listed, p.how.sent)
    && p.marks <= Elements(p.published)
  }

  predicate ConnectHistory(rows: seq<string>, delivered: set<string>, periods: seq<Period<Tries>>) {
    periods != [] ==>
      var front := periods[..|periods| - 1];
      && ConnectHistory(rows, delivered, front)
      && IsConnectFlush(OutboxAfter(rows, front), DeliveredAfter(delivered, front), periods[|periods| - 1])
  }

  /** Every row of the period reached the log in its turn. */
  predicate TookTurns(log: seq<string>, p: Period<Tries>) {
    |p.how.sent| <= |p.how.listed| && AllInTurn(log, p.how.listed, p.how.sent)
  }

  /** Every row reached the log in its turn, and none arrived before one published by the end of the period. */
  predicate Steady(log: seq<string>, periods: seq<Period<Tries>>) {
    periods != [] ==>
      var front, last := periods[..|periods| - 1], periods[|periods| - 1];
      && Steady(log, front) && TookTurns(LogAfter(log, front), last)
      && NoneBefore(last.arrivals, |First(LogAfter(log, periods))|)
  }

  /** Whatever is marked was published, and whatever was published is a row. */
  predicate ConnectState(rows: seq<string>, delivered: set<string>, log: seq<string>) {
    Distinct(rows) && KnownOnly(log, rows) && forall x :: x in delivered ==> x in log
  }

  /** What one period does to the relay and to the order of first publication. */
  lemma ConnectStep(rows: seq<string>, delivered: set<string>, log: seq<string>, p: Period<Tries>)
    requires ConnectState(rows, delivered, log) && IsConnectFlush(rows, delivered, p)
    ensures ConnectState(Arrived(rows, p.arrivals), delivered + p.marks, log + p.published)
    ensures First(log + p.published) <= Arrived(rows, p.arrivals) <==>
      First(log) <= rows && TookTurns(log, p) && NoneBefore(p.arrivals, |First(log + p.published)|)
    ensures NoneOf(p.published, delivered)
  {
    var limit := if p.how.listed == [] then 0 else CONNECT_BATCH;
    assert p.how.listed == Pending(rows, delivered, limit);
    PendingRows(rows, delivered, limit);
    OrderKept(rows, delivered, log, limit, p.how.sent);
    SelectedOf(p.how.listed, p.how.sent, p.how.sent);
    ArrivedElements(rows, p.arrivals);
    LateArrivals(rows, First(log + p.published), p.arrivals);
  }

  /** Over any history rows reach the log for the first time in the order of the outbox if and only if they
      did so before, every one took its turn, and none arrived too early; and no marked row is published
      again. */
  lemma {:induction false} ConnectRun(rows: seq<string>, delivered: set<string>, log: seq<string>,
                                      periods: seq<Period<Tries>>)
    requires ConnectState(rows, delivered, log) && ConnectHistory(rows, delivered, periods)
    ensures ConnectState(OutboxAfter(rows, periods), DeliveredAfter(delivered, periods), LogAfter(log, periods))
    ensures First(LogAfter(log, periods)) <= OutboxAfter(rows, periods) <==> First(log) <= rows && Steady(log, periods)
    ensures NothingRepublished(delivered, periods)
  {
    if periods != [] {
      var front, last := periods[..|periods| - 1], periods[|periods| - 1];
      ConnectRun(rows, delivered, log, front);
      ConnectStep(OutboxAfter(rows, front), DeliveredAfter(delivered, front), LogAfter(log, front), last);
    }
  }

  /** The CyberOps relay: it goes on after a publish error, and stops on headers it cannot decode or a
      mark that fails. */
  class ConnectRelay {
    var rows: seq<string>
    var decodable: set<string>
    var delivered: set<string>
    var attempts: map<string, nat>
    var log: seq<string>

    /** Whatever is marked was published, and nothing undecodable ever is. */
    ghost predicate Valid()
      reads this
    {
      ConnectState(rows, delivered, log) && forall x :: x in log ==> x in decodable
    }

    /** Rows were published for the first time in the order of the outbox, none left out. */
    ghost predicate InOrder()
      reads this
    {
      First(log) <= rows
    }

    /** The headers of all rows can be decoded, as those of every row the persister writes. */
    ghost predicate Encoded()
      reads this
    {
      forall x :: x in rows ==> x in decodable
    }

    constructor ()
      ensures Valid() && InOrder() && Encoded() && rows == [] && log == [] && delivered == {}
    {
      rows, decodable, delivered, attempts, log := [], {}, {}, map[], [];
    }

    /** What the period says is what happened since. */
    twostate predicate Happened(new p: Period<Tries>)
      reads this
    {
      && IsConnectFlush(old(rows), old(delivered), p) && rows == Arrived(old(rows), p.arrivals)
      && delivered == old(delivered) + p.marks && log == old(log) + p.published
    }

    /** One row: published and marked, or counted as an attempt.  A publication that reports an error
        may have reached the log. */
    method Try(row: string) returns (ack: bool, ok: bool, ghost appended: bool)
      requires row !in delivered
      modifies `delivered, `attempts, `log
      ensures ack ==> appended
      ensures log == if appended then old(log) + [row] else old(log)
      ensures delivered == old(delivered) || (ack && delivered == old(delivered) + {row})
      ensures SameAttempts(old(attempts), attempts, [row])
      ensures AttemptsOf(old(attempts), row) <= AttemptsOf(attempts, row) <= AttemptsOf(old(attempts), row) + 1
      ensures !ack ==> ok
      ensures ok && ack ==> row in delivered && AttemptsOf(attempts, row) == AttemptsOf(old(attempts), row) + 1
    {
      ack := *;
      var reached: bool, stored: bool, confirmed: bool := *, *, *;
      ok, appended := !ack || confirmed, ack || reached;
      if ack || reached {
        log := log + [row];
      }
      if ack && (stored || confirmed) {
        delivered, attempts := delivered + {row}, attempts[row := AttemptsOf(attempts, row) + 1];
      } else if !ack && stored {
        attempts := attempts[row := AttemptsOf(attempts, row) + 1];
      }
    }

    /** New rows, which the persister writes with headers it encoded itself, may arrive. */
    method Persist(ghost before: seq<string>, ghost given: seq<Arrival>) returns (ghost arrivals: seq<Arrival>)
      requires Distinct(before) && Fresh(before, given) && rows == Arrived(before, given)
      modifies `rows, `decodable
      ensures given <= arrivals && Fresh(before, arrivals) && rows == Arrived(before, arrivals)
      ensures Distinct(rows) && KnownOnly(old(rows), rows)
      ensures old(decodable) <= decodable && (old(Encoded()) ==> Encoded())
    {
      var arrived;
      rows, arrived, arrivals := Receive(rows, before, given);
      decodable := decodable + Elements(arrived);
    }

    /** Between two flushes rows may arrive. */
    method Arrive() returns (ghost period: Period<Tries>)
      requires Valid()
      modifies `rows, `decodable
      ensures Valid() && (old(Encoded()) ==> Encoded()) && Happened(period) && period.how == Tries([], [])
      ensures InOrder() <==> old(InOrder()) && NoneBefore(period.arrivals, |First(log)|)
    {
      ghost var arrivals := Persist(rows, []);
      period := Period(arrivals, [], {}, Tries([], []));
      ConnectStep(old(rows), delivered, log, period);
      assert log + [] == log && delivered + {} == delivered;
    }

    /** Tries the listed row after those whose acknowledgements are `acks`. */
    method TryNext(listed: seq<string>, acks: seq<bool>, ghost sent: seq<bool>, ghost log0: seq<string>,
                   ghost delivered0: set<string>, ghost attempts0: map<string, nat>)
      returns (ok: bool, more: seq<bool>, ghost moreSent: seq<bool>)
      requires Tried(listed, acks, sent, log0, log, decodable)
      requires |acks| < |listed| && listed[|acks|] !in delivered
      requires delivered == delivered0 + Elements(Selected(listed, acks))
      requires SameAttempts(attempts0, attempts, listed[..|acks|])
      modifies `delivered, `attempts, `log
      ensures Tried(listed, more, moreSent, log0, log, decodable)
      ensures SameAttempts(attempts0, attempts, listed[..|more|])
      ensures more == acks || (|more| == |acks| + 1 && more[..|acks|] == acks)
      ensures ok ==> |more| == |acks| + 1 && delivered == delivered0 + Elements(Selected(listed, more))
      ensures old(delivered) <= delivered <= delivered0 + Elements(Selected(listed, more))
      ensures delivered <= old(delivered) + {listed[|acks|]}
      ensures !ok ==> if |acks| < |more| then more[|acks|] else listed[|acks|] !in decodable
    {
      var row := listed[|acks|];
      if row !in decodable {
        ok, more, moreSent := false, acks, sent;
      } else {
        var ack;
        ghost var appended;
        ack, ok, appended := Try(row);
        TriedStep(listed, acks, sent, log0, old(log), decodable, ack, appended);
        SameAttemptsStep(attempts0, old(attempts), attempts, listed, |acks|);
        more, moreSent := acks + [ack], sent + [appended];
      }
    }

    /** Tries the listed rows in turn, up to an error that stops the flush or the end of the process,
        while others arrive.  `sent` tells which of the tried rows reached the log. */
    method TryAll(listed: seq<string>)
      returns (ok: bool, killed: bool, acks: seq<bool>, ghost sent: seq<bool>, ghost arrivals: seq<Arrival>)
      requires Distinct(rows) && Distinct(listed) && KnownOnly(listed, rows)
      requires forall x :: x in listed ==> x !in delivered
      modifies `rows, `decodable, `delivered, `attempts, `log
      ensures Fresh(old(rows), arrivals) && rows == Arrived(old(rows), arrivals)
      ensures old(decodable) <= decodable && (old(Encoded()) ==> Encoded())
      ensures Tried(listed, acks, sent, old(log), log, decodable)
      ensures SameAttempts(old(attempts), attempts, listed[..|acks|])
      ensures ok ==> |acks| == |listed| && delivered == old(delivered) + Elements(Selected(listed, acks))
      ensures old(delivered) <= delivered <= old(delivered) + Elements(Selected(listed, acks))
      ensures !ok && !killed && old(Encoded()) ==> acks != [] && acks[|acks| - 1]
    {
      killed := *;
      ok, acks, sent, arrivals := !killed, [], [], [];
      while ok && |acks| < |listed|
        invariant Tried(listed, acks, sent, old(log), log, decodable)
        invariant SameAttempts(old(attempts), attempts, listed[..|acks|])
        invariant Fresh(old(rows), arrivals) && rows == Arrived(old(rows), arrivals)
        invariant old(decodable) <= decodable && (old(Encoded()) ==> Encoded()) && KnownOnly(listed, rows)
        invariant forall j :: |acks| <= j < |listed| && ok ==> listed[j] !in delivered
        invariant ok ==> delivered == old(delivered) + Elements(Selected(listed, acks))
        invariant old(delivered) <= delivered <= old(delivered) + Elements(Selected(listed, acks))
        invariant !ok && !killed && old(Encoded()) ==> acks != [] && acks[|acks| - 1]
        decreases |listed| - |acks|, ok
      {
        assert listed[|acks|] in rows;
        ok, acks, sent := TryNext(listed, acks, sent, old(log), old(delivered), old(attempts));
        arrivals := Persist(old(rows), arrivals);
        if ok {
          killed := *;
          ok := !killed;
        }
      }
    }

    /** Whatever arrives and wherever: the tried rows that reached the log did so in list order; what was
        acknowledged is among them and marked (the last of it perhaps not, if the store failed or the
        process ended); with encoded headers and a living process a flush stops early only after an
        acknowledged row.  The order of first publication is that of the outbox afterwards if and only if
        it was before, every row reached the log in its turn, and no arrival took a place before a row
        published by then. */
    method Flush()
      returns (ok: bool, killed: bool, listed: seq<string>, acks: seq<bool>, ghost sent: seq<bool>,
               ghost period: Period<Tries>)
      requires Valid()
      modifies this
      ensures Valid() && (old(Encoded()) ==> Encoded())
      ensures listed == [] || listed == Pending(old(rows), old(delivered), CONNECT_BATCH)
      ensures Tried(listed, acks, sent, old(log), log, decodable)
      ensures SameAttempts(old(attempts), attempts, listed[..|acks|])
      ensures forall i :: |old(log)| <= i < |log| ==> log[i] !in old(delivered)
      ensures ok ==> |acks| == |listed| && delivered == old(delivered) + Elements(Selected(listed, acks))
      ensures period.marks <= Elements(Selected(listed, acks))
      ensures !ok && !killed && listed != [] && old(Encoded()) ==> acks != [] && acks[|acks| - 1]
      ensures Happened(period) && period.how == Tries(listed, sent)
      ensures InOrder() <==> old(InOrder()) && TookTurns(old(log), period) && NoneBefore(period.arrivals, |First(log)|)
    {
      var readable: bool := *;
      listed := if readable then Pending(rows, delivered, CONNECT_BATCH) else [];
      ghost var limit := if readable then CONNECT_BATCH else 0;
      ghost var arrivals;
      PendingRows(rows, delivered, limit);
      ok, killed, acks, sent, arrivals := TryAll(listed);
      ok := ok && readable;
      SelectedOf(listed, acks, sent);
      period := Period(arrivals, Selected(listed, sent), delivered - old(delivered), Tries(listed, sent));
      ConnectStep(old(rows), old(delivered), old(log), period);
      assert delivered == old(delivered) + period.marks;
    }

    /** Any number of flushes with rows arriving at any place during and between them; the history they leave
        says all that happened. */
    method Operate(rounds: nat) returns (ghost periods: seq<Period<Tries>>)
      requires Valid()
      modifies this
      ensures Valid() && (old(Encoded()) ==> Encoded()) && ConnectHistory(old(rows), old(delivered), periods)
      ensures rows == OutboxAfter(old(rows), periods) && log == LogAfter(old(log), periods)
      ensures delivered == DeliveredAfter(old(delivered), periods)
      ensures NothingRepublished(old(delivered), periods)
      ensures InOrder() <==> old(InOrder()) && Steady(old(log), periods)
    {
      periods := [];
      for i := 0 to rounds
        invariant Valid() && (old(Encoded()) ==> Encoded()) && ConnectHistory(old(rows), old(delivered), periods)
        invariant rows == OutboxAfter(old(rows), periods) && log == LogAfter(old(log), periods)
        invariant delivered == DeliveredAfter(old(delivered), periods)
      {
        ghost var idle := Arrive();
        AfterOneMore(old(rows), old(delivered), old(log), periods, idle);
        periods := periods + [idle];
        ghost var sent, period;
        var ok, killed, listed, acks;
        ok, killed, listed, acks, sent, period := Flush();
        AfterOneMore(old(rows), old(delivered), old(log), periods, period);
        periods := periods + [period];
      }
      ConnectRun(old(rows), old(delivered), old(log), periods);
    }
  }

  /** What was selected by the acknowledgements is selected by what reached the log. */
  lemma SelectedOf(listed: seq<string>, acks: seq<bool>, sent: seq<bool>)
    requires |acks| <= |listed| && AckedAreSent(acks, sent)
    ensures forall x :: x in Selected(listed, acks) ==> x in Selected(listed, sent)
    ensures forall i :: 0 <= i < |Selected(listed, sent)| ==> Selected(listed, sent)[i] in listed
  {
    assert forall i :: 0 <= i < |Selected(listed, sent)| ==> Selected(listed, sent)[i] in Selected(listed, sent);
  }

  /** One more row is tried. */
  lemma TriedStep(listed: seq<string>, acks: seq<bool>, sent: seq<bool>, log0: seq<string>, log: seq<string>,
                  decodable: set<string>, ack: bool, appended: bool)
    requires Tried(listed, acks, sent, log0, log, decodable) && |acks| < |listed|
    requires listed[|acks|] in decodable && (ack ==> appended)
    ensures Tried(listed, acks + [ack], sent + [appended], log0,
                  log + if appended then [listed[|acks|]] else [], decodable)
    ensures Elements(Selected(listed, acks + [ack]))
         == Elements(Selected(listed, acks)) + if ack then {listed[|acks|]} else {}
  {
    var row := listed[|acks|];
    SelectedStep(listed, acks, ack);
    SelectedStep(listed, sent, appended);
    LastElement(Selected(listed, acks), row);
    var reached: seq<string> := if appended then [row] else [];
    assert (log0 + Selected(listed, sent)) + reached == log0 + (Selected(listed, sent) + reached);
    assert AckedAreSent(acks + [ack], sent + [appended]);
  }

  lemma LastElement(s: seq<string>, x: string)
    ensures Elements(s + [x]) == Elements(s) + {x} && Elements(s + []) == Elements(s)
  {
    assert forall y :: y in s + [x] <==> y in s || y == x;
    assert s + [] == s;
  }

  lemma SelectedStep(listed: seq<string>, acks: seq<bool>, ack: bool)
    requires |acks| < |listed|
    ensures Selected(listed, acks + [ack]) == Selected(listed, acks) + if ack then [listed[|acks|]] else []
  {
    assert (acks + [ack])[..|acks|] == acks;
  }
}
