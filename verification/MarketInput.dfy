/** Point-in-time market input of the signal assurance worker
    (cmd/marketops-signal-assurance-worker/main.go): prices and sessions known at a given time. */
module MarketInput {
  import opened TextKeys

  datatype Option<T> = None | Some(value: T)

  datatype Payload = Payload(symbol: string, ticker: string, close: real)

  /** A ledger event; `payload` is None when it cannot be decoded. Times are seconds. */
  datatype Event = Event(observed: int, processed: int, payload: Option<Payload>)

  datatype ClosePoint = ClosePoint(session: int, price: real)

  const DAY := 86_400

  /** Midnight UTC before a time. */
  function Date(time: int): (d: int)
    ensures d <= time < d + DAY && d % DAY == 0
  {
    time - time % DAY
  }

  function UpperChar(c: char): char {
    if 'a' <= c <= 'z' then c - 'a' + 'A' else c
  }

  function Upper(s: string): string {
    seq(|s|, i requires 0 <= i < |s| => UpperChar(s[i]))
  }

  /** The symbol, or the ticker when there is none. */
  function TickerOf(p: Payload): string {
    if Upper(Trim(p.symbol)) != "" then Upper(Trim(p.symbol)) else Upper(Trim(p.ticker))
  }

  /** The event is known at `asOf` and carries a usable close. */
  predicate Visible(e: Event, asOf: int) {
    && e.observed <= asOf && e.processed <= asOf
    && e.payload.Some? && e.payload.value.close > 0.0 && TickerOf(e.payload.value) != ""
  }

  /** The event is a visible close of the ticker. */
  predicate Quotes(e: Event, ticker: string, asOf: int) {
    Visible(e, asOf) && TickerOf(e.payload.value) == ticker
  }

  function PointOf(e: Event): ClosePoint
    requires e.payload.Some?
  {
    ClosePoint(Date(e.observed), e.payload.value.close)
  }

  /** The visible closes of a ticker, in ledger order. */
  function PointsFor(events: seq<Event>, ticker: string, asOf: int): seq<ClosePoint> {
    if events == [] then []
    else
      var e := events[|events| - 1];
      PointsFor(events[..|events| - 1], ticker, asOf) + if Quotes(e, ticker, asOf) then [PointOf(e)] else []
  }

  lemma {:induction false} PointsAreQuotes(events: seq<Event>, ticker: string, asOf: int, p: ClosePoint)
    ensures p in PointsFor(events, ticker, asOf) <==>
      exists e :: e in events && Quotes(e, ticker, asOf) && PointOf(e) == p
  {
    if events != [] {
      var front, last := events[..|events| - 1], events[|events| - 1];
      PointsAreQuotes(front, ticker, asOf, p);
      assert forall e :: e in events <==> e in front || e == last;
    }
  }

  // ----- What the input means -----

  /** The price is a close of the ticker's latest visible session. */
  ghost predicate IsLatestPrice(price: Option<real>, events: seq<Event>, ticker: string, asOf: int) {
    match price
    case None => forall e :: e in events ==> !Quotes(e, ticker, asOf)
    case Some(v) =>
      exists e :: IsLatest(e, events, ticker, asOf) && e.payload.value.close == v
  }

  /** A visible close of the ticker's latest visible session. */
  predicate IsLatest(e: Event, events: seq<Event>, ticker: string, asOf: int) {
    && e in events && Quotes(e, ticker, asOf)
    && forall x :: x in events && Quotes(x, ticker, asOf) ==> Date(x.observed) <= Date(e.observed)
  }

  /** The ticker's visible sessions from the day of confirmation on. */
  function Sessions(events: seq<Event>, ticker: string, confirmed: int, asOf: int): set<int> {
    set e | e in events && Quotes(e, ticker, asOf) && Date(e.observed) >= Date(confirmed) :: Date(e.observed)
  }

  /** Two ledgers agree on everything known at `asOf`. */
  ghost predicate AgreeAt(a: seq<Event>, b: seq<Event>, asOf: int) {
    forall e :: Visible(e, asOf) ==> (e in a <==> e in b)
  }

  /** All closes of the ticker's latest session are the same. */
  predicate LatestCloseIsUnique(events: seq<Event>, ticker: string, asOf: int) {
    forall x, y | x in events && y in events ::
      IsLatest(x, events, ticker, asOf) && IsLatest(y, events, ticker, asOf) ==>
      x.payload.value.close == y.payload.value.close
  }

  // ----- The computation -----

  function Get(points: map<string, seq<ClosePoint>>, ticker: string): seq<ClosePoint> {
    if ticker in points then points[ticker] else []
  }

  predicate Ascending(s: seq<ClosePoint>) {
    forall i, j :: 0 <= i < j < |s| ==> s[i].session <= s[j].session
  }

  function Insert(sorted: seq<ClosePoint>, v: ClosePoint): (r: seq<ClosePoint>)
    requires Ascending(sorted)
    ensures Ascending(r) && |r| == |sorted| + 1 && multiset(r) == multiset(sorted) + multiset{v}
    ensures r[|sorted|].session ==
      if sorted == [] || sorted[|sorted| - 1].session <= v.session then v.session else sorted[|sorted| - 1].session
  {
    if sorted == [] || sorted[|sorted| - 1].session <= v.session then sorted + [v]
    else
      var front, last := sorted[..|sorted| - 1], sorted[|sorted| - 1];
      assert sorted == front + [last];
      Insert(front, v) + [last]
  }

  /** One way to order closes by session. */
  function Sorted(values: seq<ClosePoint>): (r: seq<ClosePoint>)
    ensures IsOrderOf(r, values)
  {
    if values == [] then []
    else
      var front, last := values[..|values| - 1], values[|values| - 1];
      assert values == front + [last];
      Insert(Sorted(front), last)
  }

  /** The same closes in session order; nothing is said about the order inside a session. */
  predicate IsOrderOf(sorted: seq<ClosePoint>, values: seq<ClosePoint>) {
    Ascending(sorted) && multiset(sorted) == multiset(values)
  }

  /** The last close of a session not after `asOf`. */
  function LastClose(sorted: seq<ClosePoint>, asOf: int): Option<real> {
    if sorted == [] then None
    else if sorted[|sorted| - 1].session <= asOf then Some(sorted[|sorted| - 1].price)
    else LastClose(sorted[..|sorted| - 1], asOf)
  }

  /** The price is the last close in some order the sort may give. */
  ghost predicate CanAnswer(price: Option<real>, values: seq<ClosePoint>, asOf: int) {
    exists sorted :: IsOrderOf(sorted, values) && LastClose(sorted, asOf) == price
  }

  method SortBySession(values: seq<ClosePoint>) returns (sorted: seq<ClosePoint>)
    ensures IsOrderOf(sorted, values)
  {
    sorted := [];
    for i := 0 to |values|
      invariant IsOrderOf(sorted, values[..i])
    {
      sorted := Insert(sorted, values[i]);
      assert values[..i + 1] == values[..i] + [values[i]];
    }
    assert values[..|values|] == values;
  }

  method Latest(values: seq<ClosePoint>, asOf: int) returns (price: Option<real>)
    ensures CanAnswer(price, values, asOf)
  {
    var sorted := SortBySession(values);
    price := None;
    for i := 0 to |sorted|
      invariant price == LastClose(sorted[..i], asOf)
    {
      assert sorted[..i + 1][..i] == sorted[..i];
      if sorted[i].session <= asOf {
        price := Some(sorted[i].price);
      } else {
        LaterSessions(sorted, i, asOf);
      }
    }
    assert sorted[..|sorted|] == sorted;
  }

  /** From the first session after `asOf` on, nothing changes. */
  lemma LaterSessions(sorted: seq<ClosePoint>, i: nat, asOf: int)
    requires i < |sorted| && asOf < sorted[i].session
    ensures LastClose(sorted[..i + 1], asOf) == LastClose(sorted[..i], asOf)
  {
    assert sorted[..i + 1][..i] == sorted[..i];
  }

  method MarketInput(events: seq<Event>, symbol: string, benchmark: string, confirmed: int, asOf: int)
    returns (price: Option<real>, benchmarkPrice: Option<real>, sessionCount: nat)
    ensures IsLatestPrice(price, events, Upper(symbol), asOf)
    ensures IsLatestPrice(benchmarkPrice, events, Upper(benchmark), asOf)
    ensures sessionCount == |Sessions(events, Upper(symbol), confirmed, asOf)|
  {
    var points: map<string, seq<ClosePoint>> := map[];
    for i := 0 to |events|
      invariant forall t :: Get(points, t) == PointsFor(events[..i], t, asOf)
    {
      var e := events[i];
      assert events[..i + 1][..i] == events[..i] && events[..i + 1][i] == e;
      if Visible(e, asOf) {
        var ticker := TickerOf(e.payload.value);
        points := points[ticker := Get(points, ticker) + [PointOf(e)]];
      }
    }
    assert events[..|events|] == events;
    price := LatestOf(events, Get(points, Upper(symbol)), Upper(symbol), asOf);
    benchmarkPrice := LatestOf(events, Get(points, Upper(benchmark)), Upper(benchmark), asOf);
    sessionCount := CountSessions(events, Get(points, Upper(symbol)), Upper(symbol), confirmed, asOf);
  }

  method LatestOf(ghost events: seq<Event>, values: seq<ClosePoint>, ghost ticker: string, asOf: int)
    returns (price: Option<real>)
    requires values == PointsFor(events, ticker, asOf)
    ensures IsLatestPrice(price, events, ticker, asOf)
  {
    price := Latest(values, asOf);
    AnswersAreLatest(events, ticker, asOf, price);
  }

  method CountSessions(ghost events: seq<Event>, values: seq<ClosePoint>, ghost ticker: string, confirmed: int,
                       asOf: int)
    returns (count: nat)
    requires values == PointsFor(events, ticker, asOf)
    ensures count == |Sessions(events, ticker, confirmed, asOf)|
  {
    var sessions: set<int> := {};
    for i := 0 to |values|
      invariant sessions == set p | p in values[..i] && Date(confirmed) <= p.session <= asOf :: p.session
    {
      assert values[..i + 1] == values[..i] + [values[i]];
      if Date(confirmed) <= values[i].session <= asOf {
        sessions := sessions + {values[i].session};
      }
    }
    assert values[..|values|] == values;
    forall p
      ensures p in values <==> exists e :: e in events && Quotes(e, ticker, asOf) && PointOf(e) == p
    {
      PointsAreQuotes(events, ticker, asOf, p);
    }
    assert sessions == Sessions(events, ticker, confirmed, asOf);
    count := |sessions|;
  }

  // ----- No look-ahead -----

  /** What happens or is recorded after `asOf` does not show: ledgers that agree on what was known then
      give the same session count and, when the latest close is unambiguous, the same price. */
  lemma NoLookAhead(a: seq<Event>, b: seq<Event>, ticker: string, confirmed: int, asOf: int, p: Option<real>,
                    q: Option<real>)
    requires AgreeAt(a, b, asOf)
    ensures Sessions(a, ticker, confirmed, asOf) == Sessions(b, ticker, confirmed, asOf)
    ensures LatestCloseIsUnique(a, ticker, asOf) ==>
      IsLatestPrice(p, a, ticker, asOf) && IsLatestPrice(q, b, ticker, asOf) ==> p == q
  {
    assert forall e :: Quotes(e, ticker, asOf) ==> (e in a <==> e in b);
    assert forall e :: IsLatest(e, a, ticker, asOf) <==> IsLatest(e, b, ticker, asOf);
  }

  /** All visible closes are of sessions not after `asOf`, so the last one in any order is the answer. */
  lemma LastOfAll(sorted: seq<ClosePoint>, events: seq<Event>, ticker: string, asOf: int)
    requires IsOrderOf(sorted, PointsFor(events, ticker, asOf))
    ensures LastClose(sorted, asOf) == if sorted == [] then None else Some(sorted[|sorted| - 1].price)
  {
    if sorted != [] {
      var last := sorted[|sorted| - 1];
      assert last in multiset(sorted);
      PointsAreQuotes(events, ticker, asOf, last);
    }
  }

  /** Whatever the sort does inside a session, the answer is a close of the latest one, and every close of
      the latest session is an answer. */
  lemma AnswersAreLatest(events: seq<Event>, ticker: string, asOf: int, price: Option<real>)
    ensures CanAnswer(price, PointsFor(events, ticker, asOf), asOf) <==> IsLatestPrice(price, events, ticker, asOf)
  {
    var values := PointsFor(events, ticker, asOf);
    if CanAnswer(price, values, asOf) {
      var sorted :| IsOrderOf(sorted, values) && LastClose(sorted, asOf) == price;
      AnswerIsLatest(sorted, events, ticker, asOf);
    }
    if IsLatestPrice(price, events, ticker, asOf) {
      LatestIsAnswer(events, ticker, asOf, price);
    }
  }

  lemma OrderHasQuotes(sorted: seq<ClosePoint>, events: seq<Event>, ticker: string, asOf: int, p: ClosePoint)
    requires IsOrderOf(sorted, PointsFor(events, ticker, asOf))
    ensures p in sorted <==> exists e :: e in events && Quotes(e, ticker, asOf) && PointOf(e) == p
  {
    assert p in sorted <==> p in multiset(PointsFor(events, ticker, asOf));
    PointsAreQuotes(events, ticker, asOf, p);
  }

  lemma AnswerIsLatest(sorted: seq<ClosePoint>, events: seq<Event>, ticker: string, asOf: int)
    requires IsOrderOf(sorted, PointsFor(events, ticker, asOf))
    ensures IsLatestPrice(LastClose(sorted, asOf), events, ticker, asOf)
  {
    LastOfAll(sorted, events, ticker, asOf);
    forall x | x in events && Quotes(x, ticker, asOf)
      ensures PointOf(x) in sorted
    {
      OrderHasQuotes(sorted, events, ticker, asOf, PointOf(x));
    }
    if sorted != [] {
      var last := sorted[|sorted| - 1];
      OrderHasQuotes(sorted, events, ticker, asOf, last);
      var e :| e in events && Quotes(e, ticker, asOf) && PointOf(e) == last;
      AtMostLast(sorted);
      assert IsLatest(e, events, ticker, asOf);
    }
  }

  lemma AtMostLast(sorted: seq<ClosePoint>)
    requires Ascending(sorted) && sorted != []
    ensures forall p :: p in sorted ==> p.session <= sorted[|sorted| - 1].session
  {
  }

  lemma LatestIsAnswer(events: seq<Event>, ticker: string, asOf: int, price: Option<real>)
    requires IsLatestPrice(price, events, ticker, asOf)
    ensures CanAnswer(price, PointsFor(events, ticker, asOf), asOf)
  {
    var values := PointsFor(events, ticker, asOf);
    if price.None? {
      if values != [] {
        PointsAreQuotes(events, ticker, asOf, values[0]);
      }
      assert IsOrderOf([], values) && LastClose([], asOf) == None;
    } else {
      var e :| IsLatest(e, events, ticker, asOf) && e.payload.value.close == price.value;
      PointsAreQuotes(events, ticker, asOf, PointOf(e));
      forall x | x in values
        ensures x.session <= PointOf(e).session
      {
        PointsAreQuotes(events, ticker, asOf, x);
      }
      var sorted := PutLast(values, PointOf(e));
      LastOfAll(sorted, events, ticker, asOf);
    }
  }

  /** An order of the closes in which a given close of the latest session comes last. */
  lemma PutLast(values: seq<ClosePoint>, p: ClosePoint) returns (sorted: seq<ClosePoint>)
    requires p in values && forall x :: x in values ==> x.session <= p.session
    ensures IsOrderOf(sorted, values) && sorted != [] && sorted[|sorted| - 1] == p
  {
    var n :| 0 <= n < |values| && values[n] == p;
    var rest := values[..n] + values[n + 1..];
    var front := Sorted(rest);
    sorted := front + [p];
    Without(values, n);
    forall i | 0 <= i < |front|
      ensures front[i].session <= p.session
    {
      assert front[i] in multiset(front);
    }
  }

  lemma Without(values: seq<ClosePoint>, n: nat)
    requires n < |values|
    ensures multiset(values[..n] + values[n + 1..]) + multiset{values[n]} == multiset(values)
    ensures forall x :: x in multiset(values[..n] + values[n + 1..]) ==> x in values
  {
    assert values == values[..n] + [values[n]] + values[n + 1..];
  }

  /** The price is the same for every order the sort may give exactly when the closes of the latest session
      agree. */
  lemma PriceIsDetermined(events: seq<Event>, ticker: string, asOf: int)
    ensures LatestCloseIsUnique(events, ticker, asOf) <==> OneAnswer(PointsFor(events, ticker, asOf), asOf)
  {
    var values := PointsFor(events, ticker, asOf);
    if LatestCloseIsUnique(events, ticker, asOf) {
      forall p, q | CanAnswer(p, values, asOf) && CanAnswer(q, values, asOf)
        ensures p == q
      {
        AnswersAreLatest(events, ticker, asOf, p);
        AnswersAreLatest(events, ticker, asOf, q);
      }
    }
    if OneAnswer(values, asOf) {
      forall x, y | IsLatest(x, events, ticker, asOf) && IsLatest(y, events, ticker, asOf)
        ensures x.payload.value.close == y.payload.value.close
      {
        AnswersAreLatest(events, ticker, asOf, Some(x.payload.value.close));
        AnswersAreLatest(events, ticker, asOf, Some(y.payload.value.close));
      }
    }
  }

  /** All orders give the same price. */
  ghost predicate OneAnswer(values: seq<ClosePoint>, asOf: int) {
    forall p, q :: CanAnswer(p, values, asOf) && CanAnswer(q, values, asOf) ==> p == q
  }
}
