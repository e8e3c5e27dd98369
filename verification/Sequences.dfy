/** Logs of brokers that may hold an event several times in a row. */
module Sequences {

  /** The log without immediate repetitions. */
  function Collapse<T(==)>(log: seq<T>): seq<T> {
    if log == [] then []
    else
      var n := |log| - 1;
      if 0 < n && log[n - 1] == log[n] then Collapse(log[..n]) else Collapse(log[..n]) + [log[n]]
  }

  lemma {:induction false} CollapseLast<T>(log: seq<T>)
    requires log != []
    ensures Collapse(log) != [] && Collapse(log)[|Collapse(log)| - 1] == log[|log| - 1]
  {
    if 1 < |log| && log[|log| - 2] == log[|log| - 1] {
      CollapseLast(log[..|log| - 1]);
    }
  }

  lemma {:induction false} CollapseElements<T>(log: seq<T>)
    ensures forall x :: x in Collapse(log) <==> x in log
  {
    if log != [] {
      CollapseElements(log[..|log| - 1]);
      assert log == log[..|log| - 1] + [log[|log| - 1]];
      assert 1 < |log| ==> log[|log| - 2] in log[..|log| - 1];
    }
  }

  lemma CollapseAppend<T>(log: seq<T>, e: T)
    ensures Collapse(log + [e]) == if log != [] && log[|log| - 1] == e then Collapse(log) else Collapse(log) + [e]
  {
    assert (log + [e])[..|log|] == log;
  }

  function Copies<T>(n: nat, x: T): (r: seq<T>)
    ensures |r| == n && forall i :: 0 <= i < n ==> r[i] == x
  {
    seq(n, _ => x)
  }

  /** Copies of an event that was not the last one count once. */
  lemma {:induction false} CollapseCopies<T>(log: seq<T>, n: nat, x: T)
    requires log == [] || log[|log| - 1] != x
    ensures Collapse(log + Copies(n, x)) == if n == 0 then Collapse(log) else Collapse(log) + [x]
  {
    if n == 0 {
      assert log + Copies(n, x) == log;
    } else {
      var front := log + Copies(n - 1, x);
      CollapseCopies(log, n - 1, x);
      OneMoreCopy(log, n - 1, x);
      CollapseAppend(front, x);
    }
  }

  lemma OneMoreCopy<T>(log: seq<T>, n: nat, x: T)
    ensures log + Copies(n + 1, x) == (log + Copies(n, x)) + [x]
    ensures if n == 0 then log + Copies(n, x) == log else (log + Copies(n, x))[|log| + n - 1] == x
  {
    assert Copies(n + 1, x) == Copies(n, x) + [x];
  }
}
