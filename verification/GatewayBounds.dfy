/** What fixed windows and a token bucket bound over any span of time, given the log they produce. */
module GatewayBounds {
  // ---------------------------------------------------------------- fixed windows

  const MINUTE: real := 60000.0
  const TEN_SECONDS: real := 10000.0

  datatype Window = Window(start: real, count: nat)

  /** Count one attempt, starting the window over when it has run out. */
  function Increment(w: Window, now: real, duration: real): Window {
    if now - w.start >= duration then Window(now, 1) else Window(w.start, w.count + 1)
  }

  /** One attempt: when, in which window, and whether it was let in. */
  datatype Mark = Mark(time: real, start: real, admitted: bool)

  function AdmittedAt(log: seq<Mark>, start: real): nat {
    if log == [] then 0
    else
      var m := log[|log| - 1];
      AdmittedAt(log[..|log| - 1], start) + if m.admitted && m.start == start then 1 else 0
  }

  /** Admissions with a time in [from, to]. */
  function AdmittedIn(log: seq<Mark>, from: real, to: real): nat {
    if log == [] then 0
    else
      var m := log[|log| - 1];
      AdmittedIn(log[..|log| - 1], from, to) + if m.admitted && from <= m.time <= to then 1 else 0
  }

  /** It is the number of admitted marks in the span. */
  lemma {:induction false} AdmittedInCounts(log: seq<Mark>, from: real, to: real)
    ensures AdmittedIn(log, from, to) == |set i | 0 <= i < |log| && log[i].admitted && from <= log[i].time <= to|
  {
    if log != [] {
      var n := |log| - 1;
      AdmittedInCounts(log[..n], from, to);
      var before := set i | 0 <= i < |log[..n]| && log[..n][i].admitted && from <= log[..n][i].time <= to;
      var all := set i | 0 <= i < |log| && log[i].admitted && from <= log[i].time <= to;
      assert all == before + (if log[n].admitted && from <= log[n].time <= to then {n} else {});
    }
  }

  /** Windows start in order, a minute apart, cover their attempts, and admit at most the limit. */
  predicate WindowsOk(log: seq<Mark>, limit: nat) {
    && (forall i :: 0 <= i < |log| ==> log[i].start <= log[i].time < log[i].start + MINUTE)
    && (forall i, j :: 0 <= i < j < |log| ==> log[i].start == log[j].start || log[i].start + MINUTE <= log[j].start)
    && (forall i :: 0 <= i < |log| ==> AdmittedAt(log, log[i].start) <= limit)
  }

  /** If every admission in the span belongs to one of two windows, the two counts cover them. */
  lemma {:induction false} TwoWindowsCover(log: seq<Mark>, from: real, to: real, s: real, t: real)
    requires forall i :: 0 <= i < |log| && log[i].admitted && from <= log[i].time <= to ==> log[i].start == s || log[i].start == t
    ensures AdmittedIn(log, from, to) <= AdmittedAt(log, s) + AdmittedAt(log, t)
  {
    if log != [] { TwoWindowsCover(log[..|log| - 1], from, to, s, t); }
  }

  predicate InSpan(m: Mark, from: real, to: real) { m.admitted && from <= m.time <= to }

  lemma {:induction false} NoneInSpan(log: seq<Mark>, from: real, to: real)
    requires forall i :: 0 <= i < |log| ==> !InSpan(log[i], from, to)
    ensures AdmittedIn(log, from, to) == 0
  {
    if log != [] { NoneInSpan(log[..|log| - 1], from, to); }
  }

  lemma FirstInSpan(log: seq<Mark>, from: real, to: real) returns (k: nat)
    requires exists i :: 0 <= i < |log| && InSpan(log[i], from, to)
    ensures k < |log| && InSpan(log[k], from, to) && forall i :: 0 <= i < k ==> !InSpan(log[i], from, to)
  {
    k := 0;
    while !InSpan(log[k], from, to)
      invariant k < |log| && forall i :: 0 <= i < k ==> !InSpan(log[i], from, to)
      invariant exists i :: k <= i < |log| && InSpan(log[i], from, to)
      decreases |log| - k
    {
      k := k + 1;
    }
  }

  /** Three windows cannot meet in less than a minute. */
  lemma OtherWindowIsOne(log: seq<Mark>, limit: nat, from: real, to: real, k: nat, i: nat, j: nat)
    requires WindowsOk(log, limit) && to - from < MINUTE
    requires k <= i < |log| && k <= j < |log| && InSpan(log[k], from, to) && InSpan(log[i], from, to) && InSpan(log[j], from, to)
    requires log[i].start != log[k].start && log[j].start != log[k].start
    ensures log[i].start == log[j].start
  {}

  /** Any span shorter than a minute holds at most twice the per-minute limit of admissions. */
  lemma SpanHoldsTwiceTheLimit(log: seq<Mark>, limit: nat, from: real, to: real)
    requires WindowsOk(log, limit) && to - from < MINUTE
    ensures AdmittedIn(log, from, to) <= 2 * limit
  {
    if exists i :: 0 <= i < |log| && InSpan(log[i], from, to) {
      var k := FirstInSpan(log, from, to);
      var s := log[k].start;
      if exists j :: k <= j < |log| && InSpan(log[j], from, to) && log[j].start != s {
        var j :| k <= j < |log| && InSpan(log[j], from, to) && log[j].start != s;
        forall i | 0 <= i < |log| && InSpan(log[i], from, to) ensures log[i].start == s || log[i].start == log[j].start {
          if log[i].start != s { OtherWindowIsOne(log, limit, from, to, k, i, j); }
        }
        TwoWindowsCover(log, from, to, s, log[j].start);
      } else {
        TwoWindowsCover(log, from, to, s, s);
      }
    } else {
      NoneInSpan(log, from, to);
    }
  }

  /** The windowed counter and the log it produced. */
  predicate CounterOk(log: seq<Mark>, limit: nat, start: real, count: nat) {
    && WindowsOk(log, limit)
    && (forall i :: 0 <= i < |log| ==> log[i].start == start || log[i].start + MINUTE <= start)
    && AdmittedAt(log, start) <= count
  }

  lemma {:induction false} NewWindowIsEmpty(log: seq<Mark>, start: real)
    requires forall i :: 0 <= i < |log| ==> log[i].start != start
    ensures AdmittedAt(log, start) == 0
  {
    if log != [] { NewWindowIsEmpty(log[..|log| - 1], start); }
  }

  lemma AdmittedAppend(log: seq<Mark>, m: Mark, s: real)
    ensures AdmittedAt(log + [m], s) == AdmittedAt(log, s) + if m.admitted && m.start == s then 1 else 0
  {
    assert (log + [m])[..|log|] == log;
  }

  /** One more counted attempt, admitted only while the count is within the limit. */
  lemma CountAttempt(log: seq<Mark>, limit: nat, start: real, count: nat, m: Mark)
    requires CounterOk(log, limit, start, count)
    requires m.start == start <= m.time < start + MINUTE
    requires m.admitted ==> count + 1 <= limit
    ensures CounterOk(log + [m], limit, start, count + 1)
  {
    var after := log + [m];
    AdmittedAppend(log, m, start);
    forall i | 0 <= i < |after| ensures AdmittedAt(after, after[i].start) <= limit {
      AdmittedAppend(log, m, after[i].start);
      if i < |log| {
        assert after[i] == log[i];
      } else if !m.admitted {
        CountedBefore(log, limit, start);
      }
    }
  }

  lemma CountedBefore(log: seq<Mark>, limit: nat, start: real)
    requires WindowsOk(log, limit)
    ensures AdmittedAt(log, start) <= limit
  {
    if exists i :: 0 <= i < |log| && log[i].start == start {
      var i :| 0 <= i < |log| && log[i].start == start;
    } else {
      NewWindowIsEmpty(log, start);
    }
  }

  /** A new window a minute or more after the last one. */
  lemma OpenWindow(log: seq<Mark>, limit: nat, start: real)
    requires WindowsOk(log, limit) && forall i :: 0 <= i < |log| ==> log[i].start + MINUTE <= start
    ensures CounterOk(log, limit, start, 0)
  {
    NewWindowIsEmpty(log, start);
  }

  // ---------------------------------------------------------------- the token bucket

  /** One accounted transfer: tokens left after it, and whether it passed. */
  datatype Transfer = Transfer(time: real, bytes: nat, tokens: real, passed: bool)

  function Refill(rate: real, span: real): real { rate * span }

  predicate BucketOk(log: seq<Transfer>, burst: real, rate: real) {
    && (forall i :: 0 <= i < |log| ==> log[i].tokens <= burst - log[i].bytes as real && (log[i].passed ==> log[i].tokens >= 0.0))
    && (forall i :: 0 <= i < |log| - 1 ==>
          && log[i].time <= log[i + 1].time
          && log[i + 1].tokens <= log[i].tokens + Refill(rate, log[i + 1].time - log[i].time) - log[i + 1].bytes as real)
  }

  /** All bytes of transfers i..j, and those that passed. */
  function Bytes(log: seq<Transfer>, i: nat, j: nat): nat
    requires i <= j < |log|
    decreases j
  {
    log[j].bytes + if i == j then 0 else Bytes(log, i, j - 1)
  }

  function Passed(log: seq<Transfer>, i: nat, j: nat): nat
    requires i <= j < |log|
    decreases j
  {
    (if log[j].passed then log[j].bytes else 0) + if i == j then 0 else Passed(log, i, j - 1)
  }

  lemma {:induction false} PassedIsPart(log: seq<Transfer>, i: nat, j: nat)
    requires i <= j < |log|
    ensures Passed(log, i, j) <= Bytes(log, i, j)
    decreases j
  {
    if i < j { PassedIsPart(log, i, j - 1); }
  }

  lemma {:induction false} TimesRise(log: seq<Transfer>, burst: real, rate: real, i: nat, j: nat)
    requires BucketOk(log, burst, rate) && i <= j < |log|
    ensures log[i].time <= log[j].time
    decreases j
  {
    if i < j { TimesRise(log, burst, rate, i, j - 1); }
  }

  lemma RefillAdds(rate: real, a: real, b: real, c: real)
    ensures Refill(rate, c - a) == Refill(rate, b - a) + Refill(rate, c - b)
  {
    assert c - a == (b - a) + (c - b);
  }

  lemma RefillRises(rate: real, a: real, b: real)
    requires rate >= 0.0 && a <= b
    ensures Refill(rate, a) <= Refill(rate, b)
  {}

  lemma {:induction false} BucketBalance(log: seq<Transfer>, burst: real, rate: real, i: nat, j: nat)
    requires BucketOk(log, burst, rate) && i <= j < |log|
    ensures Bytes(log, i, j) as real <= burst + Refill(rate, log[j].time - log[i].time) - log[j].tokens
    decreases j
  {
    if i < j {
      BucketBalance(log, burst, rate, i, j - 1);
      RefillAdds(rate, log[i].time, log[j - 1].time, log[j].time);
    } else {
      assert Refill(rate, log[j].time - log[i].time) == 0.0;
    }
  }

  /** The bytes a session passes over any stretch of calls are at most the burst plus the rate times
      the time between the first and the last of them. */
  lemma {:induction false} PassedIsBounded(log: seq<Transfer>, burst: real, rate: real, i: nat, j: nat)
    requires BucketOk(log, burst, rate) && i <= j < |log| && rate >= 0.0 && burst >= 0.0
    ensures Passed(log, i, j) as real <= burst + Refill(rate, log[j].time - log[i].time)
    decreases j
  {
    if log[j].passed {
      BucketBalance(log, burst, rate, i, j);
      PassedIsPart(log, i, j);
    } else if i < j {
      PassedIsBounded(log, burst, rate, i, j - 1);
      TimesRise(log, burst, rate, j - 1, j);
      RefillRises(rate, log[j - 1].time - log[i].time, log[j].time - log[i].time);
    } else {
      assert Refill(rate, log[j].time - log[i].time) == 0.0;
    }
  }
}
