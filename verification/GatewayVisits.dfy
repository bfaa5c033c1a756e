/** The visits of one address: every attempt with the two windows it left behind. A record of the
    address lives for one minute window and restarts both windows when it is made anew. */
module GatewayVisits {
  import opened GatewayBounds

  datatype Windows = Windows(minute: Window, burst: Window)
  datatype Visit = Visit(time: real, windows: Windows, admitted: bool)

  // ---------------------------------------------------------------- the log

  /** The first visit of a record. */
  predicate Opens(v: Visit) { v.windows == Windows(Window(v.time, 1), Window(v.time, 1)) }

  predicate SameRecord(u: Visit, v: Visit) { u.windows.minute.start == v.windows.minute.start }

  predicate SameBurst(u: Visit, v: Visit) { u.windows.burst.start == v.windows.burst.start }

  /** The next visit is counted in the record of the one before, or opens a record a minute later. */
  predicate Follows(u: Visit, v: Visit) {
    && u.time <= v.time
    && if SameRecord(u, v)
       then v.windows == Windows(Window(u.windows.minute.start, u.windows.minute.count + 1), Increment(u.windows.burst, v.time, TEN_SECONDS))
       else Opens(v) && u.windows.minute.start + MINUTE <= v.time
  }

  /** Where a visit lies in its windows, and what its counts say about earlier visits. */
  predicate Shape(v: Visit) {
    var m, b := v.windows.minute, v.windows.burst;
    && m.start <= v.time < m.start + MINUTE
    && b.start <= v.time < b.start + TEN_SECONDS
    && (b.start == m.start || m.start + TEN_SECONDS <= b.start)
    && 1 <= b.count <= m.count
    && (b.start != v.time ==> b.count >= 2)
    && (b.start != m.start ==> b.count < m.count)
  }

  predicate WithinLimits(v: Visit, perTen: nat, perMinute: nat) {
    v.admitted ==> v.windows.burst.count <= perTen && v.windows.minute.count <= perMinute
  }

  predicate Linked(log: seq<Visit>, i: nat)
    requires 1 <= i < |log|
  {
    Follows(log[i - 1], log[i])
  }

  predicate VisitsOk(log: seq<Visit>, perTen: nat, perMinute: nat) {
    && (forall i :: 0 <= i < |log| ==> Shape(log[i]) && WithinLimits(log[i], perTen, perMinute))
    && (forall i :: 1 <= i < |log| ==> Linked(log, i))
  }

  lemma FollowerShape(u: Visit, v: Visit)
    requires Shape(u) && Follows(u, v) && v.time < v.windows.minute.start + MINUTE
    ensures Shape(v)
  {}

  lemma VisitAppended(log: seq<Visit>, v: Visit, perTen: nat, perMinute: nat)
    requires VisitsOk(log, perTen, perMinute) && WithinLimits(v, perTen, perMinute)
    requires if log == [] then Opens(v)
             else Follows(log[|log| - 1], v) && v.time < v.windows.minute.start + MINUTE
    ensures VisitsOk(log + [v], perTen, perMinute)
  {
    var after := log + [v];
    forall i | 1 <= i < |after| ensures Linked(after, i) {
      if i < |log| { assert Linked(log, i); }
    }
    if log != [] { FollowerShape(log[|log| - 1], v); }
  }

  // ---------------------------------------------------------------- counting admissions

  predicate InSpan(v: Visit, from: real, to: real) { v.admitted && from <= v.time <= to }

  /** Admissions with a time in [from, to]. */
  function VisitsIn(log: seq<Visit>, from: real, to: real): nat {
    if log == [] then 0
    else VisitsIn(log[..|log| - 1], from, to) + if InSpan(log[|log| - 1], from, to) then 1 else 0
  }

  /** Admissions among visits i..j, the last one excluded. */
  function Admissions(log: seq<Visit>, i: nat, j: nat): nat
    requires i <= j <= |log|
    decreases j
  {
    if i == j then 0 else Admissions(log, i, j - 1) + if log[j - 1].admitted then 1 else 0
  }

  lemma {:induction false} AdmissionsSplit(log: seq<Visit>, i: nat, k: nat, j: nat)
    requires i <= k <= j <= |log|
    ensures Admissions(log, i, j) == Admissions(log, i, k) + Admissions(log, k, j)
    decreases j
  {
    if k < j { AdmissionsSplit(log, i, k, j - 1); }
  }

  lemma {:induction false} AtMostAll(log: seq<Visit>, i: nat, j: nat)
    requires i <= j <= |log|
    ensures Admissions(log, i, j) <= j - i
    decreases j
  {
    if i < j { AtMostAll(log, i, j - 1); }
  }

  lemma {:induction false} AdmissionsGrow(log: seq<Visit>, v: Visit, i: nat, j: nat)
    requires i <= j <= |log|
    ensures Admissions(log + [v], i, j) == Admissions(log, i, j)
    decreases j
  {
    if i < j { AdmissionsGrow(log, v, i, j - 1); }
  }

  // ---------------------------------------------------------------- what one window holds

  /** How the windows stand at a visit n places later. */
  predicate Later(u: Visit, v: Visit, n: nat) {
    var m, b, m', b' := u.windows.minute, u.windows.burst, v.windows.minute, v.windows.burst;
    && u.time <= v.time && b.start <= b'.start
    && (if SameRecord(u, v) then m'.count == m.count + n else m.start + MINUTE <= m'.start)
    && (SameBurst(u, v) ==> SameRecord(u, v) && b'.count == b.count + n)
    && (SameRecord(u, v) && !SameBurst(u, v) ==> b.start + TEN_SECONDS <= b'.start)
  }

  lemma LaterStep(u: Visit, v: Visit, w: Visit, n: nat)
    requires Shape(u) && Shape(v) && Later(u, v, n) && Follows(v, w)
    ensures Later(u, w, n + 1)
  {}

  lemma {:induction false} Along(log: seq<Visit>, perTen: nat, perMinute: nat, i: nat, j: nat)
    requires VisitsOk(log, perTen, perMinute) && i <= j < |log|
    ensures Later(log[i], log[j], j - i)
    decreases j
  {
    if i < j {
      Along(log, perTen, perMinute, i, j - 1);
      assert Linked(log, j);
      LaterStep(log[i], log[j - 1], log[j], j - 1 - i);
    }
  }

  /** A stretch of one burst window holds what the limit leaves after its first visit. */
  lemma {:induction false} BurstHolds(log: seq<Visit>, perTen: nat, perMinute: nat, i: nat, j: nat)
    requires VisitsOk(log, perTen, perMinute) && i < j <= |log| && SameBurst(log[i], log[j - 1])
    ensures Admissions(log, i, j) == 0 || Admissions(log, i, j) <= perTen + 1 - log[i].windows.burst.count
    decreases j
  {
    AtMostAll(log, i, j);
    Along(log, perTen, perMinute, i, j - 1);
    if !log[j - 1].admitted && i < j - 1 {
      Along(log, perTen, perMinute, i, j - 2);
      Along(log, perTen, perMinute, j - 2, j - 1);
      BurstHolds(log, perTen, perMinute, i, j - 1);
    }
  }

  /** Likewise a stretch of one record. */
  lemma {:induction false} RecordHolds(log: seq<Visit>, perTen: nat, perMinute: nat, i: nat, j: nat)
    requires VisitsOk(log, perTen, perMinute) && i < j <= |log| && SameRecord(log[i], log[j - 1])
    ensures Admissions(log, i, j) == 0 || Admissions(log, i, j) <= perMinute + 1 - log[i].windows.minute.count
    decreases j
  {
    AtMostAll(log, i, j);
    Along(log, perTen, perMinute, i, j - 1);
    if !log[j - 1].admitted && i < j - 1 {
      Along(log, perTen, perMinute, i, j - 2);
      Along(log, perTen, perMinute, j - 2, j - 1);
      RecordHolds(log, perTen, perMinute, i, j - 1);
    }
  }

  // ---------------------------------------------------------------- a span as a stretch of visits

  /** The visits of a span are consecutive. */
  lemma {:induction false} SpanIsStretch(log: seq<Visit>, perTen: nat, perMinute: nat, from: real, to: real) returns (p: nat, q: nat)
    requires VisitsOk(log, perTen, perMinute)
    ensures p <= q <= |log| && VisitsIn(log, from, to) == Admissions(log, p, q)
    ensures forall k :: p <= k < q ==> from <= log[k].time <= to
    ensures log != [] && log[|log| - 1].time <= to ==> q == |log|
    ensures log != [] && log[|log| - 1].time < from ==> p == q == |log|
  {
    if log == [] { return 0, 0; }
    var n := |log| - 1;
    var front, v := log[..n], log[n];
    assert log == front + [v];
    forall i | 1 <= i < n ensures Linked(front, i) { assert Linked(log, i); }
    p, q := SpanIsStretch(front, perTen, perMinute, from, to);
    AdmissionsGrow(front, v, p, q);
    if n > 0 { assert Linked(log, n); }
    if v.time < from {
      p, q := |log|, |log|;
    } else if v.time <= to {
      q := |log|;
    }
  }

  /** Where the record of visit p ends. */
  lemma RecordEnd(log: seq<Visit>, perTen: nat, perMinute: nat, p: nat, q: nat) returns (r: nat)
    requires VisitsOk(log, perTen, perMinute) && p < q <= |log|
    ensures p < r <= q && SameRecord(log[p], log[r - 1]) && (r < q ==> !SameRecord(log[p], log[r]))
  {
    r := p + 1;
    while r < q && SameRecord(log[p], log[r])
      invariant p < r <= q && SameRecord(log[p], log[r - 1])
    {
      r := r + 1;
    }
  }

  /** Where the burst window of visit p ends. */
  lemma BurstEnd(log: seq<Visit>, perTen: nat, perMinute: nat, p: nat, q: nat) returns (t: nat)
    requires VisitsOk(log, perTen, perMinute) && p < q <= |log|
    ensures p < t <= q && SameBurst(log[p], log[t - 1]) && (t < q ==> !SameBurst(log[p], log[t]))
  {
    t := p + 1;
    while t < q && SameBurst(log[p], log[t])
      invariant p < t <= q && SameBurst(log[p], log[t - 1])
    {
      t := t + 1;
    }
  }

  // ---------------------------------------------------------------- a minute

  /** Less than a minute meets at most two records. */
  lemma MinuteHoldsTwiceTheLimit(log: seq<Visit>, perTen: nat, perMinute: nat, from: real, to: real)
    requires VisitsOk(log, perTen, perMinute) && to - from < MINUTE
    ensures VisitsIn(log, from, to) <= 2 * perMinute
  {
    var p, q := SpanIsStretch(log, perTen, perMinute, from, to);
    if p < q {
      var r := RecordEnd(log, perTen, perMinute, p, q);
      AdmissionsSplit(log, p, r, q);
      RecordHolds(log, perTen, perMinute, p, r);
      if r < q {
        Along(log, perTen, perMinute, p, r);
        Along(log, perTen, perMinute, r, q - 1);
        RecordHolds(log, perTen, perMinute, r, q);
      }
    }
  }

  // ---------------------------------------------------------------- ten seconds

  /** What less than ten seconds can hold: twice the burst limit, or more when the end of one record
      and the start of the next meet in it and the per-minute limit leaves room for both. */
  function BurstBound(perTen: nat, perMinute: nat): nat {
    if perTen <= 1 || perMinute <= perTen + 2 then 2 * perTen
    else perTen + if 2 * perTen - 1 <= perMinute - 2 then 2 * perTen - 1 else perMinute - 2
  }

  /** Less than ten seconds of one record meet at most two of its burst windows. */
  lemma OneRecordHolds(log: seq<Visit>, perTen: nat, perMinute: nat, p: nat, r: nat)
    requires VisitsOk(log, perTen, perMinute) && p < r <= |log| && SameRecord(log[p], log[r - 1])
    requires log[r - 1].time - log[p].time < TEN_SECONDS
    ensures SameBurst(log[p], log[r - 1]) ==> Admissions(log, p, r) <= perTen
    ensures !SameBurst(log[p], log[r - 1]) ==>
              && Admissions(log, p, r) <= 2 * perTen - (if perTen == 0 then 0 else 1)
              && log[p].windows.burst.count >= 2
  {
    var t := BurstEnd(log, perTen, perMinute, p, r);
    AdmissionsSplit(log, p, t, r);
    BurstHolds(log, perTen, perMinute, p, t);
    Along(log, perTen, perMinute, p, r - 1);
    if t < r {
      Along(log, perTen, perMinute, p, t);
      Along(log, perTen, perMinute, t, r - 1);
      BurstHolds(log, perTen, perMinute, t, r);
    }
  }

  /** The start of the next record fits in one burst window. */
  lemma NextRecordHolds(log: seq<Visit>, perTen: nat, perMinute: nat, p: nat, r: nat, q: nat)
    requires VisitsOk(log, perTen, perMinute) && p < r < q <= |log| && !SameRecord(log[p], log[r])
    requires log[q - 1].time - log[p].time < TEN_SECONDS
    ensures Admissions(log, r, q) <= perTen
  {
    Along(log, perTen, perMinute, p, r);
    Along(log, perTen, perMinute, r, q - 1);
    BurstHolds(log, perTen, perMinute, r, q);
  }

  /** When a record with two burst windows in the span also ends in it, two earlier visits of that
      record lie before the span. */
  lemma EndingRecordHolds(log: seq<Visit>, perTen: nat, perMinute: nat, p: nat, r: nat)
    requires VisitsOk(log, perTen, perMinute) && p < r < |log| && SameRecord(log[p], log[r - 1]) && !SameRecord(log[p], log[r])
    requires log[r].time - log[p].time < TEN_SECONDS && log[p].windows.burst.count >= 2
    ensures Admissions(log, p, r) == 0 || Admissions(log, p, r) <= perMinute - 2
  {
    Along(log, perTen, perMinute, p, r);
    RecordHolds(log, perTen, perMinute, p, r);
  }

  /** Any span shorter than ten seconds. */
  lemma TenSecondsHold(log: seq<Visit>, perTen: nat, perMinute: nat, from: real, to: real)
    requires VisitsOk(log, perTen, perMinute) && to - from < TEN_SECONDS
    ensures VisitsIn(log, from, to) <= BurstBound(perTen, perMinute)
  {
    var p, q := SpanIsStretch(log, perTen, perMinute, from, to);
    if p < q {
      var r := RecordEnd(log, perTen, perMinute, p, q);
      AdmissionsSplit(log, p, r, q);
      OneRecordHolds(log, perTen, perMinute, p, r);
      if r < q {
        NextRecordHolds(log, perTen, perMinute, p, r, q);
        if !SameBurst(log[p], log[r - 1]) { EndingRecordHolds(log, perTen, perMinute, p, r); }
      }
    }
  }

  /** While one record lasts, twice the limit does hold. */
  lemma TenSecondsOfOneRecord(log: seq<Visit>, perTen: nat, perMinute: nat, from: real, to: real)
    requires VisitsOk(log, perTen, perMinute) && to - from < TEN_SECONDS
    requires forall u, v :: u in log && v in log && from <= u.time <= to && from <= v.time <= to ==> SameRecord(u, v)
    ensures VisitsIn(log, from, to) <= 2 * perTen
  {
    var p, q := SpanIsStretch(log, perTen, perMinute, from, to);
    if p < q { OneRecordHolds(log, perTen, perMinute, p, q); }
  }

  lemma {:induction false} VisitsInAppend(log: seq<Visit>, more: seq<Visit>, from: real, to: real)
    ensures VisitsIn(log + more, from, to) == VisitsIn(log, from, to) + VisitsIn(more, from, to)
    decreases |more|
  {
    if more == [] {
      assert log + more == log;
    } else {
      assert (log + more)[..|log + more| - 1] == log + more[..|more| - 1];
      VisitsInAppend(log, more[..|more| - 1], from, to);
    }
  }
}
