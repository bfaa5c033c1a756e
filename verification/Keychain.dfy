/** The keychain: an append-only list of epoch keys carried by an edit history, merged by prefix with
    a byte-order tie-break. What the CRDT engine makes of a set of changes is an input. */
module Keychain {
  import opened Common

  const MAX_EPOCHS: nat := 1000

  datatype KeyEntry = KeyEntry(id: nat, key: nat)

  /** A keychain document: its visible entries and the full list of encoded changes behind them. */
  datatype Doc = Doc(entries: seq<KeyEntry>, history: seq<Bytes>)

  predicate Canonical(entries: seq<KeyEntry>) {
    |entries| <= MAX_EPOCHS && forall i, j :: 0 <= i < j < |entries| ==> entries[i].id != entries[j].id
  }

  // ---------------------------------------------------------------- comparing histories

  function CompareBytes(a: Bytes, b: Bytes): int {
    if a == [] || b == [] then |a| - |b|
    else if a[0] != b[0] then (a[0] as int) - (b[0] as int)
    else CompareBytes(a[1..], b[1..])
  }

  function CompareHistories(a: seq<Bytes>, b: seq<Bytes>): int {
    if a == [] || b == [] then |a| - |b|
    else if CompareBytes(a[0], b[0]) != 0 then CompareBytes(a[0], b[0])
    else CompareHistories(a[1..], b[1..])
  }

  method CompareBytesLoop(left: Bytes, right: Bytes) returns (c: int)
    ensures c == CompareBytes(left, right)
  {
    var shared := if |left| < |right| then |left| else |right|;
    for i := 0 to shared
      invariant CompareBytes(left, right) == CompareBytes(left[i..], right[i..])
    {
      if left[i] != right[i] { return (left[i] as int) - (right[i] as int); }
      assert left[i..][1..] == left[i + 1..] && right[i..][1..] == right[i + 1..];
    }
    c := |left| - |right|;
  }

  method CompareHistoriesLoop(left: seq<Bytes>, right: seq<Bytes>) returns (c: int)
    ensures c == CompareHistories(left, right)
  {
    var shared := if |left| < |right| then |left| else |right|;
    for i := 0 to shared
      invariant CompareHistories(left, right) == CompareHistories(left[i..], right[i..])
    {
      var d := CompareBytesLoop(left[i], right[i]);
      if d != 0 { return d; }
      assert left[i..][1..] == left[i + 1..] && right[i..][1..] == right[i + 1..];
    }
    c := |left| - |right|;
  }

  lemma {:induction false} BytesAntisymmetric(a: Bytes, b: Bytes)
    ensures CompareBytes(a, b) == -CompareBytes(b, a)
    ensures CompareBytes(a, b) == 0 <==> a == b
  {
    if a != [] && b != [] && a[0] == b[0] {
      BytesAntisymmetric(a[1..], b[1..]);
      assert a == [a[0]] + a[1..] && b == [b[0]] + b[1..];
    }
  }

  lemma {:induction false} BytesTransitive(a: Bytes, b: Bytes, c: Bytes)
    requires CompareBytes(a, b) <= 0 && CompareBytes(b, c) <= 0
    ensures CompareBytes(a, c) <= 0
  {
    if a != [] && b != [] && c != [] && a[0] == b[0] && b[0] == c[0] { BytesTransitive(a[1..], b[1..], c[1..]); }
  }

  lemma {:induction false} HistoriesAntisymmetric(a: seq<Bytes>, b: seq<Bytes>)
    ensures CompareHistories(a, b) == -CompareHistories(b, a)
    ensures CompareHistories(a, b) == 0 <==> a == b
  {
    if a != [] && b != [] {
      BytesAntisymmetric(a[0], b[0]);
      if a[0] == b[0] {
        HistoriesAntisymmetric(a[1..], b[1..]);
        assert a == [a[0]] + a[1..] && b == [b[0]] + b[1..];
      }
    }
  }

  lemma {:induction false} HistoriesTransitive(a: seq<Bytes>, b: seq<Bytes>, c: seq<Bytes>)
    requires CompareHistories(a, b) <= 0 && CompareHistories(b, c) <= 0
    ensures CompareHistories(a, c) <= 0
  {
    if a != [] && b != [] && c != [] {
      BytesAntisymmetric(a[0], b[0]);
      BytesAntisymmetric(b[0], c[0]);
      BytesAntisymmetric(a[0], c[0]);
      BytesTransitive(a[0], b[0], c[0]);
      if a[0] == b[0] && b[0] == c[0] { HistoriesTransitive(a[1..], b[1..], c[1..]); }
      if CompareBytes(a[0], c[0]) == 0 && a[0] != b[0] {
        assert CompareBytes(b[0], a[0]) <= 0;
      }
    }
  }

  /** Where two lists first differ, the first has the smaller byte or has already ended. */
  predicate BytesBefore(a: Bytes, b: Bytes, k: nat) {
    k <= |a| && k <= |b| && a[..k] == b[..k] && if k == |a| then k < |b| else k < |b| && a[k] < b[k]
  }

  predicate HistoriesBefore(a: seq<Bytes>, b: seq<Bytes>, k: nat) {
    && k <= |a| && k <= |b| && a[..k] == b[..k]
    && if k == |a| then k < |b| else k < |b| && exists i :: 0 <= i <= |a[k]| && BytesBefore(a[k], b[k], i)
  }

  lemma {:induction false} BytesCompare(a: Bytes, b: Bytes, k: nat)
    requires BytesBefore(a, b, k)
    ensures CompareBytes(a, b) < 0
  {
    if k > 0 {
      assert a[0] == a[..k][0] && b[0] == b[..k][0];
      assert a[1..][..k - 1] == a[..k][1..] && b[1..][..k - 1] == b[..k][1..];
      BytesCompare(a[1..], b[1..], k - 1);
    }
  }

  lemma {:induction false} BytesDiffer(a: Bytes, b: Bytes) returns (k: nat)
    requires CompareBytes(a, b) < 0
    ensures BytesBefore(a, b, k)
  {
    if a != [] && a[0] == b[0] {
      var rest := BytesDiffer(a[1..], b[1..]);
      k := rest + 1;
      assert a[..k] == [a[0]] + a[1..][..rest] && b[..k] == [b[0]] + b[1..][..rest];
    } else {
      k := 0;
    }
  }

  lemma BytesOrder(a: Bytes, b: Bytes)
    ensures CompareBytes(a, b) < 0 <==> exists k :: 0 <= k <= |a| && BytesBefore(a, b, k)
  {
    if CompareBytes(a, b) < 0 { var k := BytesDiffer(a, b); }
    forall k | 0 <= k <= |a| && BytesBefore(a, b, k) ensures CompareBytes(a, b) < 0 { BytesCompare(a, b, k); }
  }

  lemma {:induction false} HistoriesCompare(a: seq<Bytes>, b: seq<Bytes>, k: nat)
    requires HistoriesBefore(a, b, k)
    ensures CompareHistories(a, b) < 0
  {
    if k > 0 {
      assert a[0] == a[..k][0] && b[0] == b[..k][0];
      assert a[1..][..k - 1] == a[..k][1..] && b[1..][..k - 1] == b[..k][1..];
      BytesAntisymmetric(a[0], b[0]);
      HistoriesCompare(a[1..], b[1..], k - 1);
    } else if a != [] {
      BytesOrder(a[0], b[0]);
    }
  }

  lemma {:induction false} HistoriesDiffer(a: seq<Bytes>, b: seq<Bytes>) returns (k: nat)
    requires CompareHistories(a, b) < 0
    ensures HistoriesBefore(a, b, k)
  {
    if a == [] { return 0; }
    BytesAntisymmetric(a[0], b[0]);
    BytesOrder(a[0], b[0]);
    if a[0] == b[0] {
      var rest := HistoriesDiffer(a[1..], b[1..]);
      k := rest + 1;
      assert a[..k] == [a[0]] + a[1..][..rest] && b[..k] == [b[0]] + b[1..][..rest];
    } else {
      k := 0;
    }
  }

  /** Histories are ordered by their first different change, changes by their first different byte, and a
      prefix comes first. */
  lemma HistoriesOrder(a: seq<Bytes>, b: seq<Bytes>)
    ensures CompareHistories(a, b) < 0 <==> exists k :: 0 <= k <= |a| && HistoriesBefore(a, b, k)
  {
    if CompareHistories(a, b) < 0 { var k := HistoriesDiffer(a, b); }
    forall k | 0 <= k <= |a| && HistoriesBefore(a, b, k) ensures CompareHistories(a, b) < 0 { HistoriesCompare(a, b, k); }
  }

  // ---------------------------------------------------------------- preparing a merge

  datatype Intent = Intent(previous: nat, next: nat)

  function LastOf(entries: seq<KeyEntry>, back: nat): Option<KeyEntry> {
    if |entries| >= back && back >= 1 then Some(entries[|entries| - back]) else None
  }

  predicate Comparable(a: Doc, b: Doc) { a.entries <= b.entries || b.entries <= a.entries }

  /** The incoming document is only the current key of a longer keychain. */
  predicate CurrentKeyView(base: Doc, incoming: Doc) {
    |base.entries| > 1 && |incoming.entries| == 1 && base.entries[|base.entries| - 1] == incoming.entries[0]
  }

  /** Merge with a document whose complete history came along. */
  function MergeStandalone(base: Doc, incoming: Doc): Option<Doc> {
    if CurrentKeyView(base, incoming) then Some(base)
    else if base.entries == incoming.entries then
      Some(if CompareHistories(base.history, incoming.history) <= 0 then base else incoming)
    else if base.entries <= incoming.entries then Some(incoming)
    else if incoming.entries <= base.entries then Some(base)
    else None
  }

  /** Append one announced key behind the expected predecessor, or recognise its replay. */
  function MergeAppend(base: Doc, incoming: Doc, changes: seq<Bytes>, intent: Intent, pushed: seq<Bytes>): Option<Doc> {
    if |incoming.entries| != 1 || incoming.history != changes || incoming.entries[0].id != intent.next then None
    else
      var projected, current := incoming.entries[0], LastOf(base.entries, 1);
      if current.Some? && current.value.id == intent.next then
        var previous := LastOf(base.entries, 2);
        if current.value == projected && previous.Some? && previous.value.id == intent.previous then Some(base) else None
      else if current.None? || current.value.id != intent.previous then None
      else
        var next := base.entries + [projected];
        if Canonical(next) then Some(Doc(next, pushed)) else None
  }

  /** What a preparation would publish. `standalone` is the document the changes make on their own,
      `applied` the one they make on top of the base, `pushed` the history of a local append; the
      first two only when they validate. */
  function PrepareMerge(base: Doc, changes: seq<Bytes>, standalone: Option<Doc>, applied: Option<Doc>,
                        intent: Option<Intent>, pushed: seq<Bytes>): Option<Doc>
  {
    if intent.Some? then
      if standalone.Some? then MergeAppend(base, standalone.value, changes, intent.value, pushed) else None
    else if standalone.Some? then MergeStandalone(base, standalone.value)
    else if applied.Some? && base.entries <= applied.value.entries then applied
    else None
  }

  /** A full history merges exactly when one key list continues the other, or when it only shows the
      current key of a longer list. The longer list is kept; of two histories of one list, the one whose
      bytes come first. */
  lemma StandaloneIff(base: Doc, incoming: Doc)
    ensures var m := MergeStandalone(base, incoming);
      var shown := |base.entries| > 1 && incoming.entries == [base.entries[|base.entries| - 1]];
      && (m.Some? <==> shown || base.entries <= incoming.entries || incoming.entries <= base.entries)
      && (m.Some? ==> m.value == base || m.value == incoming)
      && (shown ==> m == Some(base))
      && (!shown && incoming.entries <= base.entries && incoming.entries != base.entries ==> m == Some(base))
      && (!shown && base.entries <= incoming.entries && incoming.entries != base.entries ==> m == Some(incoming))
      && (base.entries == incoming.entries ==>
            m == Some(if exists k :: 0 <= k <= |incoming.history| && HistoriesBefore(incoming.history, base.history, k) then incoming else base))
  {
    HistoriesOrder(incoming.history, base.history);
    HistoriesAntisymmetric(base.history, incoming.history);
  }

  predicate HasId(entries: seq<KeyEntry>, id: nat) { exists e :: e in entries && e.id == id }

  /** An announced append is taken exactly when what came along shows that one key and nothing else, and
      either the expected predecessor is the current key, the new id was never used and 1000 keys are not
      exceeded, so the key joins the end; or the key is already the current one right behind that
      predecessor, and nothing changes. */
  lemma AppendIff(base: Doc, incoming: Doc, changes: seq<Bytes>, intent: Intent, pushed: seq<Bytes>)
    requires Canonical(base.entries)
    ensures var m := MergeAppend(base, incoming, changes, intent, pushed);
      var n := |base.entries|;
      var shows := |incoming.entries| == 1 && incoming.history == changes && incoming.entries[0].id == intent.next;
      var joins := n >= 1 && n < 1000 && base.entries[n - 1].id == intent.previous && !HasId(base.entries, intent.next);
      var replays := n >= 2 && shows && base.entries[n - 1] == incoming.entries[0] && base.entries[n - 2].id == intent.previous;
      && (m.Some? <==> shows && (joins || replays))
      && (shows && joins ==> m == Some(Doc(base.entries + incoming.entries, pushed)))
      && (replays ==> m == Some(base))
  {
    var n := |base.entries|;
    if |incoming.entries| == 1 && n >= 1 {
      var e, next := incoming.entries[0], base.entries + incoming.entries;
      assert base.entries + [e] == next;
      assert base.entries[n - 1] in base.entries;
      if HasId(base.entries, e.id) {
        var o :| o in base.entries && o.id == e.id;
        var i :| 0 <= i < n && base.entries[i] == o;
        assert next[i].id == next[n].id;
      }
    }
  }

  /** What a preparation takes: with an intent the announced append, otherwise a full history if the
      changes make one, otherwise whatever they add to the base. */
  lemma PrepareIs(base: Doc, changes: seq<Bytes>, standalone: Option<Doc>, applied: Option<Doc>, intent: Option<Intent>, pushed: seq<Bytes>)
    ensures var m := PrepareMerge(base, changes, standalone, applied, intent, pushed);
      && (intent.Some? && standalone.Some? ==> m == MergeAppend(base, standalone.value, changes, intent.value, pushed))
      && (intent.Some? && standalone.None? ==> m == None)
      && (intent.None? && standalone.Some? ==> m == MergeStandalone(base, standalone.value))
      && (intent.None? && standalone.None? ==> (m.Some? <==> applied.Some? && base.entries <= applied.value.entries))
      && (intent.None? && standalone.None? && m.Some? ==> m == applied)
  {}

  /** Two replicas with one key list: what one appends and announces, the other appends, and hearing it
      again changes nothing. */
  lemma AnnouncedAppendConverges(base: Doc, entry: KeyEntry, changes: seq<Bytes>, pushed: seq<Bytes>)
    requires Canonical(base.entries) && 1 <= |base.entries| < 1000 && !HasId(base.entries, entry.id)
    ensures var announced, intent := Doc([entry], changes), Intent(base.entries[|base.entries| - 1].id, entry.id);
      var m := PrepareMerge(base, changes, Some(announced), None, Some(intent), pushed);
      && m == Some(Doc(base.entries + [entry], pushed))
      && PrepareMerge(m.value, changes, Some(announced), None, Some(intent), pushed) == m
  {
    var announced, intent := Doc([entry], changes), Intent(base.entries[|base.entries| - 1].id, entry.id);
    AppendIff(base, announced, changes, intent, pushed);
    var next := Doc(base.entries + [entry], pushed);
    assert Canonical(next.entries) by {
      forall i, j | 0 <= i < j < |next.entries| ensures next.entries[i].id != next.entries[j].id {
        assert i < |base.entries| && base.entries[i] in base.entries;
      }
    }
    AppendIff(next, announced, changes, intent, pushed);
  }

  /** Whatever is prepared keeps every key in place and only appends. */
  lemma PreparedOnlyAppends(base: Doc, changes: seq<Bytes>, standalone: Option<Doc>, applied: Option<Doc>,
                            intent: Option<Intent>, pushed: seq<Bytes>)
    requires Canonical(base.entries)
    requires standalone.Some? ==> Canonical(standalone.value.entries)
    requires applied.Some? ==> Canonical(applied.value.entries)
    ensures var m := PrepareMerge(base, changes, standalone, applied, intent, pushed);
      m.Some? ==> Canonical(m.value.entries) && base.entries <= m.value.entries
  {}

  // ---------------------------------------------------------------- convergence

  /** Which of two comparable documents a merge keeps. */
  predicate Wins(a: Doc, b: Doc) {
    |a.entries| > |b.entries| || (|a.entries| == |b.entries| && CompareHistories(a.history, b.history) <= 0)
  }

  lemma MergeIsWinner(a: Doc, b: Doc)
    requires Canonical(a.entries) && Canonical(b.entries) && Comparable(a, b)
    ensures MergeStandalone(a, b) == Some(if Wins(a, b) then a else b)
  {
    // one key that is both first and last of a longer list would be there twice
    assert !CurrentKeyView(a, b);
  }

  /** Two replicas that exchange prefix-comparable full histories end up with the same one. */
  lemma ExchangeConverges(a: Doc, b: Doc)
    requires Canonical(a.entries) && Canonical(b.entries) && Comparable(a, b)
    ensures MergeStandalone(a, b).Some? && MergeStandalone(a, b) == MergeStandalone(b, a)
    ensures MergeStandalone(a, b).value in {a, b}
  {
    MergeIsWinner(a, b);
    MergeIsWinner(b, a);
    HistoriesAntisymmetric(a.history, b.history);
    if |a.entries| == |b.entries| { assert a.entries == b.entries; }
  }

  /** Merging the same history again, or one's own, changes nothing. */
  lemma MergeIsIdempotent(a: Doc, b: Doc)
    requires MergeStandalone(a, b).Some?
    ensures MergeStandalone(MergeStandalone(a, b).value, b) == MergeStandalone(a, b)
    ensures MergeStandalone(a, a) == Some(a)
  {
    HistoriesAntisymmetric(a.history, a.history);
    HistoriesAntisymmetric(b.history, b.history);
  }

  lemma WinsTransitive(a: Doc, b: Doc, c: Doc)
    requires Wins(a, b) && Wins(b, c)
    ensures Wins(a, c)
  {
    if |a.entries| == |b.entries| == |c.entries| { HistoriesTransitive(a.history, b.history, c.history); }
  }

  /** Three replicas with pairwise comparable histories agree whatever the order of merges. */
  lemma MergeIsAssociative(a: Doc, b: Doc, c: Doc)
    requires Canonical(a.entries) && Canonical(b.entries) && Canonical(c.entries)
    requires Comparable(a, b) && Comparable(b, c) && Comparable(a, c)
    ensures MergeStandalone(a, b).Some? && MergeStandalone(b, c).Some?
    ensures MergeStandalone(MergeStandalone(a, b).value, c) == MergeStandalone(a, MergeStandalone(b, c).value)
  {
    MergeIsWinner(a, b);
    MergeIsWinner(b, c);
    MergeIsWinner(a, c);
    WinsTotal(a, b);
    WinsTotal(b, c);
    WinsTotal(a, c);
    if Wins(a, b) && Wins(b, c) { WinsTransitive(a, b, c); }
    if Wins(c, b) && Wins(b, a) { WinsTransitive(c, b, a); }
  }

  lemma WinsTotal(a: Doc, b: Doc)
    requires Comparable(a, b)
    ensures Wins(a, b) || Wins(b, a)
    ensures Wins(a, b) && Wins(b, a) ==> a == b
  {
    HistoriesAntisymmetric(a.history, b.history);
  }

  // ---------------------------------------------------------------- the live keychain

  /** A prepared change remembers the document and the revision it was made for. */
  datatype Prepared = Prepared(base: Doc, baseRevision: nat, next: Doc, used: bool)
  datatype World = World(doc: Doc, revision: nat, prepared: seq<Prepared>)

  datatype Step =
    | Merge(changes: seq<Bytes>, standalone: Option<Doc>, applied: Option<Doc>, intent: Option<Intent>, pushed: seq<Bytes>)
    | AddKey(entry: KeyEntry, pushed: seq<Bytes>)
    | Commit(index: nat)

  predicate InputsOk(s: Step) {
    s.Merge? ==>
      && (s.standalone.Some? ==> Canonical(s.standalone.value.entries))
      && (s.applied.Some? ==> Canonical(s.applied.value.entries))
  }

  function Stage(w: World, next: Option<Doc>): World {
    if next.Some? then w.(prepared := w.prepared + [Prepared(w.doc, w.revision, next.value, false)]) else w
  }

  predicate CanCommit(w: World, i: nat)
    requires i < |w.prepared|
  {
    var p := w.prepared[i];
    !p.used && w.doc == p.base && w.revision == p.baseRevision
  }

  function Next(w: World, s: Step): World {
    match s
    case Merge(changes, standalone, applied, intent, pushed) =>
      Stage(w, PrepareMerge(w.doc, changes, standalone, applied, intent, pushed))
    case AddKey(entry, pushed) =>
      var next := w.doc.entries + [entry];
      Stage(w, if Canonical(next) then Some(Doc(next, pushed)) else None)
    case Commit(i) =>
      if i < |w.prepared| && CanCommit(w, i) then
        World(w.prepared[i].next, w.revision + 1, w.prepared[i := w.prepared[i].(used := true)])
      else w
  }

  ghost predicate Inv(w: World) {
    && Canonical(w.doc.entries)
    && forall i :: 0 <= i < |w.prepared| ==>
         var p := w.prepared[i];
         && p.baseRevision <= w.revision && (p.baseRevision == w.revision ==> p.base == w.doc)
         && Canonical(p.next.entries) && p.base.entries <= p.next.entries
         && (p.used ==> p.baseRevision < w.revision)
  }

  lemma StepKeeps(w: World, s: Step)
    requires Inv(w) && InputsOk(s)
    ensures Inv(Next(w, s))
    ensures w.doc.entries <= Next(w, s).doc.entries && w.revision <= Next(w, s).revision
    ensures |w.prepared| <= |Next(w, s).prepared|
    ensures forall i :: 0 <= i < |w.prepared| ==>
              Next(w, s).prepared[i].baseRevision == w.prepared[i].baseRevision
  {
    if s.Merge? { PreparedOnlyAppends(w.doc, s.changes, s.standalone, s.applied, s.intent, s.pushed); }
  }

  ghost predicate Run(ws: seq<World>, steps: seq<Step>) {
    && |ws| == |steps| + 1
    && Canonical(ws[0].doc.entries) && ws[0].prepared == []
    && forall i {:trigger steps[i]} :: 0 <= i < |steps| ==> InputsOk(steps[i]) && ws[i + 1] == Next(ws[i], steps[i])
  }

  lemma {:induction false} RunKeeps(ws: seq<World>, steps: seq<Step>, i: nat)
    requires Run(ws, steps) && i < |ws|
    ensures Inv(ws[i])
    decreases i
  {
    if i > 0 {
      RunKeeps(ws, steps, i - 1);
      StepKeeps(ws[i - 1], steps[i - 1]);
    }
  }

  /** Over any interleaving of preparations and commits the key list only grows at its end and never
      holds one id twice. */
  lemma {:induction false} KeysOnlyAppend(ws: seq<World>, steps: seq<Step>, i: nat, j: nat)
    requires Run(ws, steps) && i <= j < |ws|
    ensures ws[i].doc.entries <= ws[j].doc.entries && Canonical(ws[j].doc.entries)
    ensures ws[i].revision <= ws[j].revision
    ensures |ws[i].prepared| <= |ws[j].prepared|
    ensures forall k :: 0 <= k < |ws[i].prepared| ==> ws[j].prepared[k].baseRevision == ws[i].prepared[k].baseRevision
    decreases j - i
  {
    RunKeeps(ws, steps, j);
    if i < j {
      KeysOnlyAppend(ws, steps, i, j - 1);
      RunKeeps(ws, steps, j - 1);
      StepKeeps(ws[j - 1], steps[j - 1]);
    }
  }

  /** Once anything else was committed after a preparation was made, that preparation never commits;
      and no preparation commits twice. */
  lemma StaleNeverCommits(ws: seq<World>, steps: seq<Step>, i: nat, j: nat, k: nat)
    requires Run(ws, steps) && i <= j < |ws| && k < |ws[i].prepared|
    requires ws[i].prepared[k].used || ws[i].revision > ws[i].prepared[k].baseRevision
    ensures k < |ws[j].prepared| && !CanCommit(ws[j], k)
  {
    RunKeeps(ws, steps, i);
    KeysOnlyAppend(ws, steps, i, j);
  }

  /** A local key is staged exactly when its id is new and there are fewer than 1000; it goes to the end. */
  lemma AddKeyStagesIff(w: World, entry: KeyEntry, pushed: seq<Bytes>)
    requires Inv(w)
    ensures var w' := Next(w, AddKey(entry, pushed));
      && w'.doc == w.doc && w'.revision == w.revision
      && w'.prepared == w.prepared + (if |w.doc.entries| < 1000 && !HasId(w.doc.entries, entry.id)
                                      then [Prepared(w.doc, w.revision, Doc(w.doc.entries + [entry], pushed), false)] else [])
  {
    var entries, next := w.doc.entries, w.doc.entries + [entry];
    if HasId(entries, entry.id) {
      var o :| o in entries && o.id == entry.id;
      var i :| 0 <= i < |entries| && entries[i] == o;
      assert next[i].id == next[|entries|].id;
    } else {
      forall i, j | 0 <= i < j < |next| ensures next[i].id != next[j].id { assert next[i] in entries; }
    }
  }

  /** A merge stages what it prepared, for the document and revision it was prepared on. */
  lemma MergeStages(w: World, s: Step)
    requires s.Merge?
    ensures var m := PrepareMerge(w.doc, s.changes, s.standalone, s.applied, s.intent, s.pushed);
      Next(w, s) == World(w.doc, w.revision, w.prepared + (if m.Some? then [Prepared(w.doc, w.revision, m.value, false)] else []))
  {}

  /** A preparation commits exactly while nothing was committed since it was made. It installs what was
      prepared and uses the preparation up; a refused commit changes nothing. */
  lemma CommitsIff(ws: seq<World>, steps: seq<Step>, i: nat, k: nat)
    requires Run(ws, steps) && i < |ws| && k < |ws[i].prepared|
    ensures var w, p := ws[i], ws[i].prepared[k];
      var live := !p.used && p.baseRevision == w.revision;
      && (CanCommit(w, k) <==> live)
      && Next(w, Commit(k)) == if live then World(p.next, w.revision + 1, w.prepared[k := Prepared(p.base, p.baseRevision, p.next, true)]) else w
  {
    RunKeeps(ws, steps, i);
  }
}
