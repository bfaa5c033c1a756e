/** What the journal accepts from a store, spelled out: which entry lists are one verified chain, which
    stores `restore` accepts, and which queues read back. */
module JournalFormat {
  import opened Common
  import opened DocumentTypes
  import opened ReplayJournal

  // ---------------------------------------------------------------- one entry

  /** An entry this device sealed: its acceptance tag covers its payload, its header agrees with what the
      ciphertext was bound to, and its item is within the codec's bounds. */
  predicate EntryVerifies(e: Entry) {
    && e.Entry? && e.tag.Acceptance? && e.tag.revision == e.payload.revision && e.tag.payload == e.payload
    && e.payload.revision >= 1 && e.payload.marker <= 1
    && e.payload.body.Sealed? && e.payload.body.revision == e.payload.revision && e.payload.body.parent == e.payload.parent
    && e.payload.body.checkpoint == (e.payload.marker == 1)
    && var item := e.payload.body.item;
    && |item.receipts| <= 256 && (forall m :: m in item.receipts ==> item.receipts[m].sequence >= 1)
    && |item.bindings| <= 16 && (e.payload.marker == 0 ==> |item.receipts| == 1 && |item.bindings| <= 1)
  }

  // ---------------------------------------------------------------- publication tokens

  function BoundTokens(bindings: seq<Binding>): seq<Token> {
    seq(|bindings|, i requires 0 <= i < |bindings| => bindings[i].token)
  }

  ghost predicate AllDistinct(tokens: seq<Token>) { forall i, j :: 0 <= i < j < |tokens| ==> tokens[i] != tokens[j] }

  /** A binding names the revision that introduced it: its own entry's, or an earlier one at a checkpoint. */
  predicate RevisionsFit(bindings: seq<Binding>, revision: nat, checkpoint: bool) {
    forall b :: b in bindings ==> 1 <= b.revision <= revision && (checkpoint || b.revision == revision)
  }

  lemma DistinctConcat(a: seq<Token>, b: seq<Token>)
    ensures AllDistinct(a + b) <==> AllDistinct(a) && AllDistinct(b) && forall t :: t in b ==> t !in a
  {
    var s := a + b;
    if AllDistinct(s) {
      forall i, j | 0 <= i < j < |a| ensures a[i] != a[j] { assert s[i] == a[i] && s[j] == a[j]; }
      forall i, j | 0 <= i < j < |b| ensures b[i] != b[j] { assert s[|a| + i] == b[i] && s[|a| + j] == b[j]; }
      forall t | t in b ensures t !in a {
        var j :| 0 <= j < |b| && b[j] == t;
        forall i | 0 <= i < |a| ensures a[i] != t { assert s[i] == a[i] && s[|a| + j] == t; }
      }
    }
    if AllDistinct(a) && AllDistinct(b) && forall t :: t in b ==> t !in a {
      forall i, j | 0 <= i < j < |s| ensures s[i] != s[j] {
        if i < |a| <= j { assert s[j] == b[j - |a|] && s[j] in b; }
      }
    }
  }

  /** Bindings that may join a ledger: their tokens are new and distinct, their revisions fit and 144
      bindings are not exceeded. */
  ghost predicate BindingsFit(ledger: Ledger, bindings: seq<Binding>, revision: nat, checkpoint: bool) {
    && RevisionsFit(bindings, revision, checkpoint) && AllDistinct(BoundTokens(bindings))
    && (forall t :: t in BoundTokens(bindings) ==> t !in ledger) && |ledger| + |bindings| <= 144
  }

  lemma BindingsFitStep(ledger: Ledger, front: seq<Binding>, last: Binding, revision: nat, checkpoint: bool)
    ensures BindingsFit(ledger, front + [last], revision, checkpoint) <==>
              && BindingsFit(ledger, front, revision, checkpoint) && |ledger| + |front| < 144
              && last.token !in ledger && last.token !in BoundTokens(front)
              && 1 <= last.revision <= revision && (checkpoint || last.revision == revision)
  {
    var all, tokens := front + [last], BoundTokens(front);
    assert BoundTokens(all) == tokens + [last.token];
    DistinctConcat(tokens, [last.token]);
    assert (forall b :: b in all ==> 1 <= b.revision <= revision && (checkpoint || b.revision == revision)) <==>
           RevisionsFit(front, revision, checkpoint) && 1 <= last.revision <= revision && (checkpoint || last.revision == revision);
  }

  /** Folding bindings into a ledger succeeds exactly when they may join it. */
  lemma {:induction false} RecordAllIff(ledger: Ledger, bindings: seq<Binding>, revision: nat, checkpoint: bool)
    requires |ledger| <= 144
    ensures RecordAll(ledger, bindings, revision, checkpoint).Some? <==> BindingsFit(ledger, bindings, revision, checkpoint)
  {
    if bindings != [] {
      var front, last := bindings[..|bindings| - 1], bindings[|bindings| - 1];
      SplitLast(bindings);
      RecordAllIff(ledger, front, revision, checkpoint);
      BindingsFitStep(ledger, front, last, revision, checkpoint);
      if RecordAll(ledger, front, revision, checkpoint).Some? {
        RecordAllKeys(ledger, front, revision, checkpoint);
        TokensAreBound(front, last.token);
      }
    } else {
      assert BoundTokens(bindings) == [];
    }
  }

  lemma TokensAreBound(bindings: seq<Binding>, t: Token)
    ensures t in Tokens(bindings) <==> t in BoundTokens(bindings)
  {
    if t in Tokens(bindings) {
      var b :| b in bindings && b.token == t;
      var i :| 0 <= i < |bindings| && bindings[i] == b;
      assert BoundTokens(bindings)[i] == t;
    }
    if t in BoundTokens(bindings) {
      var i :| 0 <= i < |bindings| && BoundTokens(bindings)[i] == t;
      assert bindings[i] in bindings;
    }
  }

  // ---------------------------------------------------------------- a chain of entries

  function EntryBindings(e: Entry): seq<Binding> {
    if e.Entry? && e.payload.body.Sealed? then e.payload.body.item.bindings else []
  }

  /** Every token bound by the entries, in order. */
  function AllTokens(entries: seq<Entry>): seq<Token> {
    if entries == [] then []
    else AllTokens(entries[..|entries| - 1]) + BoundTokens(EntryBindings(entries[|entries| - 1]))
  }

  /** Entry i has its place: the first is a checkpoint or the very first revision, every other is a delta
      on the one before. */
  predicate Placed(entries: seq<Entry>, i: nat)
    requires i < |entries|
  {
    var e := entries[i];
    && EntryVerifies(e)
    && (if i == 0 then e.payload.marker == 1 || (e.payload.revision == 1 && e.payload.parent == Zero)
        else
          && e.payload.marker == 0 && e.payload.parent == Digest(entries[i - 1])
          && entries[i - 1].Entry? && e.payload.revision == entries[i - 1].payload.revision + 1)
    && RevisionsFit(EntryBindings(e), e.payload.revision, e.payload.marker == 1)
  }

  /** One verified chain whose publication tokens are all different and at most 144. */
  ghost predicate VerifiedChain(entries: seq<Entry>) {
    && (forall i :: 0 <= i < |entries| ==> Placed(entries, i))
    && AllDistinct(AllTokens(entries)) && |AllTokens(entries)| <= 144
  }

  lemma WalkEntryIff(w: Walked, e: Entry)
    requires (w.last.Some? ==> w.last.value.Entry?) && |w.ledger| <= 144
    ensures WalkEntry(w, e).Ok? <==>
              && EntryVerifies(e)
              && (if w.last.None? then e.payload.marker == 1 || (e.payload.revision == 1 && e.payload.parent == Zero)
                  else e.payload.marker == 0 && e.payload.parent == Digest(w.last.value)
                       && e.payload.revision == w.last.value.payload.revision + 1)
              && BindingsFit(w.ledger, EntryBindings(e), e.payload.revision, e.payload.marker == 1)
  {
    if e.Entry? && e.payload.body.Sealed? {
      RecordAllIff(w.ledger, e.payload.body.item.bindings, e.payload.revision, e.payload.body.checkpoint);
    }
  }

  lemma VerifiedStep(front: seq<Entry>, e: Entry)
    ensures var all, tokens := front + [e], BoundTokens(EntryBindings(e));
      VerifiedChain(all) <==>
        && VerifiedChain(front) && Placed(all, |front|)
        && AllDistinct(tokens) && (forall t :: t in tokens ==> t !in AllTokens(front)) && |AllTokens(front)| + |tokens| <= 144
  {
    var all := front + [e];
    assert all[..|front|] == front;
    DistinctConcat(AllTokens(front), BoundTokens(EntryBindings(e)));
    forall i | 0 <= i < |front| ensures Placed(all, i) <==> Placed(front, i) {}
  }

  /** The ledger of a walk binds exactly these tokens. */
  predicate LedgerBinds(ledger: Ledger, tokens: seq<Token>) {
    |ledger| == |tokens| && (forall t :: t in ledger ==> t in tokens) && (forall t :: t in tokens ==> t in ledger)
  }

  lemma PlacedIsWalked(w: Walked, front: seq<Entry>, e: Entry)
    requires Walk(front) == Ok(w) && LedgerBinds(w.ledger, AllTokens(front)) && |w.ledger| <= 144
    ensures WalkEntry(w, e).Ok? <==>
              var tokens := BoundTokens(EntryBindings(e));
              && Placed(front + [e], |front|)
              && AllDistinct(tokens) && (forall t :: t in tokens ==> t !in AllTokens(front)) && |AllTokens(front)| + |tokens| <= 144
  {
    WalkEntryIff(w, e);
  }

  lemma LedgerStep(w: Walked, front: seq<Entry>, e: Entry)
    requires Walk(front) == Ok(w) && LedgerBinds(w.ledger, AllTokens(front)) && WalkEntry(w, e).Ok?
    ensures LedgerBinds(WalkEntry(w, e).value.ledger, AllTokens(front + [e]))
  {
    assert (front + [e])[..|front|] == front;
    var b, ledger := EntryBindings(e), WalkEntry(w, e).value.ledger;
    RecordAllKeys(w.ledger, b, e.payload.revision, e.payload.body.checkpoint);
    forall t | t in ledger ensures t in AllTokens(front) + BoundTokens(b) { TokensAreBound(b, t); }
    forall t | t in AllTokens(front) + BoundTokens(b) ensures t in ledger { TokensAreBound(b, t); }
  }

  /** Verification accepts exactly the verified chains, and its ledger binds their tokens. */
  lemma {:induction false} WalkIff(entries: seq<Entry>)
    ensures Walk(entries).Ok? <==> VerifiedChain(entries)
    ensures Walk(entries).Ok? ==> LedgerBinds(LedgerOf(entries), AllTokens(entries)) && |LedgerOf(entries)| <= 144
  {
    if entries != [] {
      var front, e := entries[..|entries| - 1], entries[|entries| - 1];
      SplitLast(entries);
      WalkIff(front);
      VerifiedStep(front, e);
      if Walk(front).Ok? {
        var w := Walk(front).value;
        PlacedIsWalked(w, front, e);
        if WalkEntry(w, e).Ok? { LedgerStep(w, front, e); }
      }
    }
  }

  // ---------------------------------------------------------------- a store

  /** What `restore` accepts: a bounded verified chain that ends at the anchor, or at one entry whose
      parent the anchor is. */
  ghost predicate Restorable(s: Snapshot, anchored: Option<Anchor>) {
    && s.revision <= 9007199254740991 && |s.entries| <= 128 && TotalLength(s.entries) <= 134217728
    && (forall e :: e in s.entries ==> 1 <= EntryLength(e) <= 84934784)
    && VerifiedChain(s.entries)
    && if s.entries == [] then s.revision == 0 && anchored.None?
       else
         var last := s.entries[|s.entries| - 1];
         && last.Entry? && s.revision == last.payload.revision
         && (anchored == Some(Anchor(s.revision, Digest(last)))
             || (last.payload.parent == AnchorCommitment(anchored) && s.revision == AnchorRevision(anchored) + 1))
  }

  lemma CapturedIff(s: Snapshot)
    ensures Captured(s.revision, s.entries) <==>
              && s.revision <= 9007199254740991 && |s.entries| <= 128 && TotalLength(s.entries) <= 134217728
              && (forall e :: e in s.entries ==> 1 <= EntryLength(e) <= 84934784)
  {
    forall e | e in s.entries && Captured(s.revision, s.entries) ensures 1 <= EntryLength(e) <= 84934784 {
      var i :| 0 <= i < |s.entries| && s.entries[i] == e;
    }
  }

  /** `restore` accepts exactly these stores, finishes the anchor move exactly when the store is one entry
      ahead, and discards exactly what was staged. */
  lemma RestoreIff(s: Snapshot, anchored: Option<Anchor>)
    ensures Restore(s, anchored).Ok? <==> Restorable(s, anchored)
    ensures Restore(s, anchored).Ok? ==>
              var r := Restore(s, anchored).value;
              && r.stored == (if s.entries == [] then None else Some(Anchor(s.revision, Digest(s.entries[|s.entries| - 1]))))
              && (r.finish <==> s.revision == AnchorRevision(anchored) + 1)
              && r.discard == (if s.pending.Some? then Some(s.pending.value.token) else None)
              && r.bytes == TotalLength(s.entries) && |r.items| == |s.entries|
  {
    WalkIff(s.entries);
    CapturedIff(s);
    if VerifiedChain(s.entries) && s.entries != [] { assert Placed(s.entries, |s.entries| - 1); }
  }

  // ---------------------------------------------------------------- the queue

  /** A queue that reads back: records this device sealed for themselves, no frame and no token twice,
      each bound by the ledger at its own revision. */
  ghost predicate QueueVerifies(publications: seq<Publication>, ledger: Ledger, current: nat) {
    && (forall i :: 0 <= i < |publications| ==>
          var p := publications[i];
          && p.cipher == PublicationSealed(p.revision, p.id, p.token, p.id)
          && p.token in ledger && ledger[p.token] == p.revision && 1 <= p.revision <= current)
    && forall i, j :: 0 <= i < j < |publications| ==>
         publications[i].id != publications[j].id && publications[i].token != publications[j].token
  }

  /** What reading adds up: the frames in order and each frame's binding. */
  ghost predicate OutboxOf(publications: seq<Publication>, q: Outbox) {
    && |q.frames| == |publications|
    && (forall i :: 0 <= i < |publications| ==> q.frames[i] == publications[i].id)
    && (forall i :: 0 <= i < |publications| ==>
          publications[i].id in q.bindings && q.bindings[publications[i].id] == Binding(publications[i].token, publications[i].revision))
    && (forall f :: f in q.bindings ==> exists i :: 0 <= i < |publications| && publications[i].id == f)
  }

  lemma SeenIff(publications: seq<Publication>, q: Outbox, t: Token)
    requires OutboxOf(publications, q)
    ensures TokenSeen(q.bindings, t) <==> exists i :: 0 <= i < |publications| && publications[i].token == t
  {
    if TokenSeen(q.bindings, t) {
      var f :| f in q.bindings && q.bindings[f].token == t;
      var i :| 0 <= i < |publications| && publications[i].id == f;
      assert publications[i].token == t;
    }
    if i :| 0 <= i < |publications| && publications[i].token == t {
      assert publications[i].id in q.bindings;
    }
  }

  lemma QueueVerifiesStep(front: seq<Publication>, p: Publication, ledger: Ledger, current: nat)
    ensures QueueVerifies(front + [p], ledger, current) <==>
              && QueueVerifies(front, ledger, current)
              && p.cipher == PublicationSealed(p.revision, p.id, p.token, p.id)
              && p.token in ledger && ledger[p.token] == p.revision && 1 <= p.revision <= current
              && forall i :: 0 <= i < |front| ==> front[i].id != p.id && front[i].token != p.token
  {
    var all := front + [p];
    if QueueVerifies(all, ledger, current) {
      assert all[|front|] == p;
      forall i | 0 <= i < |front| ensures front[i] == all[i] {}
    }
  }

  lemma OutboxStep(front: seq<Publication>, p: Publication, q: Outbox)
    requires OutboxOf(front, q) && forall i :: 0 <= i < |front| ==> front[i].id != p.id
    ensures OutboxOf(front + [p], Outbox(q.frames + [p.id], q.bindings[p.id := Binding(p.token, p.revision)]))
  {
    var all, bindings := front + [p], q.bindings[p.id := Binding(p.token, p.revision)];
    forall f | f in bindings ensures exists i :: 0 <= i < |all| && all[i].id == f {
      if f == p.id {
        assert all[|front|].id == f;
      } else {
        var i :| 0 <= i < |front| && front[i].id == f;
        assert all[i].id == f;
      }
    }
  }

  lemma QueueStep(front: seq<Publication>, p: Publication, ledger: Ledger, current: nat)
    requires QueueVerifies(front, ledger, current)
    requires ReadQueue(front, ledger, current).Some? && OutboxOf(front, ReadQueue(front, ledger, current).value)
    ensures ReadQueue(front + [p], ledger, current).Some? <==> QueueVerifies(front + [p], ledger, current)
    ensures ReadQueue(front + [p], ledger, current).Some? ==> OutboxOf(front + [p], ReadQueue(front + [p], ledger, current).value)
  {
    var q := ReadQueue(front, ledger, current).value;
    ReadOne(front, p, ledger, current);
    SeenIff(front, q, p.token);
    ListedIff(front, q, p.id);
    QueueVerifiesStep(front, p, ledger, current);
    if ReadQueue(front + [p], ledger, current).Some? { OutboxStep(front, p, q); }
  }

  lemma ListedIff(publications: seq<Publication>, q: Outbox, id: Frame)
    requires OutboxOf(publications, q)
    ensures id in q.bindings <==> exists i :: 0 <= i < |publications| && publications[i].id == id
  {}

  lemma ReadOne(front: seq<Publication>, p: Publication, ledger: Ledger, current: nat)
    requires ReadQueue(front, ledger, current).Some?
    ensures var q := ReadQueue(front, ledger, current).value;
      ReadQueue(front + [p], ledger, current)
      == if AcceptedToken(ledger, p.token, p.revision, current) && p.id !in q.bindings && !TokenSeen(q.bindings, p.token) && PublicationOpens(p)
         then Some(Outbox(q.frames + [p.cipher.frame], q.bindings[p.id := Binding(p.token, p.revision)])) else None
  {
    assert (front + [p])[..|front|] == front;
  }

  lemma {:induction false} ReadQueueIff(publications: seq<Publication>, ledger: Ledger, current: nat)
    ensures ReadQueue(publications, ledger, current).Some? <==> QueueVerifies(publications, ledger, current)
    ensures ReadQueue(publications, ledger, current).Some? ==> OutboxOf(publications, ReadQueue(publications, ledger, current).value)
  {
    if publications != [] {
      var front, p := publications[..|publications| - 1], publications[|publications| - 1];
      SplitLast(publications);
      ReadQueueIff(front, ledger, current);
      QueueVerifiesStep(front, p, ledger, current);
      if ReadQueue(front, ledger, current).Some? { QueueStep(front, p, ledger, current); }
    }
  }

  /** The queue reads back exactly when it is within bounds and every record verifies. */
  lemma ReadPublicationsIff(publications: seq<Publication>, ledger: Ledger, current: nat)
    ensures var r := ReadPublications(publications, ledger, current);
      && (r.Ok? <==>
            && |publications| <= 16 && PublicationBytes(publications) <= 16777216
            && (forall i :: 0 <= i < |publications| ==> 1 <= publications[i].bytes <= 1048648)
            && QueueVerifies(publications, ledger, current))
      && (r.Ok? ==> OutboxOf(publications, r.value))
  {
    ReadQueueIff(publications, ledger, current);
  }
}
