/** Runs in which nobody replaces the store: the journal always holds exactly the committed entries
    since the last checkpoint and a queue bound to them, so a crash anywhere can be recovered. */
module HonestJournal {
  import opened Common
  import opened DocumentTypes
  import opened AuthorityHistory
  import opened ReplayJournal
  import opened JournalStoreSpec
  import opened DocumentState
  import opened AcceptedChain
  import opened ChainRecovery
  import opened DocumentRun
  import opened DocumentSafety

  /** The commitment a store ends at. */
  function Tip(s: Snapshot): Commitment {
    if s.entries == [] then Zero else Digest(s.entries[|s.entries| - 1])
  }

  predicate LengthsOk(entries: seq<Entry>) {
    forall e :: e in entries ==> EntryLength(e) <= MAX_ENTRY + 128
  }

  predicate StoreChain(s: Snapshot) {
    && StoreOk(s)
    && LengthsOk(s.entries)
    && Walk(s.entries).Ok?
    && s.revision == RevisionAt(Tip(s))
  }

  /** Every queued record opens and its token is bound at its revision by a retained entry. */
  predicate QueueOk(d: Device, publications: seq<Publication>, ledger: Ledger) {
    forall p :: p in publications ==>
      && p.token in d.publications && d.publications[p.token] == p && PublicationOpens(p)
      && p.token in ledger && ledger[p.token] == p.revision
  }

  /** The tokens bound by any entry behind a commitment. */
  function ChainTokens(c: Commitment): set<Token> {
    if c.Digest? && c.entry.Entry? && c.entry.payload.body.Sealed? then
      ChainTokens(c.entry.payload.parent) + Tokens(ItemOf(c.entry).bindings)
    else {}
  }

  /** Every publication an accepted entry bound is still queued or was marked sent. */
  predicate NothingLost(d: Device, s: Snapshot, sent: set<Frame>) {
    forall t :: t in ChainTokens(Tip(s)) ==>
      t in d.publications && (d.publications[t] in s.publications || d.publications[t].id in sent)
  }

  predicate OneAbove(s: Snapshot, anchor: Option<Anchor>) {
    && Tip(s).Digest? && Tip(s).entry.Entry? && Tip(s).entry.payload.parent == AnchorCommitment(anchor)
    && s.revision == AnchorRevision(anchor) + 1
  }

  /** The journal's fields agree with the store. */
  predicate Mirrors(s: Snapshot, j: Memory) {
    && Tip(s) == AnchorCommitment(j.head)
    && j.ledger == LedgerOf(s.entries)
    && j.entryCount == |s.entries|
    && j.retainedBytes == TotalLength(s.entries)
    && forall p :: p in s.publications ==> p.id in j.outbox && j.outbox[p.id] == Binding(p.token, p.revision)
  }

  function ReservationOf(op: Op): Option<Reservation> {
    if op.binding.Some? && op.result.Some?
    then Some(Reservation(op.result.value, op.result.value.length + PUBLICATION_OVERHEAD)) else None
  }

  /** The staged row is the operation's, and the queue still has room for its publication. */
  predicate PendingIs(s: Snapshot, op: Op) {
    && s.pending == Some(Pending(op.token, op.payload, op.checkpoint, ReservationOf(op)))
    && (ReservationOf(op).Some? ==> Admits(Index(s.publications), ReservationOf(op).value.id, ReservationOf(op).value.bytes))
  }

  /** Re-reading the operation's entry later rebuilds the ledger the commit will install. */
  predicate OpReplays(j: Memory, op: Op) {
    && op.payload.body.Sealed?
    && op.payload.length <= MAX_ENTRY + 73
    && RecordAll(if op.checkpoint then map[] else j.ledger, op.payload.body.item.bindings, op.payload.revision, op.checkpoint)
       == Some(op.candidate)
  }

  /** The store after an operation's entry was committed. */
  predicate CommittedIs(s: Snapshot, live: Live, op: Op, e: Entry) {
    var j := AfterCommit(live.journal, op, e);
    Mirrors(s, j) && s.pending.None?
  }

  predicate RestoreMatches(s: Snapshot, anchor: Option<Anchor>, r: Restored, swapped: bool, discarded: bool) {
    && AnchorCommitment(r.stored) == Tip(s)
    && r.items == Items(s.entries)
    && r.ledger == LedgerOf(s.entries)
    && r.bytes == TotalLength(s.entries)
    && (if r.finish && !swapped then OneAbove(s, anchor) else Tip(s) == AnchorCommitment(anchor))
    && (s.pending.Some? ==> r.discard == Some(s.pending.value.token))
    && (discarded ==> s.pending.None?)
  }

  predicate HonestPhase(s: Snapshot, anchor: Option<Anchor>, phase: Phase) {
    match phase
    case Down => Tip(s) == AnchorCommitment(anchor) || OneAbove(s, anchor)
    case Restoring(r, _, swapped, discarded) => RestoreMatches(s, anchor, r, swapped, discarded)
    case Idle(live) => Mirrors(s, live.journal) && s.pending.None?
    case Sending(live, frame) =>
      Mirrors(s, live.journal) && s.pending.None? && forall p :: p in s.publications ==> p.id != frame
    case Staged(live, op) => Mirrors(s, live.journal) && PendingIs(s, op) && OpReplays(live.journal, op)
    case Applied(live, op) => Mirrors(s, live.journal) && PendingIs(s, op) && OpReplays(live.journal, op)
    case Sealing(live, op, e) =>
      && OpReplays(live.journal, op)
      && ((Mirrors(s, live.journal) && PendingIs(s, op)) || CommittedIs(s, live, op, e))
    case Anchored(live, op, e) => CommittedIs(s, live, op, e)
  }

  ghost predicate HonestInv(w: World) {
    && StoreChain(w.store)
    && QueueOk(w.device, w.store.publications, LedgerOf(w.store.entries))
    && NothingLost(w.device, w.store, w.sent)
    && HonestPhase(w.store, w.anchor, w.phase)
  }

  // ---------------------------------------------------------------- reading an honest store

  /** The bindings a queue stands for. */
  function QueueMap(publications: seq<Publication>): map<Frame, Binding> {
    if publications == [] then map[]
    else
      var p := publications[|publications| - 1];
      QueueMap(publications[..|publications| - 1])[p.id := Binding(p.token, p.revision)]
  }

  function Ids(publications: seq<Publication>): seq<Frame> {
    if publications == [] then [] else Ids(publications[..|publications| - 1]) + [publications[|publications| - 1].id]
  }

  lemma {:induction false} QueueMapFrom(publications: seq<Publication>, f: Frame)
    requires f in QueueMap(publications)
    ensures exists p :: p in publications && p.id == f && QueueMap(publications)[f] == Binding(p.token, p.revision)
  {
    var front, last := publications[..|publications| - 1], publications[|publications| - 1];
    if last.id == f {
      assert last in publications;
    } else {
      QueueMapFrom(front, f);
      var p :| p in front && p.id == f && QueueMap(front)[f] == Binding(p.token, p.revision);
      assert p in publications;
    }
  }

  lemma {:induction false} QueueMapHas(publications: seq<Publication>, i: nat)
    requires DistinctIds(publications) && i < |publications|
    ensures var p := publications[i];
      p.id in QueueMap(publications) && QueueMap(publications)[p.id] == Binding(p.token, p.revision)
  {
    if i < |publications| - 1 { QueueMapHas(publications[..|publications| - 1], i); }
  }

  lemma {:induction false} IdsAre(publications: seq<Publication>)
    ensures |Ids(publications)| == |publications| && forall i :: 0 <= i < |publications| ==> Ids(publications)[i] == publications[i].id
  {
    if publications != [] { IdsAre(publications[..|publications| - 1]); }
  }

  /** A queue of distinct sealed records, each bound in the ledger, reads back in full. */
  lemma {:induction false} QueueReads(d: Device, publications: seq<Publication>, ledger: Ledger, current: nat)
    requires QueueOk(d, publications, ledger) && DistinctIds(publications)
    requires forall t :: t in ledger ==> 1 <= ledger[t] <= current
    ensures ReadQueue(publications, ledger, current) == Some(Outbox(Ids(publications), QueueMap(publications)))
  {
    if publications != [] {
      var front, p := publications[..|publications| - 1], publications[|publications| - 1];
      assert forall o :: o in front ==> o in publications;
      assert p in publications;
      QueueReads(d, front, ledger, current);
      NextIsUnseen(d, front, p);
    }
  }

  /** A record with an id of its own has a token of its own, since a token names its record. */
  lemma NextIsUnseen(d: Device, front: seq<Publication>, p: Publication)
    requires forall o :: o in front ==> o.token in d.publications && d.publications[o.token] == o && o.id != p.id
    requires p.token in d.publications && d.publications[p.token] == p
    ensures p.id !in QueueMap(front) && !TokenSeen(QueueMap(front), p.token)
  {
    forall f | f in QueueMap(front) ensures f != p.id && QueueMap(front)[f].token != p.token {
      QueueMapFrom(front, f);
    }
  }

  lemma HonestQueueReads(d: Device, s: Snapshot, ledger: Ledger, current: nat)
    requires StoreOk(s) && QueueOk(d, s.publications, ledger)
    requires forall t :: t in ledger ==> 1 <= ledger[t] <= current
    ensures ReadPublications(s.publications, ledger, current).Ok?
    ensures var q := ReadPublications(s.publications, ledger, current).value;
      && |q.frames| == |s.publications|
      && (forall i :: 0 <= i < |s.publications| ==> q.frames[i] == s.publications[i].id)
      && (forall p :: p in s.publications ==> p.id in q.bindings && q.bindings[p.id] == Binding(p.token, p.revision))
  {
    IndexBytesArePublicationBytes(s.publications);
    QueueReads(d, s.publications, ledger, current);
    IdsAre(s.publications);
    forall p | p in s.publications
      ensures p.id in QueueMap(s.publications) && QueueMap(s.publications)[p.id] == Binding(p.token, p.revision)
    {
      var i :| 0 <= i < |s.publications| && s.publications[i] == p;
      QueueMapHas(s.publications, i);
    }
  }

  /** The anchor is at the tip, or one accepted entry below it: `restore` succeeds either way. */
  lemma HonestRestores(s: Snapshot, anchor: Option<Anchor>, minted: Minted)
    requires StoreChain(s) && AnchorOk(minted, anchor)
    requires Tip(s) == AnchorCommitment(anchor) || OneAbove(s, anchor)
    ensures Restore(s, anchor).Ok?
    ensures RestoreMatches(s, anchor, Restore(s, anchor).value, false, false)
  {
    assert Captured(s.revision, s.entries);
    var last := Walk(s.entries).value.last;
    if last.Some? {
      assert last.value == s.entries[|s.entries| - 1];
    }
  }

  // ---------------------------------------------------------------- staging

  /** Folding bindings into an empty ledger gives the map they list. */
  lemma RecordFromNothing(bindings: seq<Binding>, revision: nat, checkpoint: bool, target: Ledger)
    requires RecordAll(map[], bindings, revision, checkpoint).Some?
    requires forall b :: b in bindings ==> b.token in target && target[b.token] == b.revision
    requires forall t :: t in target ==> t in Tokens(bindings)
    ensures RecordAll(map[], bindings, revision, checkpoint) == Some(target)
  {
    RecordAllKeys(map[], bindings, revision, checkpoint);
    RecordAllValues(map[], bindings, revision, checkpoint);
    var built := RecordAll(map[], bindings, revision, checkpoint).value;
    assert built.Keys == target.Keys;
    forall t | t in built ensures built[t] == target[t] {
      var b :| b in bindings && b.token == t;
    }
    assert built == target;
  }

  /** A checkpoint's bindings are new to an empty ledger, distinct and in range. */
  lemma CheckpointFits(kept: seq<Binding>, binding: Option<Binding>, ledger: Ledger, revision: nat)
    requires forall b :: b in kept ==> b.token in ledger && 1 <= b.revision < revision
    requires forall i, k :: 0 <= i < k < |kept| ==> kept[i].token != kept[k].token
    requires |kept| <= 16
    requires binding.Some? ==> binding.value.revision == revision && binding.value.token !in ledger
    requires revision >= 1
    ensures var bindings := kept + (if binding.Some? then [binding.value] else []);
      RecordAll(map[], bindings, revision, true).Some?
  {
    var bindings := kept + (if binding.Some? then [binding.value] else []);
    forall i, k | 0 <= i < k < |bindings| ensures bindings[i].token != bindings[k].token {
      assert bindings[i] in kept;
    }
    RecordAllSucceeds(map[], bindings, revision, true);
  }

  /** A checkpoint's bindings rebuild the retained ledger from nothing. */
  lemma CheckpointRecords(d: Device, j: Memory, binding: Option<Binding>, draw: Draw)
    requires MemoryOk(d, j) && JournalAdmits(j, true, binding, draw)
    requires binding.Some? ==> binding.value.revision == NextRevision(j)
    ensures RecordAll(map[], BindingList(j, true, binding, draw), NextRevision(j), true)
            == Some(Candidate(j, true, binding, draw))
  {
    var bindings, kept := BindingList(j, true, binding, draw), Retained(j, draw.retained);
    var candidate := Candidate(j, true, binding, draw);
    KeptBindings(d, j, draw);
    CheckpointFits(kept, binding, j.ledger, NextRevision(j));
    forall b | b in bindings ensures b.token in candidate && candidate[b.token] == b.revision {
      if b in kept { KeptInCandidate(j, draw, b); }
    }
    forall t | t in candidate ensures t in Tokens(bindings) {
      if t in TokenList(kept) {
        var i :| 0 <= i < |kept| && kept[i].token == t;
        assert kept[i] in bindings;
      } else {
        assert binding.value in bindings;
      }
    }
    RecordFromNothing(bindings, NextRevision(j), true, candidate);
  }

  /** A delta adds at most its own binding. */
  lemma DeltaRecords(ledger: Ledger, binding: Option<Binding>, revision: nat)
    requires binding.Some? ==>
               binding.value.revision == revision
               && CanRecord(ledger, binding.value.token, revision, revision, false, MAX_LEDGER)
    ensures RecordAll(ledger, if binding.Some? then [binding.value] else [], revision, false)
            == Some(if binding.Some? then ledger[binding.value.token := revision] else ledger)
  {
    if binding.Some? {
      assert [binding.value][..0] == [];
      assert RecordAll(ledger, [], revision, false) == Some(ledger);
    }
  }

  /** So re-reading the entry rebuilds the ledger its commit installs. */
  lemma StagedRecords(d: Device, j: Memory, checkpoint: bool, binding: Option<Binding>, draw: Draw)
    requires MemoryOk(d, j) && JournalAdmits(j, checkpoint, binding, draw)
    requires binding.Some? ==> binding.value.revision == NextRevision(j)
    ensures RecordAll(if checkpoint then map[] else j.ledger, BindingList(j, checkpoint, binding, draw), NextRevision(j), checkpoint)
            == Some(Candidate(j, checkpoint, binding, draw))
  {
    var bindings := BindingList(j, checkpoint, binding, draw);
    if checkpoint {
      CheckpointRecords(d, j, binding, draw);
    } else {
      DeltaRecords(j.ledger, binding, NextRevision(j));
      assert bindings == if binding.Some? then [binding.value] else [];
    }
  }

  lemma KeptInCandidate(j: Memory, draw: Draw, b: Binding)
    requires forall f :: f in draw.retained ==> f in j.outbox
    requires forall f :: f in j.outbox ==> j.outbox[f].token in j.ledger && j.ledger[j.outbox[f].token] == j.outbox[f].revision
    requires b in Retained(j, draw.retained)
    ensures b.token in BaseLedger(j, true, draw) && BaseLedger(j, true, draw)[b.token] == b.revision
    ensures b.token in j.ledger
  {
    var kept := Retained(j, draw.retained);
    var i :| 0 <= i < |kept| && kept[i] == b;
    assert TokenList(kept)[i] == b.token;
    assert draw.retained[i] in draw.retained;
  }

  lemma KeptBindings(d: Device, j: Memory, draw: Draw)
    requires MemoryOk(d, j) && JournalAdmits(j, true, None, draw)
    ensures forall b :: b in Retained(j, draw.retained) ==> b.token in j.ledger && 1 <= b.revision <= AnchorRevision(j.head)
    ensures forall i, k :: 0 <= i < k < |draw.retained| ==> Retained(j, draw.retained)[i].token != Retained(j, draw.retained)[k].token
    ensures |draw.retained| <= 16
  {
    var kept := Retained(j, draw.retained);
    forall b | b in kept ensures b.token in j.ledger && 1 <= b.revision <= AnchorRevision(j.head) {
      KeptInCandidate(j, draw, b);
      var i :| 0 <= i < |kept| && kept[i] == b;
      assert draw.retained[i] in draw.retained;
    }
    forall i, k | 0 <= i < k < |kept| ensures kept[i].token != kept[k].token {
      assert TokenList(kept)[i] == kept[i].token && TokenList(kept)[k] == kept[k].token;
    }
  }
}
