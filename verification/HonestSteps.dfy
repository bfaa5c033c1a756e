/** Every step of an honest run keeps the journal recoverable. */
module HonestSteps {
  import opened Common
  import opened DocumentTypes
  import opened AuthorityHistory
  import opened ReplayJournal
  import opened JournalStoreSpec
  import opened DocumentState
  import opened AcceptedChain
  import opened ChainRecovery
  import opened DocumentRun
  import opened DocumentSafety
  import opened HonestJournal

  // ---------------------------------------------------------------- committing

  lemma EntryWalks(w: Walked, live: Live, op: Op, e: Entry)
    requires w.last.Some? ==> w.last.value.Entry?
    requires PayloadOk(live.journal, op) && e.Entry? && e.payload == op.payload && MarkerVerifies(e)
    requires op.checkpoint ==> w.last.None?
    requires !op.checkpoint ==>
               && LastCommitment(w.last) == AnchorCommitment(live.journal.head)
               && AnchorRevision(live.journal.head) == RevisionAt(LastCommitment(w.last))
    requires RecordAll(w.ledger, op.payload.body.item.bindings, op.payload.revision, op.checkpoint) == Some(op.candidate)
    ensures WalkEntry(w, e).Ok? && WalkEntry(w, e).value.ledger == op.candidate
  {
    assert Decrypts(e.payload);
    assert Follows(w.last, e.payload);
  }

  /** Appending the sealed entry, or pruning to it at a checkpoint, leaves a chain that walks. */
  lemma CommitWalks(d: Device, s: Snapshot, live: Live, op: Op, e: Entry)
    requires StoreChain(s) && Mirrors(s, live.journal) && OpReplays(live.journal, op)
    requires AnchorOk(d.minted, live.journal.head) && PayloadOk(live.journal, op) && SealedFor(d, op, e)
    ensures Walk(Appended(s, op.checkpoint, e)).Ok?
    ensures LedgerOf(Appended(s, op.checkpoint, e)) == op.candidate
  {
    if op.checkpoint {
      EntryWalks(Walked([], map[], None), live, op, e);
      assert [e][..0] == [];
    } else {
      var w := Walk(s.entries).value;
      assert w.last.Some? ==> w.last.value == s.entries[|s.entries| - 1];
      EntryWalks(w, live, op, e);
      WalkAppend(s.entries, e);
    }
  }

  lemma CommitMirrors(s: Snapshot, live: Live, op: Op, e: Entry, s': Snapshot)
    requires Mirrors(s, live.journal)
    requires s'.entries == Appended(s, op.checkpoint, e) && LedgerOf(s'.entries) == op.candidate
    requires s'.publications == s.publications + (if OpPublication(op).Some? then [OpPublication(op).value] else [])
    requires OpPublication(op).Some? ==> op.payload.revision == op.binding.value.revision
    requires OpPublication(op).Some? ==> forall p :: p in s.publications ==> p.id != op.result.value
    requires s'.pending.None?
    ensures CommittedIs(s', live, op, e)
  {
    CommitCounts(s, op.checkpoint, e);
    CommitOutbox(s, live.journal, op, e, s');
  }

  lemma CommitCounts(s: Snapshot, checkpoint: bool, e: Entry)
    ensures var after := Appended(s, checkpoint, e);
      && after != [] && after[|after| - 1] == e
      && |after| == (if checkpoint then 1 else |s.entries| + 1)
      && TotalLength(after) == (if checkpoint then EntryLength(e) else TotalLength(s.entries) + EntryLength(e))
  {
    TotalLengthAppend(s.entries, e);
    TotalLengthAppend([], e);
    assert [] + [e] == [e];
  }

  /** Old records keep their place in the queue map, and the new one has its own. */
  lemma CommitOutbox(s: Snapshot, j: Memory, op: Op, e: Entry, s': Snapshot)
    requires forall p :: p in s.publications ==> p.id in j.outbox && j.outbox[p.id] == Binding(p.token, p.revision)
    requires s'.publications == s.publications + (if OpPublication(op).Some? then [OpPublication(op).value] else [])
    requires OpPublication(op).Some? ==> op.payload.revision == op.binding.value.revision
    requires OpPublication(op).Some? ==> forall p :: p in s.publications ==> p.id != op.result.value
    ensures var outbox := AfterCommit(j, op, e).outbox;
      forall p :: p in s'.publications ==> p.id in outbox && outbox[p.id] == Binding(p.token, p.revision)
  {}

  /** Queued records keep their binding through the commit, and the new record has its own. */
  lemma CommitQueue(d: Device, s: Snapshot, live: Live, op: Op, e: Entry, s': Snapshot)
    requires QueueOk(d, s.publications, live.journal.ledger) && Mirrors(s, live.journal)
    requires op.payload.body.Sealed? && BindingsOk(live.journal, op.payload.body.item.bindings, op) && SealedFor(d, op, e)
    requires s'.publications == s.publications + (if OpPublication(op).Some? then [OpPublication(op).value] else [])
    ensures QueueOk(d, s'.publications, op.candidate)
  {}

  lemma {:induction false} LedgerOnChain(entries: seq<Entry>)
    requires Walk(entries).Ok?
    ensures LedgerOf(entries).Keys <= ChainTokens(LastCommitment(Walk(entries).value.last))
  {
    if entries != [] {
      var front, e := entries[..|entries| - 1], entries[|entries| - 1];
      LedgerOnChain(front);
      RecordAllKeys(Walk(front).value.ledger, ItemOf(e).bindings, e.payload.revision, e.payload.body.checkpoint);
    }
  }

  lemma CommitLosesNothing(d: Device, s: Snapshot, sent: set<Frame>, live: Live, op: Op, e: Entry, s': Snapshot)
    requires NothingLost(d, s, sent) && Walk(s.entries).Ok? && Mirrors(s, live.journal)
    requires PayloadOk(live.journal, op) && BindingsOk(live.journal, op.payload.body.item.bindings, op) && SealedFor(d, op, e)
    requires Tip(s') == Digest(e)
    requires s'.publications == s.publications + (if OpPublication(op).Some? then [OpPublication(op).value] else [])
    ensures NothingLost(d, s', sent)
  {
    LedgerOnChain(s.entries);
    assert Tip(s) == LastCommitment(Walk(s.entries).value.last);
    forall t | t in ChainTokens(Tip(s'))
      ensures t in d.publications && (d.publications[t] in s'.publications || d.publications[t].id in sent)
    {
      if t !in ChainTokens(Tip(s)) {
        var b :| b in ItemOf(e).bindings && b.token == t;
        assert op.binding == Some(b);
      }
    }
  }

  /** The store half: what a commit leaves in the store, and its bounds. */
  lemma CommitStore(s: Snapshot, revision: nat, token: Token, checkpoint: bool, e: Entry,
                    publication: Option<Publication>, s': Snapshot)
    requires StoreOk(s) && Committed(s, revision, token, checkpoint, e, publication) == Ok(s')
    ensures StoreOk(s') && s'.revision == s.revision + 1 == revision + 1
    ensures s'.entries == Appended(s, checkpoint, e) && s'.pending.None?
    ensures s'.publications == s.publications + (if publication.Some? then [publication.value] else [])
    ensures publication.Some? ==> forall p :: p in s.publications ==> p.id != publication.value.id
  {
    CommittedKeepsStore(s, revision, token, checkpoint, e, publication);
    CommittedShape(s, revision, token, checkpoint, e, publication, s');
    if publication.Some? { NotQueued(s.publications, publication.value.id); }
  }

  /** The walk half: the longer or pruned list still walks and ends at the new entry. */
  lemma CommitWalk(d: Device, s: Snapshot, live: Live, op: Op, e: Entry, s': Snapshot)
    requires StoreChain(s) && Mirrors(s, live.journal) && OpReplays(live.journal, op)
    requires AnchorOk(d.minted, live.journal.head) && PayloadOk(live.journal, op) && SealedFor(d, op, e)
    requires StoreOk(s') && s'.entries == Appended(s, op.checkpoint, e)
    requires s'.revision == AnchorRevision(live.journal.head) + 1
    ensures StoreChain(s') && LedgerOf(s'.entries) == op.candidate && Tip(s') == Digest(e)
  {
    CommitWalks(d, s, live, op, e);
    AppendedEnds(s, op.checkpoint, e);
    EndsAt(s', e);
  }

  lemma EndsAt(s: Snapshot, e: Entry)
    requires StoreOk(s) && LengthsOk(s.entries) && Walk(s.entries).Ok? && e.Entry? && s.revision == e.payload.revision
    requires s.entries != [] && s.entries[|s.entries| - 1] == e
    ensures StoreChain(s) && Tip(s) == Digest(e)
  {}

  lemma CommittedShape(s: Snapshot, revision: nat, token: Token, checkpoint: bool, e: Entry,
                       publication: Option<Publication>, s': Snapshot)
    requires Committed(s, revision, token, checkpoint, e, publication) == Ok(s')
    ensures s'.revision == s.revision + 1 == revision + 1 && s'.entries == Appended(s, checkpoint, e) && s'.pending.None?
    ensures s'.publications == s.publications + (if publication.Some? then [publication.value] else [])
    ensures publication.Some? ==> !Queued(Index(s.publications), publication.value.id)
  {}

  lemma AppendedEnds(s: Snapshot, checkpoint: bool, e: Entry)
    requires LengthsOk(s.entries) && EntryLength(e) <= MAX_ENTRY + 128
    ensures var after := Appended(s, checkpoint, e);
      after != [] && after[|after| - 1] == e && LengthsOk(after)
  {}

  lemma NotQueued(publications: seq<Publication>, id: Frame)
    requires !Queued(Index(publications), id)
    ensures forall p :: p in publications ==> p.id != id
  {
    forall p | p in publications ensures p.id != id {
      var i :| 0 <= i < |publications| && publications[i] == p;
      assert Index(publications)[i].id == p.id;
    }
  }

  /** What a sealed operation brings to its commit. */
  ghost predicate ReadyToCommit(d: Device, s: Snapshot, live: Live, op: Op, e: Entry) {
    && StoreChain(s) && Mirrors(s, live.journal) && OpReplays(live.journal, op)
    && AnchorOk(d.minted, live.journal.head) && PayloadOk(live.journal, op)
    && BindingsOk(live.journal, op.payload.body.item.bindings, op) && SealedFor(d, op, e)
    && QueueOk(d, s.publications, live.journal.ledger)
  }

  lemma SealedIsReady(w: World)
    requires SafeInv(w) && HonestInv(w) && w.phase.Sealing? && w.store.pending.Some?
    ensures ReadyToCommit(w.device, w.store, w.phase.live, w.phase.op, w.phase.entry)
  {}

  lemma CommitKeeps(d: Device, s: Snapshot, sent: set<Frame>, live: Live, op: Op, e: Entry, s': Snapshot)
    requires ReadyToCommit(d, s, live, op, e) && NothingLost(d, s, sent)
    requires Committed(s, AnchorRevision(live.journal.head), op.token, op.checkpoint, e, OpPublication(op)) == Ok(s')
    ensures StoreChain(s') && QueueOk(d, s'.publications, LedgerOf(s'.entries)) && NothingLost(d, s', sent)
    ensures CommittedIs(s', live, op, e)
  {
    CommitStore(s, AnchorRevision(live.journal.head), op.token, op.checkpoint, e, OpPublication(op), s');
    CommitWalk(d, s, live, op, e, s');
    CommitMirrors(s, live, op, e, s');
    CommitQueue(d, s, live, op, e, s');
    CommitLosesNothing(d, s, sent, live, op, e, s');
  }

  lemma StoreCommitHonest(w: World, w': World)
    requires SafeInv(w) && HonestInv(w) && DoStoreCommit(w) == Some(w')
    ensures HonestInv(w')
  {
    SealedIsReady(w);
    CommitKeeps(w.device, w.store, w.sent, w.phase.live, w.phase.op, w.phase.entry, w'.store);
  }

  lemma AnchorSwapHonest(w: World, w': World)
    requires SafeInv(w) && HonestInv(w) && DoAnchorSwap(w) == Some(w')
    ensures HonestInv(w')
  {
    // the store read back at the new revision, so it is past the pending state
    assert w.store.revision == AnchorRevision(w.phase.live.journal.head) + 1;
    assert !Mirrors(w.store, w.phase.live.journal);
  }

  lemma FinishHonest(w: World, w': World)
    requires HonestInv(w) && DoFinish(w) == Some(w')
    ensures HonestInv(w')
  {}

  lemma SealHonest(w: World, nonce: nat, w': World)
    requires SafeInv(w) && HonestInv(w) && DoSeal(w, nonce) == Some(w')
    ensures HonestInv(w')
  {
    SealStep(w, nonce, w');
    SealsGrows(w.device, w.phase.op, AcceptedEntry(w.phase.op, nonce), w'.device);
    SealedQueue(w.device, w.store, w.sent, w'.device);
  }

  lemma SealedQueue(d: Device, s: Snapshot, sent: set<Frame>, d': Device)
    requires QueueOk(d, s.publications, LedgerOf(s.entries)) && NothingLost(d, s, sent)
    requires Grows(d.minted, d.publications, d'.minted, d'.publications)
    ensures QueueOk(d', s.publications, LedgerOf(s.entries)) && NothingLost(d', s, sent)
  {}

  // ---------------------------------------------------------------- staging

  lemma StagedPending(w: World, live: Live, checkpoint: bool, item: Item, binding: Option<Binding>,
                      content: Option<Content>, result: Option<Frame>, after: DocState, draw: Draw, w': World)
    requires StoreOk(w.store)
    requires StageEntry(w, live, checkpoint, item, binding, content, result, after, draw) == Some(w')
    ensures w'.phase.Staged? && w'.phase.op.payload.length <= MAX_ENTRY + 73
    ensures w'.store == w.store.(pending := w'.store.pending) && StoreOk(w'.store) && PendingIs(w'.store, w'.phase.op)
  {
    StagedShape(w, live, checkpoint, item, binding, content, result, after, draw, w');
    var op := w'.phase.op;
    StagedKeepsStore(w.store, AnchorRevision(live.journal.head), draw.token, op.payload, ReservationOf(op), checkpoint);
  }

  lemma StageHonest(w: World, live: Live, checkpoint: bool, item: Item, outbound: bool,
                    content: Option<Content>, result: Option<Frame>, after: DocState, draw: Draw, w': World)
    requires HonestInv(w) && w.phase.Idle? && live.journal == w.phase.live.journal && MemoryOk(w.device, live.journal)
    requires forall f :: f in draw.retained ==> f in live.journal.outbox
    requires item.bindings == BindingList(live.journal, checkpoint, NewBinding(live.journal, outbound, draw), draw)
    requires StageEntry(w, live, checkpoint, item, NewBinding(live.journal, outbound, draw), content, result, after, draw)
             == Some(w')
    ensures HonestInv(w')
  {
    var binding := NewBinding(live.journal, outbound, draw);
    StagedShape(w, live, checkpoint, item, binding, content, result, after, draw, w');
    var op := w'.phase.op;
    StagedRecords(w.device, live.journal, checkpoint, binding, draw);
    StagedPending(w, live, checkpoint, item, binding, content, result, after, draw, w');
    assert OpReplays(live.journal, op);
    StagedIsHonest(w, live, op, w');
  }

  lemma StagedIsHonest(w: World, live: Live, op: Op, w': World)
    requires HonestInv(w) && w.phase.Idle? && live.journal == w.phase.live.journal
    requires w'.store == w.store.(pending := w'.store.pending) && StoreOk(w'.store)
    requires PendingIs(w'.store, op) && OpReplays(live.journal, op)
    requires w'.device.publications == w.device.publications && w'.sent == w.sent && w'.anchor == w.anchor
    requires w'.phase == Phase.Staged(live, op)
    ensures HonestInv(w')
  {
    assert Tip(w'.store) == Tip(w.store);
  }

  lemma ChangeHonest(w: World, changes: set<Change>, persist: bool, nonce: nat, length: nat, draw: Draw, w': World)
    requires SafeInv(w) && HonestInv(w) && DoChange(w, changes, persist, nonce, length, draw) == Some(w')
    ensures HonestInv(w')
  {
    var live := w.phase.live;
    var j, x := live.journal, NextContent(w.device.local, live, changes);
    var checkpoint := NeedsCheckpoint(j);
    var item := FrameItem(live.doc, x, checkpoint, BindingList(j, checkpoint, NewBinding(j, persist, draw), draw));
    StageHonest(w, live, checkpoint, item, persist, Some(x), Some(Frame(x, nonce, length)), AfterFrame(live.doc, x), draw, w');
  }

  lemma ReceiveHonest(w: World, x: Content, draw: Draw, w': World)
    requires SafeInv(w) && HonestInv(w) && DoReceive(w, x, draw) == Some(w')
    ensures HonestInv(w')
  {
    var live := w.phase.live;
    var j := live.journal;
    if AdmitContent(live.doc, x) == Apply {
      var checkpoint := NeedsCheckpoint(j);
      var item := FrameItem(live.doc, x, checkpoint, BindingList(j, checkpoint, NewBinding(j, false, draw), draw));
      StageHonest(w, live, checkpoint, item, false, Some(x), None, AfterFrame(live.doc, x), draw, w');
    }
  }

  lemma RoleTransitionHonest(w: World, record: AuthorityRecord, draw: Draw, w': World)
    requires SafeInv(w) && HonestInv(w) && DoRoleTransition(w, record, draw) == Some(w')
    ensures HonestInv(w')
  {
    var live := w.phase.live.(authority := AuthorityDigest(record));
    var item := RoleItem(live.doc, live.authority, record.context, BindingList(live.journal, true, None, draw));
    StageHonest(w, live, true, item, false, None, None, AfterRole(live.doc, record.context), draw, w');
  }

  // ---------------------------------------------------------------- the rest

  lemma DiscardHonest(s: Snapshot, token: Token)
    requires StoreChain(s)
    ensures StoreChain(Discarded(s, token)) && Tip(Discarded(s, token)) == Tip(s)
  {}

  lemma GateHonest(w: World, w': World)
    requires SafeInv(w) && HonestInv(w) && (DoGateCommit(w) == Some(w') || DoGateAbort(w) == Some(w'))
    ensures HonestInv(w')
  {
    DiscardHonest(w.store, w.phase.op.token);
  }

  /** Wherever a crash lands, the store ends at the anchor or one accepted entry above it. */
  lemma CrashTip(d: Device, s: Snapshot, anchor: Option<Anchor>, phase: Phase)
    requires StoreChain(s) && AnchorOk(d.minted, anchor) && PhaseOk(d, anchor, phase) && AtHead(anchor, phase)
    requires HonestPhase(s, anchor, phase)
    ensures Tip(s) == AnchorCommitment(anchor) || OneAbove(s, anchor)
  {
    if phase.Sealing? && CommittedIs(s, phase.live, phase.op, phase.entry) {
      assert Tip(s) == Digest(phase.entry);
    }
  }

  lemma CrashHonest(w: World)
    requires SafeInv(w) && HonestInv(w)
    ensures HonestInv(w.(phase := Down))
  {
    CrashTip(w.device, w.store, w.anchor, w.phase);
  }

  lemma OpenHonest(w: World, w': World)
    requires SafeInv(w) && HonestInv(w) && DoOpen(w) == Some(w')
    ensures HonestInv(w')
  {
    HonestRestores(w.store, w.anchor, w.device.minted);
  }

  lemma RestoreSwapHonest(w: World, w': World)
    requires HonestInv(w) && DoRestoreSwap(w) == Some(w')
    ensures HonestInv(w')
  {}

  lemma RestoreDiscardHonest(w: World, w': World)
    requires HonestInv(w) && DoRestoreDiscard(w) == Some(w')
    ensures HonestInv(w')
  {
    DiscardHonest(w.store, w.phase.restored.discard.value);
  }

  lemma RestoreFinishHonest(w: World, authority: AuthorityHead, w': World)
    requires SafeInv(w) && HonestInv(w) && DoRestoreFinish(w, authority) == Some(w')
    ensures HonestInv(w')
  {
    var r := w.phase.restored;
    HonestQueueReads(w.device, w.store, r.ledger, AnchorRevision(r.stored));
  }

  lemma ReadOutboxHonest(w: World, w': World)
    requires SafeInv(w) && HonestInv(w) && DoReadOutbox(w) == Some(w')
    ensures HonestInv(w')
  {
    var j := w.phase.live.journal;
    HonestQueueReads(w.device, w.store, j.ledger, AnchorRevision(j.head));
  }

  lemma StoreSentHonest(w: World, frame: Frame, w': World)
    requires HonestInv(w) && DoStoreSent(w, frame) == Some(w')
    ensures HonestInv(w')
  {
    SentKeepsStore(w.store, frame);
    WithoutRemoves(w.store.publications, frame);
    assert Tip(w'.store) == Tip(w.store);
  }

  lemma SentFinishHonest(w: World, w': World)
    requires HonestInv(w) && DoSentFinish(w) == Some(w')
    ensures HonestInv(w')
  {}

  lemma AuthorityUpdateHonest(w: World, record: AuthorityRecord, w': World)
    requires HonestInv(w) && DoAuthorityUpdate(w, record) == Some(w')
    ensures HonestInv(w')
  {
    AuthorityPhase(w.store, w.anchor, w.phase, AuthorityDigest(record));
  }

  /** Nothing about the store depends on the authority log. */
  lemma AuthorityPhase(s: Snapshot, anchor: Option<Anchor>, p: Phase, authority: AuthorityHead)
    requires HonestPhase(s, anchor, p) && HasLive(p)
    ensures HonestPhase(s, anchor, p.(live := p.live.(authority := authority)))
  {}

  lemma RecoveryStepHonest(w: World, s: Step, w': World)
    requires SafeInv(w) && HonestInv(w) && Do(w, s) == Some(w')
    requires s.Crash? || s.Open? || s.RestoreSwap? || s.RestoreDiscard? || s.RestoreFinish?
    ensures HonestInv(w')
  {
    match s
    case Crash => CrashHonest(w);
    case Open => OpenHonest(w, w');
    case RestoreSwap => RestoreSwapHonest(w, w');
    case RestoreDiscard => RestoreDiscardHonest(w, w');
    case RestoreFinish(authority) => RestoreFinishHonest(w, authority, w');
  }

  lemma PrepareStepHonest(w: World, s: Step, w': World)
    requires SafeInv(w) && HonestInv(w) && Do(w, s) == Some(w')
    requires s.AuthorityUpdate? || s.Change? || s.Receive? || s.RoleTransition?
    ensures HonestInv(w')
  {
    match s
    case AuthorityUpdate(record) => AuthorityUpdateHonest(w, record, w');
    case Change(changes, persist, nonce, length, draw) => ChangeHonest(w, changes, persist, nonce, length, draw, w');
    case Receive(x, draw) => ReceiveHonest(w, x, draw, w');
    case RoleTransition(record, draw) => RoleTransitionHonest(w, record, draw, w');
  }

  lemma CommitStepHonest(w: World, s: Step, w': World)
    requires SafeInv(w) && HonestInv(w) && Do(w, s) == Some(w')
    requires s.GateCommit? || s.GateAbort? || s.Seal? || s.StoreCommit? || s.AnchorSwap? || s.Finish?
    ensures HonestInv(w')
  {
    match s
    case GateCommit => GateHonest(w, w');
    case GateAbort => GateHonest(w, w');
    case Seal(nonce) => SealHonest(w, nonce, w');
    case StoreCommit => StoreCommitHonest(w, w');
    case AnchorSwap => AnchorSwapHonest(w, w');
    case Finish => FinishHonest(w, w');
  }

  lemma OutboxStepHonest(w: World, s: Step, w': World)
    requires SafeInv(w) && HonestInv(w) && Do(w, s) == Some(w') && (s.ReadOutbox? || s.StoreSent? || s.SentFinish?)
    ensures HonestInv(w')
  {
    match s
    case ReadOutbox => ReadOutboxHonest(w, w');
    case StoreSent(frame) => StoreSentHonest(w, frame, w');
    case SentFinish => SentFinishHonest(w, w');
  }

  lemma HonestStep(w: World, s: Step, w': World)
    requires SafeInv(w) && HonestInv(w) && !s.Tamper? && Do(w, s) == Some(w')
    ensures HonestInv(w')
  {
    if s.Crash? || s.Open? || s.RestoreSwap? || s.RestoreDiscard? || s.RestoreFinish? {
      RecoveryStepHonest(w, s, w');
    } else if s.AuthorityUpdate? || s.Change? || s.Receive? || s.RoleTransition? {
      PrepareStepHonest(w, s, w');
    } else if s.ReadOutbox? || s.StoreSent? || s.SentFinish? {
      OutboxStepHonest(w, s, w');
    } else {
      CommitStepHonest(w, s, w');
    }
  }

  lemma {:induction false} HonestOnly(ws: seq<World>, steps: seq<Step>, i: nat)
    requires Run(ws, steps) && Honest(steps) && i < |ws|
    ensures HonestInv(ws[i])
    decreases i
  {
    if i > 0 {
      HonestOnly(ws, steps, i - 1);
      SafeRun(ws, steps, i - 1);
      HonestStep(ws[i - 1], steps[i - 1], ws[i]);
    } else {
      InitialHonest(ws[0]);
    }
  }

  lemma HonestRun(ws: seq<World>, steps: seq<Step>, i: nat)
    requires Run(ws, steps) && Honest(steps) && i < |ws|
    ensures SafeInv(ws[i]) && HonestInv(ws[i])
  {
    SafeRun(ws, steps, i);
    HonestOnly(ws, steps, i);
  }

  lemma InitialHonest(w: World)
    requires Initial(w)
    ensures HonestInv(w)
  {
    assert ChainTokens(Tip(EmptySnapshot)) == {};
  }
}
