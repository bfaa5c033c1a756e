/** Safety of every run, whatever the journal store does: the anchor only moves up one chain of
    sealed entries, and only frames recorded on that chain are ever released. */
module DocumentSafety {
  import opened Common
  import opened DocumentTypes
  import opened AuthorityHistory
  import opened ReplayJournal
  import opened JournalStoreSpec
  import opened DocumentState
  import opened AcceptedChain
  import opened ChainRecovery
  import opened DocumentRun

  ghost predicate DeviceOk(d: Device) {
    && MintedOk(d.initial, d.minted, d.publications)
    && d.publications.Keys <= d.tokens
    && forall t :: t in d.publications ==> d.publications[t].id.content.member == d.local
  }

  predicate AnchorOk(minted: Minted, a: Option<Anchor>) {
    a.Some? ==>
      && a.value.commitment.Digest?
      && a.value.commitment.entry in minted
      && a.value.revision == RevisionAt(a.value.commitment)
  }

  predicate ReleasedOk(d: Device, c: Commitment, released: set<Frame>) {
    forall f :: f in released ==> InChain(d.minted, c, f.content) && f.content.member == d.local
  }

  ghost predicate AuthorityOk(a: AuthorityHead, c: Commitment) {
    a.AuthorityDigest? && ValidHistory(a) && (c.Digest? ==> Extends(a, AuthorityAt(c)))
  }

  predicate OutboxBound(publications: AcceptedChain.Sealed, ledger: Ledger, outbox: map<Frame, Binding>) {
    forall f :: f in outbox ==>
      && outbox[f].token in ledger && ledger[outbox[f].token] == outbox[f].revision
      && outbox[f].token in publications && publications[outbox[f].token].id == f
  }

  predicate MemoryOk(d: Device, j: Memory) {
    && AnchorOk(d.minted, j.head)
    && LedgerOk(d.minted, d.publications, AnchorCommitment(j.head), j.ledger)
    && OutboxBound(d.publications, j.ledger, j.outbox)
  }

  ghost predicate LiveOk(d: Device, live: Live) {
    AuthorityOk(live.authority, AnchorCommitment(live.journal.head)) && MemoryOk(d, live.journal)
  }

  /** The live document is what the chain behind the journal's head stands for. */
  predicate DocOk(d: Device, live: Live) {
    live.doc == StateAt(d.initial, AnchorCommitment(live.journal.head))
  }

  predicate PayloadOk(j: Memory, op: Op) {
    var p := op.payload;
    && p.revision == NextRevision(j)
    && p.marker == (if op.checkpoint then 1 else 0)
    && p.parent == AnchorCommitment(j.head)
    && p.body.Sealed? && p.body.revision == p.revision && p.body.checkpoint == op.checkpoint && p.body.parent == p.parent
    && ItemCodec(p.body.item, op.checkpoint)
  }

  /** A token is the operation's new one or already bound in the ledger. */
  predicate NewOrBound(ledger: Ledger, binding: Option<Binding>, t: Token, revision: nat) {
    binding == Some(Binding(t, revision)) || (t in ledger && ledger[t] == revision)
  }

  predicate BindingsOk(j: Memory, bindings: seq<Binding>, op: Op) {
    && (forall b :: b in bindings ==> NewOrBound(j.ledger, op.binding, b.token, b.revision))
    && (forall t :: t in op.candidate ==> NewOrBound(j.ledger, op.binding, t, op.candidate[t]))
    && (forall f :: f in j.outbox ==>
          j.outbox[f].token in op.candidate && op.candidate[j.outbox[f].token] == j.outbox[f].revision)
    && (op.binding.Some? ==>
          && op.binding.value.revision == op.payload.revision
          && op.result.Some?
          && op.binding.value.token in op.candidate
          && op.candidate[op.binding.value.token] == op.binding.value.revision)
  }

  ghost predicate OpOk(d: Device, live: Live, op: Op) {
    var c := AnchorCommitment(live.journal.head);
    && PayloadOk(live.journal, op)
    && BindingsOk(live.journal, op.payload.body.item.bindings, op)
    && Transition(d.initial, c, op.checkpoint, op.payload.body.item, op.content)
    && op.after == ApplyItem(StateAt(d.initial, c), op.checkpoint, op.payload.body.item)
    && op.authority == op.payload.body.item.authorityHead
    && Extends(live.authority, op.authority)
    && (op.result.Some? ==> op.content == Some(op.result.value.content) && op.result.value.content.member == d.local)
    && (op.binding.Some? ==> op.binding.value.token in d.tokens)
  }

  predicate Unsealed(d: Device, op: Op) { op.binding.Some? ==> op.binding.value.token !in d.publications }

  predicate SealedFor(d: Device, op: Op, e: Entry) {
    && e.Entry? && e.payload == op.payload && MarkerVerifies(e)
    && e in d.minted && d.minted[e] == op.content
    && (op.binding.Some? ==>
          && op.result.Some?
          && op.binding.value.token in d.publications
          && d.publications[op.binding.value.token] == SealedPublication(op))
  }

  ghost predicate RestoringOk(d: Device, expected: Option<Anchor>, r: Restored) {
    var c := AnchorCommitment(r.stored);
    && AnchorOk(d.minted, r.stored)
    && LedgerOk(d.minted, d.publications, c, r.ledger)
    && Recover(d.initial, r.items) == Some(StateAt(d.initial, c))
    && (c.Zero? || (r.items != [] && r.items[|r.items| - 1].item.authorityHead == AuthorityAt(c)))
    && (r.finish ==> c.Digest? && c.entry.Entry? && c.entry.payload.parent == AnchorCommitment(expected))
  }

  /** What holds of an open document even when others move the anchor it shares with them. */
  ghost predicate PhaseOk(d: Device, anchor: Option<Anchor>, phase: Phase) {
    match phase
    case Down => true
    case Restoring(r, expected, _, _) => RestoringOk(d, expected, r)
    case Idle(live) => LiveOk(d, live) && DocOk(d, live)
    case Sending(live, _) => LiveOk(d, live) && DocOk(d, live)
    case Staged(live, op) => LiveOk(d, live) && DocOk(d, live) && OpOk(d, live, op) && Unsealed(d, op)
    case Applied(live, op) => LiveOk(d, live) && OpOk(d, live, op) && Unsealed(d, op) && live.doc == op.after
    case Sealing(live, op, e) => LiveOk(d, live) && OpOk(d, live, op) && SealedFor(d, op, e) && live.doc == op.after
    case Anchored(live, op, e) =>
      LiveOk(d, live) && OpOk(d, live, op) && SealedFor(d, op, e) && live.doc == op.after
      && Reaches(AnchorCommitment(anchor), Digest(e))
  }

  ghost predicate Shared(w: World) {
    && DeviceOk(w.device)
    && AnchorOk(w.device.minted, w.anchor)
    && Unforged(w.device, w.store)
    && ReleasedOk(w.device, AnchorCommitment(w.anchor), w.released)
    && PhaseOk(w.device, w.anchor, w.phase)
  }

  /** A document that is alone with its anchor stands at it. */
  predicate AtHead(anchor: Option<Anchor>, phase: Phase) {
    && (HasLive(phase) && !phase.Anchored? ==> phase.live.journal.head == anchor)
    && (phase.Anchored? ==> anchor == Some(Anchor(phase.op.payload.revision, Digest(phase.entry))))
    && (phase.Restoring? ==>
          if phase.restored.finish && !phase.swapped then phase.expected == anchor else phase.restored.stored == anchor)
  }

  ghost predicate SafeInv(w: World) {
    && DeviceOk(w.device)
    && AnchorOk(w.device.minted, w.anchor)
    && Unforged(w.device, w.store)
    && ReleasedOk(w.device, AnchorCommitment(w.anchor), w.released)
    && PhaseOk(w.device, w.anchor, w.phase)
    && AtHead(w.anchor, w.phase)
  }

  // ---------------------------------------------------------------- opening

  /** Whatever the store holds, a restore that succeeds rebuilds the state of a sealed chain. */
  lemma RestoredOk(d: Device, s: Snapshot, anchor: Option<Anchor>)
    requires DeviceOk(d) && Unforged(d, s) && Restore(s, anchor).Ok?
    ensures RestoringOk(d, anchor, Restore(s, anchor).value)
  {
    RestoreIsAnchored(s, anchor);
    RestoreWalks(s, anchor);
    WalkedAreMinted(d, s);
    WalkedStandsFor(d, s.entries);
    RestoredEnds(s, anchor);
  }

  lemma WalkedAreMinted(d: Device, s: Snapshot)
    requires Unforged(d, s) && Walk(s.entries).Ok?
    ensures forall e :: e in s.entries ==> e in d.minted
  {
    WalkedEntriesVerify(s.entries);
  }

  lemma RestoredEnds(s: Snapshot, anchor: Option<Anchor>)
    requires Restore(s, anchor).Ok?
    ensures Walk(s.entries).Ok?
    ensures var stored, last := Restore(s, anchor).value.stored, Walk(s.entries).value.last;
      && AnchorCommitment(stored) == LastCommitment(last)
      && (stored.Some? ==> last.Some? && stored.value.revision == RevisionAt(stored.value.commitment))
  {}

  /** Ledger, state and authority of the chain a walk went over. */
  lemma WalkedStandsFor(d: Device, entries: seq<Entry>)
    requires MintedOk(d.initial, d.minted, d.publications) && Walk(entries).Ok?
    requires forall e :: e in entries ==> e in d.minted
    ensures var w := Walk(entries).value;
      var c := LastCommitment(w.last);
      && LedgerOk(d.minted, d.publications, c, w.ledger)
      && Recover(d.initial, w.items) == Some(StateAt(d.initial, c))
      && Known(d.minted, c)
      && (c.Zero? || (w.items != [] && w.items[|w.items| - 1].item.authorityHead == AuthorityAt(c)))
  {
    WalkedLedger(d.initial, d.minted, d.publications, entries);
    RecoverRebuilds(d.initial, d.minted, d.publications, entries);
    if entries != [] {
      assert entries[|entries| - 1] in entries;
      LastItemHead(entries);
    }
  }

  lemma OpenShared(w: World, w': World)
    requires Shared(w) && DoOpen(w) == Some(w')
    ensures Shared(w')
  {
    RestoredOk(w.device, w.store, w.anchor);
  }

  /** Moving the anchor to an entry sealed on top of it keeps every released frame on the chain. */
  lemma ReleasedRise(d: Device, c: Commitment, c': Commitment, released: set<Frame>)
    requires ReleasedOk(d, c, released)
    requires c'.Digest? && c'.entry.Entry? && c'.entry.payload.parent == c
    ensures ReleasedOk(d, c', released)
  {}

  lemma RestoreSwapShared(w: World, w': World)
    requires Shared(w) && DoRestoreSwap(w) == Some(w')
    ensures Shared(w')
  {
    ReleasedRise(w.device, AnchorCommitment(w.anchor), AnchorCommitment(w.phase.restored.stored), w.released);
  }

  /** Reading a queue returns only frames whose tokens the ledger binds. */
  lemma {:induction false} QueueIsBound(publications: seq<Publication>, ledger: Ledger, current: nat)
    requires ReadQueue(publications, ledger, current).Some?
    ensures var q := ReadQueue(publications, ledger, current).value;
      && (forall f :: f in q.frames <==> f in q.bindings)
      && (forall f :: f in q.bindings ==>
            && q.bindings[f].token in ledger && ledger[q.bindings[f].token] == q.bindings[f].revision
            && exists p :: p in publications && PublicationOpens(p) && p.id == f && p.token == q.bindings[f].token)
  {
    if publications != [] {
      var front, p := publications[..|publications| - 1], publications[|publications| - 1];
      QueueIsBound(front, ledger, current);
      assert p in publications;
      assert forall o :: o in front ==> o in publications;
    }
  }

  lemma ReadIsBound(d: Device, s: Snapshot, ledger: Ledger, current: nat)
    requires Unforged(d, s) && ReadPublications(s.publications, ledger, current).Ok?
    ensures var q := ReadPublications(s.publications, ledger, current).value;
      && OutboxBound(d.publications, ledger, q.bindings)
      && (forall f :: f in q.frames ==> f in q.bindings)
  {
    QueueIsBound(s.publications, ledger, current);
  }

  lemma RestoreFinishShared(w: World, authority: AuthorityHead, w': World)
    requires Shared(w) && DoRestoreFinish(w, authority) == Some(w')
    ensures Shared(w')
  {
    var r := w.phase.restored;
    ReadIsBound(w.device, w.store, r.ledger, AnchorRevision(r.stored));
  }

  // ---------------------------------------------------------------- outbox

  lemma QueuedFramesAreAccepted(d: Device, s: Snapshot, j: Memory)
    requires DeviceOk(d) && Unforged(d, s) && MemoryOk(d, j)
    requires ReadPublications(s.publications, j.ledger, AnchorRevision(j.head)).Ok?
    ensures ReleasedOk(d, AnchorCommitment(j.head),
                       set f | f in ReadPublications(s.publications, j.ledger, AnchorRevision(j.head)).value.frames)
  {
    var c := AnchorCommitment(j.head);
    ReadIsBound(d, s, j.ledger, AnchorRevision(j.head));
    var q := ReadPublications(s.publications, j.ledger, AnchorRevision(j.head)).value;
    forall f | f in q.frames ensures InChain(d.minted, c, f.content) && f.content.member == d.local {
      var t := q.bindings[f].token;
      ContentAtInChain(d.minted, c, j.ledger[t], f.content);
    }
  }

  lemma ReadOutboxShared(w: World, w': World)
    requires Shared(w) && DoReadOutbox(w) == Some(w')
    ensures Shared(w')
  {
    var j := w.phase.live.journal;
    ReadIsBound(w.device, w.store, j.ledger, AnchorRevision(j.head));
    QueuedFramesAreAccepted(w.device, w.store, j);
  }

  lemma StoreSentShared(w: World, frame: Frame, w': World)
    requires Shared(w) && DoStoreSent(w, frame) == Some(w')
    ensures Shared(w')
  {
    WithoutRemoves(w.store.publications, frame);
  }

  lemma SentFinishShared(w: World, w': World)
    requires Shared(w) && DoSentFinish(w) == Some(w')
    ensures Shared(w')
  {}

  // ---------------------------------------------------------------- authority

  lemma LiveUpdated(d: Device, live: Live, record: AuthorityRecord)
    requires LiveOk(d, live) && Advances(live.authority, record)
    ensures LiveOk(d, live.(authority := AuthorityDigest(record)))
    ensures Extends(AuthorityDigest(record), live.authority)
    ensures forall g :: Extends(live.authority, g) ==> Extends(AuthorityDigest(record), g)
  {}

  lemma AuthorityUpdateShared(w: World, record: AuthorityRecord, w': World)
    requires Shared(w) && DoAuthorityUpdate(w, record) == Some(w')
    ensures Shared(w')
  {
    LiveUpdated(w.device, w.phase.live, record);
    PhaseUpdated(w.device, w.anchor, w.phase, record);
  }

  lemma PhaseUpdated(d: Device, anchor: Option<Anchor>, p: Phase, record: AuthorityRecord)
    requires PhaseOk(d, anchor, p) && HasLive(p) && Advances(p.live.authority, record)
    ensures PhaseOk(d, anchor, p.(live := p.live.(authority := AuthorityDigest(record))))
  {
    LiveUpdated(d, p.live, record);
    if !p.Idle? && !p.Sending? { OpUpdated(d, p.live, p.op, record); }
  }

  lemma OpUpdated(d: Device, live: Live, op: Op, record: AuthorityRecord)
    requires LiveOk(d, live) && OpOk(d, live, op) && Advances(live.authority, record)
    ensures OpOk(d, live.(authority := AuthorityDigest(record)), op)
  {
    LiveUpdated(d, live, record);
  }

  // ---------------------------------------------------------------- staging

  /** At a checkpoint every queued token stays bound; nothing else may join but the new one. */
  lemma BindingsStaged(j: Memory, checkpoint: bool, outbound: bool, draw: Draw, op: Op)
    requires JournalAdmits(j, checkpoint, NewBinding(j, outbound, draw), draw)
    requires forall f :: f in j.outbox ==>
               j.outbox[f].token in j.ledger && j.ledger[j.outbox[f].token] == j.outbox[f].revision
    requires op.binding == NewBinding(j, outbound, draw)
    requires op.candidate == Candidate(j, checkpoint, op.binding, draw)
    requires op.payload.revision == NextRevision(j) && (op.binding.Some? ==> op.result.Some?)
    ensures BindingsOk(j, BindingList(j, checkpoint, op.binding, draw), op)
  {
    var kept := Retained(j, draw.retained);
    var bindings := BindingList(j, checkpoint, op.binding, draw);
    forall b | b in bindings ensures NewOrBound(j.ledger, op.binding, b.token, b.revision) {
      if checkpoint && b in kept {
        var i :| 0 <= i < |kept| && kept[i] == b;
        assert draw.retained[i] in j.outbox;
      }
    }
    forall f | f in j.outbox
      ensures j.outbox[f].token in op.candidate && op.candidate[j.outbox[f].token] == j.outbox[f].revision
    {
      var i :| 0 <= i < |draw.retained| && draw.retained[i] == f;
      assert TokenList(kept)[i] == j.outbox[f].token;
    }
  }

  /** What staging leaves alone, and what it writes down. */
  lemma StagedShape(w: World, live: Live, checkpoint: bool, item: Item, binding: Option<Binding>,
                    content: Option<Content>, result: Option<Frame>, after: DocState, draw: Draw, w': World)
    requires StageEntry(w, live, checkpoint, item, binding, content, result, after, draw) == Some(w')
    ensures w'.anchor == w.anchor && w'.released == w.released && w'.sent == w.sent
    ensures w'.store.entries == w.store.entries && w'.store.publications == w.store.publications
    ensures w'.store.revision == w.store.revision == AnchorRevision(live.journal.head) && w.store.pending.None?
    ensures w'.device == if binding.Some? then w.device.(tokens := w.device.tokens + {draw.bindingToken}) else w.device
    ensures binding.Some? ==> result.Some? && draw.bindingToken !in w.device.tokens
    ensures JournalAdmits(live.journal, checkpoint, binding, draw) && ItemCodec(item, checkpoint)
    ensures w'.phase.Staged? && w'.phase.live == live
    ensures w'.phase.op == Op(draw.token, PayloadFor(live.journal, checkpoint, item, draw), checkpoint, content, result,
                              binding, Candidate(live.journal, checkpoint, binding, draw), after, item.authorityHead)
    ensures w'.store.pending.Some? && w'.store.pending.value.payload == w'.phase.op.payload
  {}

  lemma StageEntryShared(w: World, live: Live, checkpoint: bool, item: Item, outbound: bool,
                       content: Option<Content>, result: Option<Frame>, after: DocState, draw: Draw, w': World)
    requires Shared(w) && LiveOk(w.device, live) && DocOk(w.device, live)
    requires live.authority == item.authorityHead
    requires Transition(w.device.initial, AnchorCommitment(live.journal.head), checkpoint, item, content)
    requires after == ApplyItem(live.doc, checkpoint, item)
    requires result.Some? ==> content == Some(result.value.content) && result.value.content.member == w.device.local
    requires forall f :: f in draw.retained ==> f in live.journal.outbox
    requires item.bindings == BindingList(live.journal, checkpoint, NewBinding(live.journal, outbound, draw), draw)
    requires StageEntry(w, live, checkpoint, item, NewBinding(live.journal, outbound, draw), content, result, after, draw)
             == Some(w')
    ensures Shared(w')
  {
    StagedShape(w, live, checkpoint, item, NewBinding(live.journal, outbound, draw), content, result, after, draw, w');
    var op := w'.phase.op;
    BindingsStaged(live.journal, checkpoint, outbound, draw, op);
    assert PayloadOk(live.journal, op);
    StagedIsShared(w, live, op, w');
  }

  lemma StagedIsShared(w: World, live: Live, op: Op, w': World)
    requires Shared(w) && LiveOk(w.device, live) && DocOk(w.device, live)
    requires w'.anchor == w.anchor && w'.released == w.released
    requires w'.store.entries == w.store.entries && w'.store.publications == w.store.publications
    requires w'.device == w.device.(tokens := w'.device.tokens) && w.device.tokens <= w'.device.tokens
    requires w'.phase == Phase.Staged(live, op) && OpOk(w'.device, live, op)
    requires op.binding.Some? ==> op.binding.value.token !in w.device.tokens
    ensures Shared(w')
  {}

  lemma StageFrameShared(w: World, x: Content, result: Option<Frame>, persist: bool, draw: Draw, w': World)
    requires Shared(w) && w.phase.Idle?
    requires Authorized(w.phase.live.authority, x) && FrameFollows(w.phase.live.doc, x)
    requires result.Some? ==> result.value.content == x && x.member == w.device.local
    requires StageFrame(w, w.phase.live, x, result, persist, draw) == Some(w')
    ensures Shared(w')
  {
    var live := w.phase.live;
    var j := live.journal;
    var checkpoint := NeedsCheckpoint(j);
    var bindings := BindingList(j, checkpoint, NewBinding(j, persist, draw), draw);
    FrameItemReplays(live.doc, x, checkpoint, bindings);
    StageEntryShared(w, live, checkpoint, FrameItem(live.doc, x, checkpoint, bindings), persist, Some(x), result,
                   AfterFrame(live.doc, x), draw, w');
  }

  lemma ChangeShared(w: World, changes: set<Change>, persist: bool, nonce: nat, length: nat, draw: Draw, w': World)
    requires Shared(w) && DoChange(w, changes, persist, nonce, length, draw) == Some(w')
    ensures Shared(w')
  {
    var x := NextContent(w.device.local, w.phase.live, changes);
    StageFrameShared(w, x, Some(Frame(x, nonce, length)), persist, draw, w');
  }

  lemma ReceiveShared(w: World, x: Content, draw: Draw, w': World)
    requires Shared(w) && DoReceive(w, x, draw) == Some(w')
    ensures Shared(w')
  {
    if AdmitContent(w.phase.live.doc, x) == Apply { StageFrameShared(w, x, None, false, draw, w'); }
  }

  /** The context of a new authority record was never the context of the document. */
  lemma AdvancedEpoch(h: AuthorityHead, g: AuthorityHead, record: AuthorityRecord)
    requires Advances(h, record) && Extends(h, g)
    ensures Extends(AuthorityDigest(record), g)
    ensures g.AuthorityDigest? && g.record.context.epoch < record.context.epoch
  {
    ExtendsIsValid(h, g);
    if g != h { EpochsIncrease(h, g); }
  }

  lemma ContextIsNew(d: Device, c: Commitment, authority: AuthorityHead, record: AuthorityRecord)
    requires DeviceOk(d) && Known(d.minted, c) && AuthorityOk(authority, c) && Advances(authority, record)
    ensures StateAt(d.initial, c).context != Some(record.context)
    ensures c.Digest? ==> Extends(AuthorityDigest(record), AuthorityAt(c))
  {
    KnownState(d.initial, d.minted, d.publications, c);
    if c.Digest? { AdvancedEpoch(authority, AuthorityAt(c), record); }
  }

  lemma RoleTransitionShared(w: World, record: AuthorityRecord, draw: Draw, w': World)
    requires Shared(w) && DoRoleTransition(w, record, draw) == Some(w')
    ensures Shared(w')
  {
    var live := w.phase.live.(authority := AuthorityDigest(record));
    var c := AnchorCommitment(live.journal.head);
    LiveUpdated(w.device, w.phase.live, record);
    ContextIsNew(w.device, c, w.phase.live.authority, record);
    var bindings := BindingList(live.journal, true, None, draw);
    RoleItemReplays(live.doc, live.authority, record.context, bindings);
    StageEntryShared(w, live, true, RoleItem(live.doc, live.authority, record.context, bindings), false, None, None,
                   AfterRole(live.doc, record.context), draw, w');
  }

  // ---------------------------------------------------------------- committing

  lemma GateShared(w: World, w': World)
    requires Shared(w) && (DoGateCommit(w) == Some(w') || DoGateAbort(w) == Some(w'))
    ensures Shared(w')
  {}

  /** What the sealed device holds beyond the old one. */
  predicate Seals(d: Device, op: Op, e: Entry, d': Device) {
    && e !in d.minted && e.Entry? && e.payload == op.payload && MarkerVerifies(e)
    && d'.minted == d.minted[e := op.content]
    && (op.binding.Some? ==> op.result.Some?)
    && d'.publications == (if op.binding.Some? then d.publications[op.binding.value.token := SealedPublication(op)] else d.publications)
    && d'.initial == d.initial && d'.local == d.local && d'.tokens == d.tokens
  }

  lemma SealsGrows(d: Device, op: Op, e: Entry, d': Device)
    requires Seals(d, op, e, d') && Unsealed(d, op)
    ensures Grows(d.minted, d.publications, d'.minted, d'.publications)
  {}

  /** The operation's own token is bound at the new entry. */
  lemma NewTokenSealed(d: Device, op: Op, e: Entry, d': Device)
    requires Seals(d, op, e, d') && op.binding.Some?
    requires op.binding.value.revision == op.payload.revision >= 1 && op.content == Some(op.result.value.content)
    ensures TokenOk(d'.minted, d'.publications, Digest(e), op.binding.value.token, op.binding.value.revision)
  {}

  /** A token bound below stays bound at the new entry. */
  lemma OldTokenSealed(d: Device, c: Commitment, e: Entry, d': Device, t: Token, r: nat)
    requires MintedOk(d.initial, d.minted, d.publications) && Known(d.minted, c) && TokenOk(d.minted, d.publications, c, t, r)
    requires Grows(d.minted, d.publications, d'.minted, d'.publications)
    requires e.Entry? && e.payload.parent == c && e.payload.revision == RevisionAt(c) + 1
    ensures TokenOk(d'.minted, d'.publications, Digest(e), t, r)
  {
    TokenGrows(d.initial, d.minted, d.publications, d'.minted, d'.publications, c, t, r);
    TokenRises(d'.minted, d'.publications, e, t, r);
  }

  /** Every binding the entry carries is bound at it. */
  lemma SealedBindings(d: Device, live: Live, op: Op, e: Entry, d': Device)
    requires MintedOk(d.initial, d.minted, d.publications) && MemoryOk(d, live.journal)
    requires PayloadOk(live.journal, op) && BindingsOk(live.journal, op.payload.body.item.bindings, op)
    requires op.binding.Some? ==> op.content == Some(op.result.value.content)
    requires Seals(d, op, e, d') && Unsealed(d, op)
    ensures forall b :: b in op.payload.body.item.bindings ==> TokenOk(d'.minted, d'.publications, Digest(e), b.token, b.revision)
  {
    SealsGrows(d, op, e, d');
    var c := AnchorCommitment(live.journal.head);
    forall b | b in op.payload.body.item.bindings ensures TokenOk(d'.minted, d'.publications, Digest(e), b.token, b.revision) {
      assert NewOrBound(live.journal.ledger, op.binding, b.token, b.revision);
      if op.binding == Some(Binding(b.token, b.revision)) {
        NewTokenSealed(d, op, e, d');
      } else {
        OldTokenSealed(d, c, e, d', b.token, b.revision);
      }
    }
  }

  lemma SealedEntryOk(d: Device, live: Live, op: Op, e: Entry)
    requires AnchorOk(d.minted, live.journal.head) && PayloadOk(live.journal, op)
    requires Transition(d.initial, AnchorCommitment(live.journal.head), op.checkpoint, op.payload.body.item, op.content)
    requires e in d.minted && d.minted[e] == op.content && e.Entry? && e.payload == op.payload && MarkerVerifies(e)
    requires forall b :: b in op.payload.body.item.bindings ==> TokenOk(d.minted, d.publications, Digest(e), b.token, b.revision)
    ensures EntryOk(d.initial, d.minted, d.publications, e)
  {
    assert Decrypts(e.payload);
  }

  lemma SealedMinted(d: Device, op: Op, e: Entry, d': Device)
    requires MintedOk(d.initial, d.minted, d.publications) && Seals(d, op, e, d') && Unsealed(d, op)
    requires e in d'.minted && EntryOk(d'.initial, d'.minted, d'.publications, e)
    ensures MintedOk(d'.initial, d'.minted, d'.publications)
  {
    SealsGrows(d, op, e, d');
    forall f | f in d'.minted ensures EntryOk(d'.initial, d'.minted, d'.publications, f) {
      if f != e { EntryGrows(d.initial, d.minted, d.publications, d'.minted, d'.publications, f); }
    }
  }

  /** Sealing an operation extends the minted chain by one well-formed entry. */
  lemma SealedChain(d: Device, live: Live, op: Op, e: Entry, d': Device)
    requires MintedOk(d.initial, d.minted, d.publications) && MemoryOk(d, live.journal)
    requires PayloadOk(live.journal, op) && BindingsOk(live.journal, op.payload.body.item.bindings, op)
    requires Transition(d.initial, AnchorCommitment(live.journal.head), op.checkpoint, op.payload.body.item, op.content)
    requires op.binding.Some? ==> op.content == Some(op.result.value.content)
    requires Unsealed(d, op) && Seals(d, op, e, d')
    ensures MintedOk(d'.initial, d'.minted, d'.publications)
  {
    SealedBindings(d, live, op, e, d');
    SealedEntryOk(d', live, op, e);
    SealedMinted(d, op, e, d');
  }

  lemma SealedOwners(d: Device, op: Op, e: Entry, d': Device)
    requires DeviceOk(d) && Seals(d, op, e, d') && MintedOk(d'.initial, d'.minted, d'.publications)
    requires op.binding.Some? ==> op.binding.value.token in d.tokens && op.result.value.content.member == d.local
    ensures DeviceOk(d')
  {}

  lemma SealedLive(d: Device, live: Live, d': Device)
    requires DeviceOk(d) && LiveOk(d, live)
    requires Grows(d.minted, d.publications, d'.minted, d'.publications)
    ensures LiveOk(d', live)
  {
    LedgerGrows(d.initial, d.minted, d.publications, d'.minted, d'.publications,
                AnchorCommitment(live.journal.head), live.journal.ledger);
  }

  lemma ReleasedGrows(d: Device, c: Commitment, released: set<Frame>, d': Device)
    requires DeviceOk(d) && Known(d.minted, c) && ReleasedOk(d, c, released) && d'.local == d.local
    requires Grows(d.minted, d.publications, d'.minted, d'.publications)
    ensures ReleasedOk(d', c, released)
  {
    forall f | f in released ensures InChain(d'.minted, c, f.content) && f.content.member == d'.local {
      InChainGrows(d.initial, d.minted, d.publications, d'.minted, d'.publications, c, f.content);
    }
  }

  lemma SealShared(w: World, nonce: nat, w': World)
    requires Shared(w) && DoSeal(w, nonce) == Some(w')
    ensures Shared(w')
  {
    var live, op, d, d' := w.phase.live, w.phase.op, w.device, w'.device;
    SealStep(w, nonce, w');
    SealsGrows(d, op, AcceptedEntry(op, nonce), d');
    SealedChain(d, live, op, AcceptedEntry(op, nonce), d');
    SealedOwners(d, op, AcceptedEntry(op, nonce), d');
    SealedLive(d, live, d');
    ReleasedGrows(d, AnchorCommitment(w.anchor), w.released, d');
  }

  lemma SealStep(w: World, nonce: nat, w': World)
    requires DoSeal(w, nonce) == Some(w') && (w.phase.op.binding.Some? ==> w.phase.op.result.Some?)
    ensures Seals(w.device, w.phase.op, AcceptedEntry(w.phase.op, nonce), w'.device)
    ensures SealedFor(w'.device, w.phase.op, AcceptedEntry(w.phase.op, nonce))
  {}

  lemma StoreCommitShared(w: World, w': World)
    requires Shared(w) && DoStoreCommit(w) == Some(w')
    ensures Shared(w')
  {
    var d, op, e, publication := w.device, w.phase.op, w.phase.entry, OpPublication(w.phase.op);
    assert publication.Some? ==> d.publications[publication.value.token] == publication.value;
    CommittedUnforged(d, w.store, AnchorRevision(w.phase.live.journal.head), op.token, op.checkpoint, e, publication);
  }

  lemma CommittedUnforged(d: Device, s: Snapshot, revision: nat, token: Token, checkpoint: bool, e: Entry,
                          publication: Option<Publication>)
    requires Unforged(d, s) && e in d.minted
    requires publication.Some? ==>
               publication.value.token in d.publications && d.publications[publication.value.token] == publication.value
    requires Committed(s, revision, token, checkpoint, e, publication).Ok?
    ensures Unforged(d, Committed(s, revision, token, checkpoint, e, publication).value)
  {
    var s' := Committed(s, revision, token, checkpoint, e, publication).value;
    forall f | f in s'.entries && MarkerVerifies(f) ensures f in d.minted {
      assert f == e || f in s.entries;
    }
  }

  lemma AnchorSwapShared(w: World, w': World)
    requires Shared(w) && DoAnchorSwap(w) == Some(w')
    ensures Shared(w')
  {
    ReleasedRise(w.device, AnchorCommitment(w.anchor), AnchorCommitment(w'.anchor), w.released);
  }

  /** The candidate ledger binds tokens of the chain that now ends at the new entry. */
  lemma CandidateOk(d: Device, live: Live, op: Op, e: Entry)
    requires LiveOk(d, live) && OpOk(d, live, op) && SealedFor(d, op, e)
    ensures LedgerOk(d.minted, d.publications, Digest(e), op.candidate)
  {
    forall t | t in op.candidate ensures TokenOk(d.minted, d.publications, Digest(e), t, op.candidate[t]) {
      if op.binding != Some(Binding(t, op.candidate[t])) {
        TokenRises(d.minted, d.publications, e, t, op.candidate[t]);
      }
    }
  }

  lemma FinishedMemory(d: Device, live: Live, op: Op, e: Entry)
    requires LiveOk(d, live) && OpOk(d, live, op) && SealedFor(d, op, e)
    ensures MemoryOk(d, AfterCommit(live.journal, op, e))
  {
    CandidateOk(d, live, op, e);
    FinishedOutbox(d, live.journal, op, e);
  }

  lemma FinishedOutbox(d: Device, j: Memory, op: Op, e: Entry)
    requires OutboxBound(d.publications, j.ledger, j.outbox) && SealedFor(d, op, e)
    requires op.payload.body.Sealed? && BindingsOk(j, op.payload.body.item.bindings, op)
    ensures OutboxBound(d.publications, op.candidate, AfterCommit(j, op, e).outbox)
  {}

  lemma FinishShared(w: World, w': World)
    requires Shared(w) && DoFinish(w) == Some(w')
    ensures Shared(w')
  {
    var live, op, e := w.phase.live, w.phase.op, w.phase.entry;
    FinishedMemory(w.device, live, op, e);
    assert AuthorityOk(live.authority, Digest(e));
    if op.result.Some? { InChainRises(w.device.minted, AnchorCommitment(w.anchor), Digest(e), op.result.value.content); }
  }

  lemma StoreOnlyShared(w: World, s: Step, w': World)
    requires Shared(w) && (s.Tamper? || s.Crash? || s.RestoreDiscard?) && Do(w, s) == Some(w')
    ensures Shared(w')
  {}

  lemma RecoveryStepShared(w: World, s: Step, w': World)
    requires Shared(w) && Do(w, s) == Some(w') && (s.Open? || s.RestoreSwap? || s.RestoreFinish?)
    ensures Shared(w')
  {
    match s
    case Open => OpenShared(w, w');
    case RestoreSwap => RestoreSwapShared(w, w');
    case RestoreFinish(authority) => RestoreFinishShared(w, authority, w');
  }

  lemma PrepareStepShared(w: World, s: Step, w': World)
    requires Shared(w) && Do(w, s) == Some(w') && (s.AuthorityUpdate? || s.Change? || s.Receive? || s.RoleTransition?)
    ensures Shared(w')
  {
    match s
    case AuthorityUpdate(record) => AuthorityUpdateShared(w, record, w');
    case Change(changes, persist, nonce, length, draw) => ChangeShared(w, changes, persist, nonce, length, draw, w');
    case Receive(x, draw) => ReceiveShared(w, x, draw, w');
    case RoleTransition(record, draw) => RoleTransitionShared(w, record, draw, w');
  }

  lemma CommitStepShared(w: World, s: Step, w': World)
    requires Shared(w) && Do(w, s) == Some(w')
    requires s.GateCommit? || s.GateAbort? || s.Seal? || s.StoreCommit? || s.AnchorSwap? || s.Finish?
    ensures Shared(w')
  {
    match s
    case GateCommit => GateShared(w, w');
    case GateAbort => GateShared(w, w');
    case Seal(nonce) => SealShared(w, nonce, w');
    case StoreCommit => StoreCommitShared(w, w');
    case AnchorSwap => AnchorSwapShared(w, w');
    case Finish => FinishShared(w, w');
  }

  lemma OutboxStepShared(w: World, s: Step, w': World)
    requires Shared(w) && Do(w, s) == Some(w') && (s.ReadOutbox? || s.StoreSent? || s.SentFinish?)
    ensures Shared(w')
  {
    match s
    case ReadOutbox => ReadOutboxShared(w, w');
    case StoreSent(frame) => StoreSentShared(w, frame, w');
    case SentFinish => SentFinishShared(w, w');
  }

  lemma SharedStep(w: World, s: Step, w': World)
    requires Shared(w) && Do(w, s) == Some(w')
    ensures Shared(w')
  {
    if s.Open? || s.RestoreSwap? || s.RestoreFinish? {
      RecoveryStepShared(w, s, w');
    } else if s.AuthorityUpdate? || s.Change? || s.Receive? || s.RoleTransition? {
      PrepareStepShared(w, s, w');
    } else if s.ReadOutbox? || s.StoreSent? || s.SentFinish? {
      OutboxStepShared(w, s, w');
    } else if s.Tamper? || s.Crash? || s.RestoreDiscard? {
      StoreOnlyShared(w, s, w');
    } else {
      CommitStepShared(w, s, w');
    }
  }

  // ---------------------------------------------------------------- a document alone with its anchor

  lemma AtHeadStep(w: World, s: Step, w': World)
    requires AtHead(w.anchor, w.phase) && Do(w, s) == Some(w')
    ensures AtHead(w'.anchor, w'.phase)
  {
    if s.Open? { RestoreIsAnchored(w.store, w.anchor); }
  }

  lemma SafeStep(w: World, s: Step, w': World)
    requires SafeInv(w) && Do(w, s) == Some(w')
    ensures SafeInv(w')
  {
    SharedStep(w, s, w');
    AtHeadStep(w, s, w');
  }

  lemma OpenSafe(w: World, w': World)
    requires SafeInv(w) && DoOpen(w) == Some(w')
    ensures SafeInv(w')
  {
    OpenShared(w, w');
    RestoreIsAnchored(w.store, w.anchor);
  }

  lemma RestoreSwapSafe(w: World, w': World)
    requires SafeInv(w) && DoRestoreSwap(w) == Some(w')
    ensures SafeInv(w')
  {
    RestoreSwapShared(w, w');
  }

  lemma ChangeSafe(w: World, changes: set<Change>, persist: bool, nonce: nat, length: nat, draw: Draw, w': World)
    requires SafeInv(w) && DoChange(w, changes, persist, nonce, length, draw) == Some(w')
    ensures SafeInv(w')
  {
    ChangeShared(w, changes, persist, nonce, length, draw, w');
  }

  lemma GateSafe(w: World, w': World)
    requires SafeInv(w) && DoGateCommit(w) == Some(w')
    ensures SafeInv(w')
  {
    GateShared(w, w');
  }

  lemma SealSafe(w: World, nonce: nat, w': World)
    requires SafeInv(w) && DoSeal(w, nonce) == Some(w')
    ensures SafeInv(w')
  {
    SealShared(w, nonce, w');
  }

  lemma StoreCommitSafe(w: World, w': World)
    requires SafeInv(w) && DoStoreCommit(w) == Some(w')
    ensures SafeInv(w')
  {
    StoreCommitShared(w, w');
  }

  lemma {:induction false} SafeRun(ws: seq<World>, steps: seq<Step>, i: nat)
    requires Run(ws, steps) && i < |ws|
    ensures SafeInv(ws[i])
    decreases i
  {
    if i > 0 {
      SafeRun(ws, steps, i - 1);
      SafeStep(ws[i - 1], steps[i - 1], ws[i]);
    }
  }
}
