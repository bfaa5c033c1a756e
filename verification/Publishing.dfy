/** From a local change to the frame its caller gets: the record joins the queue with the commit, and a
    crash after that hands the frame out when the document is reopened. */
module Publishing {
  import opened Common
  import opened DocumentTypes
  import opened AuthorityHistory
  import opened ReplayJournal
  import opened JournalStoreSpec
  import opened DocumentState
  import opened AcceptedChain
  import opened DocumentRun
  import opened DocumentSafety
  import opened DocumentTheorems
  import opened HonestJournal
  import opened HonestSteps
  import opened CrashSafety
  import opened DocumentProgress
  import opened PublicationQueue

  // ---------------------------------------------------------------- the queue is handed out

  lemma ReadOutboxSucceeds(w: World)
    requires SafeInv(w) && HonestInv(w) && w.phase.Idle?
    ensures DoReadOutbox(w).Some?
    ensures forall p :: p in w.store.publications ==> p.id in DoReadOutbox(w).value.released
  {
    var j := w.phase.live.journal;
    HonestQueueReads(w.device, w.store, j.ledger, AnchorRevision(j.head));
    var q := ReadPublications(w.store.publications, j.ledger, AnchorRevision(j.head)).value;
    forall p | p in w.store.publications ensures p.id in DoReadOutbox(w).value.released {
      var i :| 0 <= i < |w.store.publications| && w.store.publications[i] == p;
      assert q.frames[i] == p.id;
    }
  }

  /** Crash at any moment, reopen, ask for the pending publications: every queued frame is handed out. */
  lemma QueueIsReleased(w: World, authority: AuthorityHead)
    requires SafeInv(w) && HonestInv(w) && AuthorityOk(authority, Tip(w.store))
    ensures Reopen(w, authority).Some? && DoReadOutbox(Reopen(w, authority).value).Some?
    ensures forall p :: p in w.store.publications ==> p.id in DoReadOutbox(Reopen(w, authority).value).value.released
  {
    ReopenSucceeds(w, authority);
    ReopenKeepsBoth(w, authority);
    ReadOutboxSucceeds(Reopen(w, authority).value);
  }

  lemma EveryQueuedFrameIsReleased(ws: seq<World>, steps: seq<Step>, i: nat, authority: AuthorityHead)
    requires Run(ws, steps) && Honest(steps) && i < |ws| && AuthorityOk(authority, Tip(ws[i].store))
    ensures Reopen(ws[i], authority).Some? && DoReadOutbox(Reopen(ws[i], authority).value).Some?
    ensures forall p :: p in ws[i].store.publications ==> p.id in DoReadOutbox(Reopen(ws[i], authority).value).value.released
  {
    HonestRun(ws, steps, i);
    QueueIsReleased(ws[i], authority);
  }

  // ---------------------------------------------------------------- one operation, step by step

  /** The worlds an uninterrupted operation passes through once its entry is staged. */
  datatype Passage = Passage(staged: World, applied: World, sealing: World, stored: World, anchored: World, done: World)

  ghost predicate Passes(p: Passage, nonce: nat) {
    && DoGateCommit(p.staged) == Some(p.applied) && DoSeal(p.applied, nonce) == Some(p.sealing)
    && DoStoreCommit(p.sealing) == Some(p.stored) && DoAnchorSwap(p.stored) == Some(p.anchored)
    && DoFinish(p.anchored) == Some(p.done)
  }

  ghost predicate BothInv(w: World) { SafeInv(w) && HonestInv(w) }

  lemma PassageKeeps(p: Passage, nonce: nat)
    requires BothInv(p.staged) && Passes(p, nonce)
    ensures BothInv(p.applied) && BothInv(p.sealing) && BothInv(p.stored) && BothInv(p.anchored) && BothInv(p.done)
  {
    GateSafe(p.staged, p.applied);
    GateHonest(p.staged, p.applied);
    SealSafe(p.applied, nonce, p.sealing);
    SealHonest(p.applied, nonce, p.sealing);
    PassageEnds(p, nonce);
  }

  lemma PassageEnds(p: Passage, nonce: nat)
    requires BothInv(p.sealing) && Passes(p, nonce)
    ensures BothInv(p.stored) && BothInv(p.anchored) && BothInv(p.done)
  {
    StoreCommitSafe(p.sealing, p.stored);
    StoreCommitHonest(p.sealing, p.stored);
    AnchorSwapKeeps(p.stored, p.anchored);
    FinishKeeps(p.anchored, p.done);
  }

  lemma AnchorSwapKeeps(w: World, w': World)
    requires BothInv(w) && DoAnchorSwap(w) == Some(w')
    ensures BothInv(w')
  {
    AnchorSwapShared(w, w');
    AnchorSwapHonest(w, w');
  }

  lemma FinishKeeps(w: World, w': World)
    requires BothInv(w) && DoFinish(w) == Some(w')
    ensures BothInv(w')
  {
    FinishShared(w, w');
    FinishHonest(w, w');
  }

  /** An applied operation always passes. */
  lemma AppliedPasses(staged: World, w: World, nonce: nat) returns (p: Passage)
    requires DoGateCommit(staged) == Some(w) && Complete(w, nonce).Some?
    ensures p.staged == staged && Passes(p, nonce)
  {
    var sealing := DoSeal(w, nonce).value;
    var stored := DoStoreCommit(sealing).value;
    var anchored := DoAnchorSwap(stored).value;
    p := Passage(staged, w, sealing, stored, anchored, DoFinish(anchored).value);
  }

  /** A staged operation whose authority is still the current one always passes. */
  lemma StagedPasses(w: World, nonce: nat) returns (p: Passage)
    requires BothInv(w) && w.phase.Staged? && w.phase.live.authority == w.phase.op.authority
    requires AcceptedEntry(w.phase.op, nonce) !in w.device.minted
    ensures p.staged == w && Passes(p, nonce)
  {
    var applied := DoGateCommit(w).value;
    GateSafe(w, applied);
    GateHonest(w, applied);
    AppliedOperationCompletes(applied, nonce);
    p := AppliedPasses(w, applied, nonce);
  }

  lemma SealedShape(p: Passage, nonce: nat)
    requires Passes(p, nonce)
    ensures var op := p.staged.phase.op;
      && p.sealing.phase == Sealing(p.applied.phase.live, op, AcceptedEntry(op, nonce))
      && p.applied.phase.live.journal == p.staged.phase.live.journal && p.applied.phase.live.doc == op.after
      && p.sealing.store == p.staged.store && p.sealing.anchor == p.staged.anchor && p.sealing.released == p.staged.released
      && p.sealing.device.minted == p.staged.device.minted[AcceptedEntry(op, nonce) := op.content]
      && p.sealing.device.local == p.staged.device.local
  {}

  lemma EndShape(p: Passage, nonce: nat)
    requires Passes(p, nonce) && p.sealing.phase.Sealing?
    ensures var op, e := p.sealing.phase.op, p.sealing.phase.entry;
      && p.stored.store == p.anchored.store == p.done.store
      && p.stored.device == p.anchored.device == p.done.device == p.sealing.device
      && p.done.anchor == Some(Anchor(op.payload.revision, Digest(e)))
      && p.stored.store.revision == op.payload.revision
      && p.done.phase.Idle? && p.done.phase.live.doc == p.sealing.phase.live.doc
      && p.done.phase.live.journal == AfterCommit(p.sealing.phase.live.journal, op, e) && p.stored.phase == p.sealing.phase
      && p.done.released == p.sealing.released + (if op.result.Some? then {op.result.value} else {})
  {}

  lemma StoredShape(w: World, w': World)
    requires BothInv(w) && w.phase.Sealing? && DoStoreCommit(w) == Some(w')
    ensures w'.store.publications == w.store.publications + (if OpPublication(w.phase.op).Some? then [OpPublication(w.phase.op).value] else [])
    ensures Tip(w'.store) == Digest(w.phase.entry) && w'.store.pending.None?
  {
    var op, e := w.phase.op, w.phase.entry;
    SealedIsReady(w);
    CommitStore(w.store, AnchorRevision(w.phase.live.journal.head), op.token, op.checkpoint, e, OpPublication(op), w'.store);
    CommitWalk(w.device, w.store, w.phase.live, op, e, w'.store);
  }

  /** What the steps leave in store, anchor and fields. */
  lemma PassageShape(p: Passage, nonce: nat)
    requires BothInv(p.staged) && Passes(p, nonce)
    ensures var op := p.staged.phase.op;
      var e := AcceptedEntry(op, nonce);
      && p.stored.store == p.anchored.store == p.done.store
      && p.stored.store.publications == p.staged.store.publications + (if OpPublication(op).Some? then [OpPublication(op).value] else [])
      && p.done.device.minted == p.staged.device.minted[e := op.content]
      && Tip(p.stored.store) == Digest(e)
      && p.done.anchor == Some(Anchor(op.payload.revision, Digest(e))) && p.done.store.revision == op.payload.revision
      && p.done.phase.Idle? && p.done.phase.live.doc == op.after
      && p.done.released == p.staged.released + (if op.result.Some? then {op.result.value} else {})
  {
    PassageKeeps(p, nonce);
    SealedShape(p, nonce);
    StoredShape(p.sealing, p.stored);
    EndShape(p, nonce);
  }

  /** The entry of a published operation binds its token. */
  lemma TokenIsBound(w: World)
    requires BothInv(w) && w.phase.Staged? && w.phase.op.binding.Some?
    ensures exists b :: b in w.phase.op.payload.body.item.bindings && b.token == w.phase.op.binding.value.token
  {
    var live, op := w.phase.live, w.phase.op;
    var base := if op.checkpoint then map[] else live.journal.ledger;
    RecordAllKeys(base, op.payload.body.item.bindings, op.payload.revision, op.checkpoint);
    assert op.binding.value.token !in live.journal.ledger;
    assert op.binding.value.token in Tokens(op.payload.body.item.bindings);
  }

  // ---------------------------------------------------------------- publishing a change

  /** The queue gained exactly one record, for this frame, bound by the accepted chain; or none. */
  predicate Published(before: World, after: World, f: Frame, persist: bool, token: Token) {
    if persist then
      && |after.store.publications| == |before.store.publications| + 1
      && after.store.publications[..|before.store.publications|] == before.store.publications
      && var p := after.store.publications[|before.store.publications|];
      && p.id == f && p.token == token && PublicationOpens(p)
      && token in ChainTokens(Tip(after.store)) && token !in ChainTokens(Tip(before.store))
    else after.store.publications == before.store.publications
  }

  lemma PassagePublishes(w: World, changes: set<Change>, persist: bool, frameNonce: nat, length: nat, draw: Draw, p: Passage, nonce: nat)
    requires Resting(w) && DoChange(w, changes, persist, frameNonce, length, draw) == Some(p.staged) && Passes(p, nonce)
    requires BothInv(p.staged)
    ensures var op := p.staged.phase.op;
      && op.result.Some? && Published(w, p.stored, op.result.value, persist, draw.bindingToken)
      && p.stored.store == p.anchored.store == p.done.store
  {
    StagedCarries(w, changes, persist, frameNonce, length, draw, p.staged);
    PassageShape(p, nonce);
    var op, n := p.staged.phase.op, |w.store.publications|;
    if persist {
      TokenIsBound(p.staged);
      assert draw.bindingToken in ChainTokens(Digest(AcceptedEntry(op, nonce)));
      assert forall t :: t in ChainTokens(Tip(w.store)) ==> t in w.device.tokens;
    }
  }

  /** What a completed change leaves behind. */
  ghost predicate Completed(w: World, op: Op, done: World)
    requires op.result.Some?
  {
    && InChain(done.device.minted, AnchorCommitment(done.anchor), op.result.value.content)
    && done.released == w.released + {op.result.value}
    && done.phase.Idle? && done.phase.live.doc == op.after
    && AnchorRevision(done.anchor) == done.store.revision == w.store.revision + 1
  }

  lemma PassageCompletes(w: World, p: Passage, nonce: nat)
    requires BothInv(p.staged) && Passes(p, nonce) && p.staged.released == w.released
    requires p.staged.phase.op.result.Some? && p.staged.phase.op.content == Some(p.staged.phase.op.result.value.content)
    requires p.staged.phase.op.payload.revision == w.store.revision + 1
    ensures Completed(w, p.staged.phase.op, p.done)
  {
    PassageShape(p, nonce);
  }

  lemma PassageLists(p: Passage, nonce: nat)
    requires BothInv(p.staged) && Passes(p, nonce) && PhaseLists(p.staged.store, p.staged.phase)
    ensures Resting(p.done)
  {
    PassageKeeps(p, nonce);
    SealedShape(p, nonce);
    SealedLists(p.sealing, p.staged.phase.live.journal.outbox);
    StoreCommitLists(p.sealing, p.stored);
    StoredShape(p.sealing, p.stored);
    EndShape(p, nonce);
    DoneLists(p.stored.store, p.done.phase, p.sealing.phase);
  }

  lemma DoneLists(s: Snapshot, done: Phase, sealing: Phase)
    requires sealing.Sealing? && done.Idle? && s.pending.None? && PhaseLists(s, sealing)
    requires done.live.journal == AfterCommit(sealing.live.journal, sealing.op, sealing.entry)
    ensures PhaseLists(s, done)
  {}

  lemma SealedLists(w: World, outbox: map<Frame, Binding>)
    requires w.phase.Sealing? && w.phase.live.journal.outbox == outbox && w.store.pending.Some? && Lists(w.store, outbox)
    ensures PhaseLists(w.store, w.phase)
  {}

  lemma ChangeStaged(w: World, changes: set<Change>, persist: bool, frameNonce: nat, length: nat, draw: Draw, staged: World)
    requires Resting(w) && DoChange(w, changes, persist, frameNonce, length, draw) == Some(staged)
    ensures BothInv(staged) && staged.phase.Staged? && PhaseLists(staged.store, staged.phase)
    ensures staged.phase.live == w.phase.live && staged.device.minted == w.device.minted && staged.released == w.released
    ensures CarriesChange(w, staged.phase.op, changes, persist, frameNonce, length, draw)
    ensures staged.phase.op.payload.revision == w.store.revision + 1
  {
    ChangeSafe(w, changes, persist, frameNonce, length, draw, staged);
    ChangeHonest(w, changes, persist, frameNonce, length, draw, staged);
    StagedCarries(w, changes, persist, frameNonce, length, draw, staged);
    StagedFrom(w, changes, persist, frameNonce, length, draw, staged);
  }

  lemma StagedFrom(w: World, changes: set<Change>, persist: bool, frameNonce: nat, length: nat, draw: Draw, staged: World)
    requires Resting(w) && DoChange(w, changes, persist, frameNonce, length, draw) == Some(staged) && staged.phase.Staged?
    requires staged.store.publications == w.store.publications && staged.phase.live == w.phase.live
    ensures PhaseLists(staged.store, staged.phase)
    ensures staged.device.minted == w.device.minted && staged.released == w.released
    ensures staged.phase.op.payload.revision == w.store.revision + 1
  {
    RevisionIsHead(w);
  }

  /** A staged local change can always be completed under its authority. When it is, the frame carries
      exactly the changes, is the member's next one and is recorded behind the anchor; the live document
      grew by exactly the changes; the frame is returned; and if publications are persisted the queue
      gained exactly one record for it, otherwise none. */
  lemma ChangePublishes(w: World, changes: set<Change>, persist: bool, frameNonce: nat, length: nat, draw: Draw, staged: World, nonce: nat)
    returns (p: Passage)
    requires Resting(w) && DoChange(w, changes, persist, frameNonce, length, draw) == Some(staged)
    requires staged.phase.Staged? ==> AcceptedEntry(staged.phase.op, nonce) !in w.device.minted
    ensures p.staged == staged && Passes(p, nonce) && Resting(p.done)
    ensures staged.phase.Staged? && CarriesChange(w, staged.phase.op, changes, persist, frameNonce, length, draw)
    ensures Completed(w, staged.phase.op, p.done)
    ensures Published(w, p.done, staged.phase.op.result.value, persist, draw.bindingToken)
    ensures p.done.phase.live.doc.document == w.phase.live.doc.document + changes
  {
    ChangeStaged(w, changes, persist, frameNonce, length, draw, staged);
    p := StagedPasses(staged, nonce);
    PassageCompletes(w, p, nonce);
    PassageLists(p, nonce);
    PassagePublishes(w, changes, persist, frameNonce, length, draw, p, nonce);
  }

  /** A crash at any moment after the store commit, before the anchor moved, before the call returned or
      after it: once the document is reopened and asked for its pending publications, the frame of a
      persisted change is handed out. */
  lemma InterruptedChangeIsReleased(w: World, changes: set<Change>, frameNonce: nat, length: nat, draw: Draw,
                                    p: Passage, nonce: nat, moment: World, authority: AuthorityHead)
    requires Resting(w) && DoChange(w, changes, true, frameNonce, length, draw) == Some(p.staged) && Passes(p, nonce)
    requires moment in {p.stored, p.anchored, p.done} && AuthorityOk(authority, Tip(moment.store))
    ensures Reopen(moment, authority).Some? && DoReadOutbox(Reopen(moment, authority).value).Some?
    ensures p.staged.phase.op.result.Some?
    ensures p.staged.phase.op.result.value in DoReadOutbox(Reopen(moment, authority).value).value.released
  {
    ChangeStaged(w, changes, true, frameNonce, length, draw, p.staged);
    PassageKeeps(p, nonce);
    PassagePublishes(w, changes, true, frameNonce, length, draw, p, nonce);
    QueueIsReleased(moment, authority);
    var record := moment.store.publications[|w.store.publications|];
    assert record in moment.store.publications;
  }

  // ---------------------------------------------------------------- receiving and changing roles

  lemma ReceivedStaged(w: World, x: Content, draw: Draw, staged: World)
    requires Resting(w) && DoReceive(w, x, draw) == Some(staged) && staged.phase.Staged?
    ensures BothInv(staged) && PhaseLists(staged.store, staged.phase)
    ensures staged.phase.live == w.phase.live && staged.device == w.device && staged.released == w.released
    ensures staged.store.publications == w.store.publications && staged.phase.op.payload.revision == w.store.revision + 1
    ensures staged.phase.op.content == Some(x) && staged.phase.op.result.None? && staged.phase.op.binding.None?
    ensures staged.phase.op.authority == w.phase.live.authority
    ensures staged.phase.op.after.document == w.phase.live.doc.document + x.changes
  {
    ReceiveShared(w, x, draw, staged);
    ReceiveHonest(w, x, draw, staged);
    ReceiveShape(w, x, draw, staged);
    SameQueueLists(w, staged);
  }

  lemma SameQueueLists(w: World, staged: World)
    requires w.phase.Idle? && Lists(w.store, w.phase.live.journal.outbox) && staged.phase.Staged?
    requires staged.phase.live == w.phase.live && staged.store == w.store.(pending := staged.store.pending)
    ensures PhaseLists(staged.store, staged.phase)
  {}

  lemma ReceiveShape(w: World, x: Content, draw: Draw, staged: World)
    requires Resting(w) && DoReceive(w, x, draw) == Some(staged) && staged.phase.Staged?
    ensures staged.phase.live == w.phase.live && staged.device == w.device && staged.released == w.released
    ensures staged.anchor == w.anchor && staged.sent == w.sent && staged.store == w.store.(pending := staged.store.pending)
    ensures staged.phase.op.payload.revision == w.store.revision + 1
    ensures staged.phase.op.content == Some(x) && staged.phase.op.result.None? && staged.phase.op.binding.None?
    ensures staged.phase.op.authority == w.phase.live.authority
    ensures staged.phase.op.after.document == w.phase.live.doc.document + x.changes
  {
    RevisionIsHead(w);
    var live := w.phase.live;
    var j := live.journal;
    var checkpoint, binding := NeedsCheckpoint(j), NewBinding(j, false, draw);
    var item := FrameItem(live.doc, x, checkpoint, BindingList(j, checkpoint, binding, draw));
    StagedShape(w, live, checkpoint, item, binding, Some(x), None, AfterFrame(live.doc, x), draw, staged);
    StagedPending(w, live, checkpoint, item, binding, Some(x), None, AfterFrame(live.doc, x), draw, staged);
  }

  /** A staged remote frame can always be completed under its authority. When it is, the frame is recorded
      behind the anchor and the live document grew by exactly its changes; nothing is returned or queued. */
  lemma ReceivedFrameApplies(w: World, x: Content, draw: Draw, staged: World, nonce: nat) returns (p: Passage)
    requires Resting(w) && DoReceive(w, x, draw) == Some(staged) && staged.phase.Staged?
    requires AcceptedEntry(staged.phase.op, nonce) !in w.device.minted
    ensures p.staged == staged && Passes(p, nonce) && Resting(p.done)
    ensures InChain(p.done.device.minted, AnchorCommitment(p.done.anchor), x)
    ensures p.done.phase.live.doc.document == w.phase.live.doc.document + x.changes
    ensures p.done.released == w.released && p.done.store.publications == w.store.publications
    ensures AnchorRevision(p.done.anchor) == p.done.store.revision == w.store.revision + 1
  {
    ReceivedStaged(w, x, draw, staged);
    p := StagedPasses(staged, nonce);
    PassageShape(p, nonce);
    PassageLists(p, nonce);
  }

  lemma RoleStaged(w: World, record: AuthorityRecord, draw: Draw, staged: World)
    requires Resting(w) && DoRoleTransition(w, record, draw) == Some(staged)
    ensures BothInv(staged) && staged.phase.Staged? && PhaseLists(staged.store, staged.phase)
    ensures staged.device == w.device && staged.released == w.released
    ensures staged.store.publications == w.store.publications && staged.phase.op.payload.revision == w.store.revision + 1
  {
    RoleTransitionShared(w, record, draw, staged);
    RoleTransitionHonest(w, record, draw, staged);
    RoleShape(w, record, draw, staged);
  }

  lemma RoleShape(w: World, record: AuthorityRecord, draw: Draw, staged: World)
    requires Resting(w) && DoRoleTransition(w, record, draw) == Some(staged)
    ensures staged.phase.Staged? && PhaseLists(staged.store, staged.phase) && AtHead(staged.anchor, staged.phase)
    ensures staged.device == w.device && staged.released == w.released
    ensures staged.store.publications == w.store.publications && staged.phase.op.payload.revision == w.store.revision + 1
  {
    RevisionIsHead(w);
    var live := w.phase.live.(authority := AuthorityDigest(record));
    var item := RoleItem(live.doc, live.authority, record.context, BindingList(live.journal, true, None, draw));
    StagedShape(w, live, true, item, None, None, None, AfterRole(live.doc, record.context), draw, staged);
    StagedLists(w, live, true, item, None, None, None, AfterRole(live.doc, record.context), draw, staged);
  }

  /** A staged role transition can always be completed. When it is, the document is unchanged, it is in the
      new record's context, no frame counts there yet, and the queue is as it was. */
  lemma RoleTransitionApplies(w: World, record: AuthorityRecord, draw: Draw, staged: World, nonce: nat) returns (p: Passage)
    requires Resting(w) && DoRoleTransition(w, record, draw) == Some(staged)
    requires staged.phase.Staged? ==> AcceptedEntry(staged.phase.op, nonce) !in w.device.minted
    ensures p.staged == staged && Passes(p, nonce) && Resting(p.done)
    ensures p.done.phase.live.doc == DocState(Some(record.context), map[], w.phase.live.doc.document)
    ensures p.done.released == w.released && p.done.store.publications == w.store.publications
    ensures AnchorRevision(p.done.anchor) == p.done.store.revision == w.store.revision + 1
    ensures p.done.store.entries == [p.sealing.phase.entry]
  {
    RoleStaged(w, record, draw, staged);
    RoleTransitionStagesIff(w, record, draw);
    p := StagedPasses(staged, nonce);
    PassageShape(p, nonce);
    PassageLists(p, nonce);
    SealedShape(p, nonce);
    RoleIsCheckpoint(w, record, draw, staged);
    CheckpointReplaces(p.sealing, p.stored);
  }

  lemma RoleIsCheckpoint(w: World, record: AuthorityRecord, draw: Draw, staged: World)
    requires Resting(w) && DoRoleTransition(w, record, draw) == Some(staged)
    ensures staged.phase.Staged? && staged.phase.op.checkpoint
  {}

  lemma CheckpointReplaces(w: World, w': World)
    requires w.phase.Sealing? && w.phase.op.checkpoint && DoStoreCommit(w) == Some(w')
    ensures w'.store.entries == [w.phase.entry]
  {}

  // ---------------------------------------------------------------- admission

  /** In every run an operation is applied only while the authority it was prepared under is still the
      current one, in that authority's context. */
  lemma AppliedUnderCurrentAuthority(ws: seq<World>, steps: seq<Step>, i: nat)
    requires Run(ws, steps) && i < |steps| && ws[i].phase.Staged? && ws[i + 1].phase.Applied?
    ensures ws[i].phase.op.payload.body.Sealed?
    ensures var item, authority := ws[i].phase.op.payload.body.item, ws[i].phase.live.authority;
      && item.authorityHead == authority && authority.AuthorityDigest? && item.context == authority.record.context
      && ws[i + 1].phase.live.doc == ws[i].phase.op.after
  {
    SafeRun(ws, steps, i);
    AppliesOnlyByGate(ws[i], steps[i], ws[i + 1]);
  }

  lemma AppliesOnlyByGate(w: World, s: Step, w': World)
    requires Do(w, s) == Some(w') && w.phase.Staged? && w'.phase.Applied?
    ensures w.phase.live.authority == w.phase.op.authority && w'.phase.live.doc == w.phase.op.after
  {}

  /** A change that is not admitted leaves store, document, fields, anchor and releases as they were. */
  lemma AbortedChangeLeavesNothing(w: World, changes: set<Change>, persist: bool, nonce: nat, length: nat, draw: Draw, staged: World)
    requires Resting(w) && DoChange(w, changes, persist, nonce, length, draw) == Some(staged)
    ensures DoGateAbort(staged).Some?
    ensures var after := DoGateAbort(staged).value;
      && after.store == w.store && after.phase == w.phase && after.anchor == w.anchor && after.released == w.released
      && after.device.minted == w.device.minted && after.device.publications == w.device.publications
  {
    RevisionIsHead(w);
    var live, x := w.phase.live, NextContent(w.device.local, w.phase.live, changes);
    var j := live.journal;
    var checkpoint, binding := NeedsCheckpoint(j), NewBinding(j, persist, draw);
    var item := FrameItem(live.doc, x, checkpoint, BindingList(j, checkpoint, binding, draw));
    StagedShape(w, live, checkpoint, item, binding, Some(x), Some(Frame(x, nonce, length)), AfterFrame(live.doc, x), draw, staged);
    StagedPending(w, live, checkpoint, item, binding, Some(x), Some(Frame(x, nonce, length)), AfterFrame(live.doc, x), draw, staged);
    AbortUndoes(w, staged);
  }

  lemma AbortUndoes(w: World, staged: World)
    requires w.phase.Idle? && w.store.pending.None? && staged.phase.Staged? && staged.phase.op.content.Some?
    requires staged.phase.live == w.phase.live && staged.store == w.store.(pending := staged.store.pending)
    requires PendingIs(staged.store, staged.phase.op)
    ensures DoGateAbort(staged) == Some(staged.(store := w.store, phase := w.phase))
  {}

  /** A received frame likewise. */
  lemma AbortedReceiveLeavesNothing(w: World, x: Content, draw: Draw, staged: World)
    requires Resting(w) && DoReceive(w, x, draw) == Some(staged) && staged.phase.Staged?
    ensures DoGateAbort(staged) == Some(w)
  {
    RevisionIsHead(w);
    ReceiveShape(w, x, draw, staged);
    ReceiveHonest(w, x, draw, staged);
    AbortUndoes(w, staged);
  }

  /** A role transition that is not admitted stops the document and leaves store, anchor and releases as
      they were. */
  lemma AbortedRoleTransitionStops(w: World, record: AuthorityRecord, draw: Draw, staged: World)
    requires Resting(w) && DoRoleTransition(w, record, draw) == Some(staged)
    ensures DoGateAbort(staged) == Some(w.(phase := Down))
  {
    RevisionIsHead(w);
    var live := w.phase.live.(authority := AuthorityDigest(record));
    var item := RoleItem(live.doc, live.authority, record.context, BindingList(live.journal, true, None, draw));
    StagedShape(w, live, true, item, None, None, None, AfterRole(live.doc, record.context), draw, staged);
    StagedPending(w, live, true, item, None, None, None, AfterRole(live.doc, record.context), draw, staged);
    StopUndoes(w, staged);
  }

  lemma StopUndoes(w: World, staged: World)
    requires w.store.pending.None? && staged.phase.Staged? && staged.phase.op.content.None?
    requires staged.store == w.store.(pending := staged.store.pending) && PendingIs(staged.store, staged.phase.op)
    ensures DoGateAbort(staged) == Some(staged.(store := w.store, phase := Down))
  {}

  /** The store may become anything that holds no entry or record which would verify under the device key
      without the device having made it. */
  lemma StoreIsAnybodys(w: World, s: Snapshot)
    ensures DoTamper(w, s).Some? <==>
              && (forall e :: e in s.entries && e.Entry? && e.tag.Acceptance? && e.tag.revision == e.payload.revision && e.tag.payload == e.payload ==> e in w.device.minted)
              && (forall p :: p in s.publications && p.cipher == PublicationSealed(p.revision, p.id, p.token, p.id) ==>
                    p.token in w.device.publications && w.device.publications[p.token] == p)
    ensures DoTamper(w, s).Some? ==> DoTamper(w, s) == Some(w.(store := s))
  {}

  lemma LiveAuthority(w: World)
    requires SafeInv(w) && HasLive(w.phase)
    ensures w.phase.live.authority.AuthorityDigest? && ValidHistory(w.phase.live.authority)
  {}

  /** The authority log of an open document can move on exactly by a record that may follow it. */
  lemma AuthorityMovesIff(w: World, record: AuthorityRecord)
    requires SafeInv(w) && HasLive(w.phase)
    ensures var h := w.phase.live.authority;
      && h.AuthorityDigest?
      && (DoAuthorityUpdate(w, record).Some? <==>
            && HasController(record.roster)
            && |Records(h)| < 1024 && record.sequence == |Records(h)| + 1 && record.parent == h
            && record.documentId == h.record.documentId
            && record.context.group == h.record.context.group && record.context.epoch > h.record.context.epoch
            && forall r :: r in Records(h) ==> r.context.controlHead != record.context.controlHead)
  {
    LiveAuthority(w);
    AdvancesIff(w.phase.live.authority, record);
  }

  lemma AdvancesIff(h: AuthorityHead, record: AuthorityRecord)
    requires h.AuthorityDigest? && ValidHistory(h)
    ensures Advances(h, record) <==>
              && HasController(record.roster)
              && |Records(h)| < 1024 && record.sequence == |Records(h)| + 1 && record.parent == h
              && record.documentId == h.record.documentId
              && record.context.group == h.record.context.group && record.context.epoch > h.record.context.epoch
              && forall r :: r in Records(h) ==> r.context.controlHead != record.context.controlHead
  {
    MayFollowIff(h, record);
    ControlledIff(record.roster, None);
  }

  /** Pending publications are handed out only while the journal's head is the anchor; a record is taken
      off the queue only when it is reported sent. */
  lemma OutboxSteps(w: World, frame: Frame)
    requires w.phase.Idle?
    ensures DoReadOutbox(w).Some? ==> w.anchor == w.phase.live.journal.head && DoReadOutbox(w).value.store == w.store
    ensures DoStoreSent(w, frame).Some?
    ensures forall p :: p in DoStoreSent(w, frame).value.store.publications <==> p in w.store.publications && p.id != frame
    ensures DoSentFinish(DoStoreSent(w, frame).value).Some?
    ensures DoSentFinish(DoStoreSent(w, frame).value).value.phase.live.journal.outbox == w.phase.live.journal.outbox - {frame}
  {
    WithoutRemoves(w.store.publications, frame);
  }
}
