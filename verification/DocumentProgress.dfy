/** What can always happen: an admitted operation completes, and a new document can publish. */
module DocumentProgress {
  import opened Common
  import opened DocumentTypes
  import opened AuthorityHistory
  import opened ReplayJournal
  import opened JournalStoreSpec
  import opened DocumentState
  import opened AcceptedChain
  import opened DocumentRun
  import opened DocumentSafety
  import opened HonestJournal
  import opened HonestSteps
  import opened CrashSafety

  // ---------------------------------------------------------------- completing an operation

  /** Commit to the store, move the anchor, install the fields. */
  function Persist(w: World): Option<World> {
    var stored := DoStoreCommit(w);
    if stored.None? then None
    else
      var anchored := DoAnchorSwap(stored.value);
      if anchored.None? then None else DoFinish(anchored.value)
  }

  /** Seal first. */
  function Complete(w: World, nonce: nat): Option<World> {
    var sealing := DoSeal(w, nonce);
    if sealing.None? then None else Persist(sealing.value)
  }

  /** After sealing, the staged row still fits and the store commit goes through. */
  lemma SealedStores(w: World)
    requires SafeInv(w) && HonestInv(w) && w.phase.Sealing? && w.store.pending.Some?
    ensures DoStoreCommit(w).Some?
  {
    SealingState(w);
    var live, op, e := w.phase.live, w.phase.op, w.phase.entry;
    SealedEntryFits(w.store, live, op, e);
  }

  lemma StoredSwaps(w: World)
    requires SafeInv(w) && HonestInv(w) && w.phase.Sealing? && w.store.pending.None?
    ensures DoAnchorSwap(w).Some?
  {
    SealingState(w);
    CommittedTip(w.store, w.phase.live, w.phase.op, w.phase.entry);
  }

  lemma AppliedIsPending(w: World)
    requires HonestInv(w) && w.phase.Applied?
    ensures w.store.pending.Some?
  {}

  lemma StoreCommitClears(w: World, w': World)
    requires DoStoreCommit(w) == Some(w')
    ensures w'.store.pending.None? && w'.phase == w.phase && w'.released == w.released
  {}

  lemma SwapThenFinish(w: World, w': World)
    requires DoAnchorSwap(w) == Some(w')
    ensures w'.phase == Anchored(w.phase.live, w.phase.op, w.phase.entry) && w'.released == w.released
    ensures w'.anchor == Some(Anchor(w.phase.op.payload.revision, Digest(w.phase.entry)))
    ensures DoFinish(w').Some?
    ensures var done := DoFinish(w').value;
      && done.phase.Idle? && done.anchor == w'.anchor
      && (w.phase.op.result.Some? ==> w.phase.op.result.value in done.released)
  {}

  /** With an untouched store, an operation the gate has applied always becomes durable and hands out
      its frame: no later effect can refuse it. */
  lemma AppliedOperationCompletes(w: World, nonce: nat)
    requires SafeInv(w) && HonestInv(w) && w.phase.Applied? && AcceptedEntry(w.phase.op, nonce) !in w.device.minted
    ensures Complete(w, nonce).Some?
    ensures var done := Complete(w, nonce).value;
      && done.phase.Idle?
      && done.anchor == Some(Anchor(w.phase.op.payload.revision, Digest(AcceptedEntry(w.phase.op, nonce))))
      && (w.phase.op.result.Some? ==> w.phase.op.result.value in done.released)
  {
    AppliedIsPending(w);
    var sealing := DoSeal(w, nonce).value;
    SealSafe(w, nonce, sealing);
    SealHonest(w, nonce, sealing);
    SealedPersists(sealing);
  }

  lemma SealedPersists(w: World)
    requires SafeInv(w) && HonestInv(w) && w.phase.Sealing? && w.store.pending.Some?
    ensures Persist(w).Some?
    ensures var done := Persist(w).value;
      && done.phase.Idle? && done.anchor == Some(Anchor(w.phase.op.payload.revision, Digest(w.phase.entry)))
      && (w.phase.op.result.Some? ==> w.phase.op.result.value in done.released)
  {
    SealedStores(w);
    var stored := DoStoreCommit(w).value;
    StoreCommitSafe(w, stored);
    StoreCommitHonest(w, stored);
    StoreCommitClears(w, stored);
    StoredFinishes(stored);
  }

  lemma StoredFinishes(w: World)
    requires SafeInv(w) && HonestInv(w) && w.phase.Sealing? && w.store.pending.None?
    ensures DoAnchorSwap(w).Some? && DoFinish(DoAnchorSwap(w).value).Some?
    ensures var done := DoFinish(DoAnchorSwap(w).value).value;
      && done.phase.Idle? && done.anchor == Some(Anchor(w.phase.op.payload.revision, Digest(w.phase.entry)))
      && (w.phase.op.result.Some? ==> w.phase.op.result.value in done.released)
  {
    StoredSwaps(w);
    SwapThenFinish(w, DoAnchorSwap(w).value);
  }

  /** Uninterrupted, these steps do to store, anchor and fields exactly what the journal's commit
      method does. */
  lemma CompleteIsJournalCommit(w: World, nonce: nat)
    requires w.phase.Applied? && Complete(w, nonce).Some?
    ensures var done, op, e, j := Complete(w, nonce).value, w.phase.op, AcceptedEntry(w.phase.op, nonce), w.phase.live.journal;
      && Committed(w.store, AnchorRevision(j.head), op.token, op.checkpoint, e, OpPublication(op)) == Ok(done.store)
      && done.store.revision == op.payload.revision && w.anchor == j.head
      && done.anchor == Some(Anchor(op.payload.revision, Digest(e)))
      && done.phase.live.journal == AfterCommit(j, op, e)
  {}

  // ---------------------------------------------------------------- a first publication

  const FirstDraw := Draw(0, 0, 0, 74, [])

  /** An opened, empty document. */
  function Opened(w: World, authority: AuthorityHead): World {
    w.(phase := Idle(Live(Memory(None, 0, 0, map[], map[]), DocState(None, map[], w.device.initial), authority)))
  }

  lemma EmptyOpens(w: World, authority: AuthorityHead)
    requires Initial(w) && authority.AuthorityDigest? && ValidHistory(authority)
    ensures Reopen(w, authority) == Some(Opened(w, authority))
  {
    assert Restore(EmptySnapshot, None) == Ok(Restored([], map[], None, false, None, 0)) by {
      assert Walk([]) == Ok(Walked([], map[], None));
    }
    assert ReadPublications([], map[], 0) == Ok(Outbox([], map[])) by {
      assert ReadQueue([], map[], 0) == Some(Outbox([], map[]));
    }
    assert Recover(w.device.initial, []) == Some(DocState(None, map[], w.device.initial));
  }

  lemma FirstChangeStages(w: World, authority: AuthorityHead, changes: set<Change>)
    requires Initial(w) && authority.AuthorityDigest? && MayWrite(authority.record.roster, w.device.local)
    ensures var staged := DoChange(Opened(w, authority), changes, true, 0, 1, FirstDraw);
      && staged.Some? && staged.value.phase.Staged?
      && staged.value.phase.live.authority == staged.value.phase.op.authority
      && staged.value.phase.op.result.Some? && staged.value.phase.op.binding.Some?
      && staged.value.phase.op.result.value.content.changes == changes && staged.value.phase.op.result.value.content.member == w.device.local
      && staged.value.store.publications == []
      && staged.value.device.minted == map[] && staged.value.phase.op.result.value.content.sequence == 1
  {
    var o := Opened(w, authority);
    var live, j := o.phase.live, o.phase.live.journal;
    var x := NextContent(w.device.local, live, changes);
    var binding := Some(Binding(0, 1));
    assert NewBinding(j, true, FirstDraw) == binding && !NeedsCheckpoint(j);
    var bindings := BindingList(j, false, binding, FirstDraw);
    assert bindings == [Binding(0, 1)];
    var item := FrameItem(live.doc, x, false, bindings);
    assert item.receipts == map[x.member := ReceiptFor(x)];
    assert |item.receipts| == 1;
    assert ItemCodec(item, false);
    assert JournalAdmits(j, false, binding, FirstDraw);
    FirstStage(PayloadFor(j, false, item, FirstDraw), Frame(x, 0, 1));
  }

  lemma FirstStage(payload: Payload, f: Frame)
    requires payload.length == 74 && f.length == 1
    ensures JournalStoreSpec.Staged(EmptySnapshot, 0, 0, payload, Some(Reservation(f, 1 + PUBLICATION_OVERHEAD)), false).Ok?
  {
    assert Index([]) == [];
  }

  /** Completing a persisted operation on an empty queue leaves exactly its record there. */
  lemma FirstIsQueued(w: World, nonce: nat)
    requires w.phase.Applied? && Complete(w, nonce).Some? && w.store.publications == []
    requires w.phase.op.binding.Some? && w.phase.op.result.Some?
    ensures Complete(w, nonce).value.store.publications == [SealedPublication(w.phase.op)]
  {
    var op, e, j := w.phase.op, AcceptedEntry(w.phase.op, nonce), w.phase.live.journal;
    CompleteIsJournalCommit(w, nonce);
    CommittedValue(w.store, AnchorRevision(j.head), op.token, op.checkpoint, e, OpPublication(op));
  }

  lemma GatedFirst(w: World, authority: AuthorityHead, changes: set<Change>) returns (applied: World)
    requires Initial(w) && authority.AuthorityDigest? && ValidHistory(authority) && MayWrite(authority.record.roster, w.device.local)
    ensures var staged := DoChange(Opened(w, authority), changes, true, 0, 1, FirstDraw);
      staged.Some? && DoGateCommit(staged.value) == Some(applied)
    ensures SafeInv(applied) && HonestInv(applied) && applied.phase.Applied? && AcceptedEntry(applied.phase.op, 0) !in applied.device.minted
    ensures applied.store.publications == [] && applied.phase.op.binding.Some? && applied.phase.op.result.Some?
    ensures var x := applied.phase.op.result.value.content;
      x.changes == changes && x.member == w.device.local && x.sequence == 1
  {
    FirstChangeStages(w, authority, changes);
    var ready := Opened(w, authority);
    var staged := DoChange(ready, changes, true, 0, 1, FirstDraw).value;
    OpenedOk(w, authority);
    ChangeSafe(ready, changes, true, 0, 1, FirstDraw, staged);
    ChangeHonest(ready, changes, true, 0, 1, FirstDraw, staged);
    applied := DoGateCommit(staged).value;
    GateSafe(staged, applied);
    GateHonest(staged, applied);
  }

  /** The theorems about runs are not about idle ones: under any role history that lets it write, a new
      document opens, stages a change, and that change can be made durable and handed out. */
  lemma NewDocumentCanPublish(w: World, authority: AuthorityHead, changes: set<Change>)
    requires Initial(w) && authority.AuthorityDigest? && ValidHistory(authority)
    requires MayWrite(authority.record.roster, w.device.local)
    ensures Reopen(w, authority).Some?
    ensures var staged := DoChange(Reopen(w, authority).value, changes, true, 0, 1, FirstDraw);
      && staged.Some?
      && DoGateCommit(staged.value).Some?
      && var done := Complete(DoGateCommit(staged.value).value, 0);
         && done.Some?
         && |done.value.store.publications| == 1
         && var f := done.value.store.publications[0].id;
         && f in done.value.released && f.content.changes == changes && f.content.member == w.device.local && f.content.sequence == 1
  {
    EmptyOpens(w, authority);
    var applied := GatedFirst(w, authority, changes);
    FirstCompletes(applied);
  }

  lemma FirstCompletes(w: World)
    requires SafeInv(w) && HonestInv(w) && w.phase.Applied? && AcceptedEntry(w.phase.op, 0) !in w.device.minted
    requires w.store.publications == [] && w.phase.op.binding.Some? && w.phase.op.result.Some?
    ensures Complete(w, 0).Some?
    ensures var done := Complete(w, 0).value;
      |done.store.publications| == 1 && done.store.publications[0].id == w.phase.op.result.value
      && w.phase.op.result.value in done.released
  {
    AppliedOperationCompletes(w, 0);
    FirstIsQueued(w, 0);
  }

  lemma OpenedOk(w: World, authority: AuthorityHead)
    requires Initial(w) && authority.AuthorityDigest? && ValidHistory(authority)
    ensures SafeInv(Opened(w, authority)) && HonestInv(Opened(w, authority))
  {
    InitialHonest(w);
    assert Tip(EmptySnapshot) == Zero && LedgerOf([]) == map[] && TotalLength([]) == 0;
  }
}
