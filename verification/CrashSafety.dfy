/** What an honest journal guarantees across crashes at any point. */
module CrashSafety {
  import opened Common
  import opened DocumentTypes
  import opened AuthorityHistory
  import opened ReplayJournal
  import opened JournalStoreSpec
  import opened DocumentState
  import opened AcceptedChain
  import opened ChainRecovery
  import opened DocumentRun
  import opened DocumentSafety
  import opened HonestJournal
  import opened HonestSteps

  // ---------------------------------------------------------------- what restore returns

  lemma {:induction false} ItemsAreEntries(entries: seq<Entry>, k: nat)
    requires Walk(entries).Ok? && k < |entries|
    ensures entries[k].Entry? && entries[k].payload.body.Sealed?
    ensures Items(entries)[k] == JournalItem(entries[k].payload.body.checkpoint, ItemOf(entries[k]))
  {
    if k < |entries| - 1 { ItemsAreEntries(entries[..|entries| - 1], k); }
  }

  /** A crash at any point of a run: `restore` succeeds, the store is at the anchor's revision or one
      above, and the items returned are those of the committed entries since the last checkpoint,
      each sealed by this device after its operation was admitted. */
  lemma RestoreAlwaysSucceeds(ws: seq<World>, steps: seq<Step>, i: nat)
    requires Run(ws, steps) && Honest(steps) && i < |ws|
    ensures var s, anchor := ws[i].store, ws[i].anchor;
      && Restore(s, anchor).Ok?
      && (s.revision == AnchorRevision(anchor) || s.revision == AnchorRevision(anchor) + 1)
      && (Tip(s) == AnchorCommitment(anchor) || OneAbove(s, anchor))
      && s.entries == SinceCheckpoint(Tip(s))
      && Restore(s, anchor).value.items == Items(s.entries)
      && |Items(s.entries)| == |s.entries|
      && (forall e :: e in s.entries ==> e in ws[i].device.minted)
  {
    HonestRun(ws, steps, i);
    var w := ws[i];
    CrashTip(w.device, w.store, w.anchor, w.phase);
    HonestRestores(w.store, w.anchor, w.device.minted);
    WalkIsSinceCheckpoint(w.store.entries);
    assert Tip(w.store) == LastCommitment(Walk(w.store.entries).value.last);
    WalkedEntriesVerify(w.store.entries);
  }

  /** What is staged would become the next revision. */
  predicate PendingIsNext(s: Snapshot) { s.pending.Some? ==> s.pending.value.payload.revision == s.revision + 1 }

  lemma StagedIsNext(w: World, live: Live, checkpoint: bool, item: Item, binding: Option<Binding>,
                     content: Option<Content>, result: Option<Frame>, after: DocState, draw: Draw, w': World)
    requires StageEntry(w, live, checkpoint, item, binding, content, result, after, draw) == Some(w')
    ensures PendingIsNext(w'.store)
  {
    StagedShape(w, live, checkpoint, item, binding, content, result, after, draw, w');
  }

  lemma PreparedIsNext(w: World, s: Step, w': World)
    requires PendingIsNext(w.store) && Do(w, s) == Some(w') && (s.Change? || s.Receive? || s.RoleTransition?)
    ensures PendingIsNext(w'.store)
  {
    var live := w.phase.live;
    var j := live.journal;
    match s
    case Change(changes, persist, nonce, length, draw) =>
      var x, checkpoint, binding := NextContent(w.device.local, live, changes), NeedsCheckpoint(j), NewBinding(j, persist, draw);
      StagedIsNext(w, live, checkpoint, FrameItem(live.doc, x, checkpoint, BindingList(j, checkpoint, binding, draw)), binding,
                   Some(x), Some(Frame(x, nonce, length)), AfterFrame(live.doc, x), draw, w');
    case Receive(x, draw) =>
      if AdmitContent(live.doc, x) == Apply {
        var checkpoint, binding := NeedsCheckpoint(j), NewBinding(j, false, draw);
        StagedIsNext(w, live, checkpoint, FrameItem(live.doc, x, checkpoint, BindingList(j, checkpoint, binding, draw)), binding,
                     Some(x), None, AfterFrame(live.doc, x), draw, w');
      }
    case RoleTransition(record, draw) =>
      var head := AuthorityDigest(record);
      StagedIsNext(w, live.(authority := head), true, RoleItem(live.doc, head, record.context, BindingList(j, true, None, draw)),
                   None, None, None, AfterRole(live.doc, record.context), draw, w');
  }

  lemma PendingStep(w: World, s: Step, w': World)
    requires PendingIsNext(w.store) && Do(w, s) == Some(w') && !s.Tamper?
    ensures PendingIsNext(w'.store)
  {
    if s.Change? || s.Receive? || s.RoleTransition? { PreparedIsNext(w, s, w'); }
  }

  lemma {:induction false} PendingRun(ws: seq<World>, steps: seq<Step>, i: nat)
    requires Run(ws, steps) && Honest(steps) && i < |ws|
    ensures PendingIsNext(ws[i].store)
    decreases i
  {
    if i > 0 {
      PendingRun(ws, steps, i - 1);
      PendingStep(ws[i - 1], steps[i - 1], ws[i]);
    }
  }

  lemma {:induction false} WalkedRevisions(entries: seq<Entry>, k: nat)
    requires Walk(entries).Ok? && k < |entries|
    ensures entries[k].Entry? && entries[|entries| - 1].Entry?
    ensures entries[k].payload.revision <= entries[|entries| - 1].payload.revision
    decreases |entries|
  {
    if k < |entries| - 1 { WalkedRevisions(entries[..|entries| - 1], k); }
  }

  /** Wherever a crash lands, even after the acceptance marker was sealed, the entry that is still only
      staged is not among the entries a restore returns. */
  lemma StagedNeverSurfaces(ws: seq<World>, steps: seq<Step>, i: nat, k: nat)
    requires Run(ws, steps) && Honest(steps) && i < |ws| && ws[i].store.pending.Some?
    requires k < |ws[i].store.entries|
    ensures ws[i].store.entries[k].Entry? && ws[i].store.entries[k].payload != ws[i].store.pending.value.payload
  {
    HonestRun(ws, steps, i);
    PendingRun(ws, steps, i);
    WalkedRevisions(ws[i].store.entries, k);
  }

  // ---------------------------------------------------------------- reopening completes

  /** After the anchor was brought up to the store: drop what was only staged, then recover. */
  ghost function CleanUp(w: World, authority: AuthorityHead): Option<World>
    requires w.phase.Restoring?
  {
    var clean := if w.phase.restored.discard.Some? then DoRestoreDiscard(w) else Some(w);
    if clean.None? then None else DoRestoreFinish(clean.value, authority)
  }

  /** Finish a half-done anchor move first. */
  ghost function SwapAndCleanUp(w: World, authority: AuthorityHead): Option<World>
    requires w.phase.Restoring?
  {
    var swapped := if w.phase.restored.finish then DoRestoreSwap(w) else Some(w);
    if swapped.None? then None else CleanUp(swapped.value, authority)
  }

  /** Crash, then run the whole recovery sequence. */
  ghost function Reopen(w: World, authority: AuthorityHead): Option<World> {
    var loaded := DoOpen(w.(phase := Down));
    if loaded.None? then None else SwapAndCleanUp(loaded.value, authority)
  }

  lemma ParentHeadExtended(initial: set<Change>, minted: Minted, publications: AcceptedChain.Sealed, e: Entry)
    requires e in minted && EntryOk(initial, minted, publications, e)
    ensures e.payload.parent.Digest? ==> Extends(AuthorityAt(Digest(e)), AuthorityAt(e.payload.parent))
  {}

  /** The newest authority head extends that of every retained entry. */
  lemma {:induction false} HeadsExtend(initial: set<Change>, minted: Minted, publications: AcceptedChain.Sealed,
                                       entries: seq<Entry>, k: nat, authority: AuthorityHead)
    requires MintedOk(initial, minted, publications) && Walk(entries).Ok? && k < |entries|
    requires forall e :: e in entries ==> e in minted
    requires Extends(authority, AuthorityAt(Digest(entries[|entries| - 1])))
    ensures Extends(authority, AuthorityAt(Digest(entries[k])))
    decreases |entries|
  {
    var front, e := entries[..|entries| - 1], entries[|entries| - 1];
    if k < |front| {
      assert e in entries;
      assert e.payload.parent == Digest(front[|front| - 1]);
      assert forall f :: f in front ==> f in entries;
      ParentHeadExtended(initial, minted, publications, e);
      ExtendsTransitive(authority, AuthorityAt(Digest(e)), AuthorityAt(e.payload.parent));
      HeadsExtend(initial, minted, publications, front, k, authority);
    }
  }

  lemma ItemHeadsExtend(d: Device, s: Snapshot, authority: AuthorityHead)
    requires DeviceOk(d) && Unforged(d, s) && Walk(s.entries).Ok? && AuthorityOk(authority, Tip(s))
    ensures forall i :: 0 <= i < |Items(s.entries)| ==> Extends(authority, Items(s.entries)[i].item.authorityHead)
  {
    WalkedEntriesVerify(s.entries);
    forall i | 0 <= i < |Items(s.entries)| ensures Extends(authority, Items(s.entries)[i].item.authorityHead) {
      ItemsAreEntries(s.entries, i);
      HeadsExtend(d.initial, d.minted, d.publications, s.entries, i, authority);
    }
  }

  /** What a finished recovery looks like. */
  predicate Recovered(before: World, after: World) {
    && after.phase.Idle?
    && after.phase.live.journal.head == after.anchor
    && AnchorCommitment(after.anchor) == Tip(before.store)
    && after.store == before.store.(pending := None)
    && after.phase.live.doc == StateAt(before.device.initial, Tip(before.store))
    && after.released == before.released
  }

  lemma FinishSucceeds(w: World, authority: AuthorityHead)
    requires SafeInv(w) && HonestInv(w) && w.phase.Restoring? && w.store.pending.None?
    requires w.phase.restored.finish ==> w.phase.swapped
    requires w.phase.restored.discard.Some? ==> w.phase.discarded
    requires AuthorityOk(authority, Tip(w.store))
    ensures DoRestoreFinish(w, authority).Some? && Recovered(w, DoRestoreFinish(w, authority).value)
  {
    var r, d := w.phase.restored, w.device;
    HonestQueueReads(d, w.store, r.ledger, AnchorRevision(r.stored));
    ItemHeadsExtend(d, w.store, authority);
    assert w.store == w.store.(pending := None);
  }

  lemma CleanUpSucceeds(w: World, authority: AuthorityHead)
    requires SafeInv(w) && HonestInv(w) && w.phase.Restoring? && !w.phase.discarded
    requires w.phase.restored.finish ==> w.phase.swapped
    requires AuthorityOk(authority, Tip(w.store))
    ensures CleanUp(w, authority).Some? && Recovered(w, CleanUp(w, authority).value)
  {
    if w.phase.restored.discard.Some? {
      var clean := DoRestoreDiscard(w).value;
      SafeStep(w, RestoreDiscard, clean);
      RestoreDiscardHonest(w, clean);
      assert clean.store == w.store.(pending := None);
      FinishSucceeds(clean, authority);
    } else {
      FinishSucceeds(w, authority);
    }
  }

  lemma SwapSucceeds(w: World, authority: AuthorityHead)
    requires SafeInv(w) && HonestInv(w) && w.phase.Restoring? && !w.phase.discarded && !w.phase.swapped
    requires AuthorityOk(authority, Tip(w.store))
    ensures SwapAndCleanUp(w, authority).Some? && Recovered(w, SwapAndCleanUp(w, authority).value)
  {
    if w.phase.restored.finish {
      var swapped := DoRestoreSwap(w).value;
      RestoreSwapSafe(w, swapped);
      RestoreSwapHonest(w, swapped);
      CleanUpSucceeds(swapped, authority);
    } else {
      CleanUpSucceeds(w, authority);
    }
  }

  /** One recovery attempt on an honest store finishes, for any authority log that contains the head
      the journal ends at: the anchor meets the head, nothing staged is left, no committed entry and
      no queued publication is lost, and the document is the one the accepted chain stands for. */
  lemma ReopenSucceeds(w: World, authority: AuthorityHead)
    requires SafeInv(w) && HonestInv(w) && AuthorityOk(authority, Tip(w.store))
    ensures Reopen(w, authority).Some? && Recovered(w, Reopen(w, authority).value)
  {
    var down := w.(phase := Down);
    CrashHonest(w);
    SafeStep(w, Crash, down);
    HonestRestores(w.store, w.anchor, w.device.minted);
    var loaded := DoOpen(down).value;
    OpenSafe(down, loaded);
    OpenHonest(down, loaded);
    SwapSucceeds(loaded, authority);
  }

  lemma FinishKeepsBoth(w: World, authority: AuthorityHead)
    requires SafeInv(w) && HonestInv(w) && DoRestoreFinish(w, authority).Some?
    ensures SafeInv(DoRestoreFinish(w, authority).value) && HonestInv(DoRestoreFinish(w, authority).value)
  {
    var done := DoRestoreFinish(w, authority).value;
    RestoreFinishShared(w, authority, done);
    RestoreFinishHonest(w, authority, done);
  }

  lemma DiscardKeepsBoth(w: World, w': World)
    requires SafeInv(w) && HonestInv(w) && DoRestoreDiscard(w) == Some(w')
    ensures SafeInv(w') && HonestInv(w')
  {
    SafeStep(w, RestoreDiscard, w');
    RestoreDiscardHonest(w, w');
  }

  lemma CleanUpKeepsBoth(w: World, authority: AuthorityHead)
    requires SafeInv(w) && HonestInv(w) && w.phase.Restoring? && CleanUp(w, authority).Some?
    ensures SafeInv(CleanUp(w, authority).value) && HonestInv(CleanUp(w, authority).value)
  {
    if w.phase.restored.discard.Some? {
      var clean := DoRestoreDiscard(w).value;
      DiscardKeepsBoth(w, clean);
      FinishKeepsBoth(clean, authority);
    } else {
      FinishKeepsBoth(w, authority);
    }
  }

  lemma SwapKeepsBoth(w: World, authority: AuthorityHead)
    requires SafeInv(w) && HonestInv(w) && w.phase.Restoring? && SwapAndCleanUp(w, authority).Some?
    ensures SafeInv(SwapAndCleanUp(w, authority).value) && HonestInv(SwapAndCleanUp(w, authority).value)
  {
    if w.phase.restored.finish {
      var swapped := DoRestoreSwap(w).value;
      RestoreSwapSafe(w, swapped);
      RestoreSwapHonest(w, swapped);
      CleanUpKeepsBoth(swapped, authority);
    } else {
      CleanUpKeepsBoth(w, authority);
    }
  }

  /** What a recovery leaves is a document like any other. */
  lemma ReopenKeepsBoth(w: World, authority: AuthorityHead)
    requires SafeInv(w) && HonestInv(w) && Reopen(w, authority).Some?
    ensures SafeInv(Reopen(w, authority).value) && HonestInv(Reopen(w, authority).value)
  {
    var down := w.(phase := Down);
    CrashHonest(w);
    SafeStep(w, Crash, down);
    var loaded := DoOpen(down).value;
    OpenSafe(down, loaded);
    OpenHonest(down, loaded);
    SwapKeepsBoth(loaded, authority);
  }

  /** Crash safety over whole runs. */
  lemma EveryCrashRecovers(ws: seq<World>, steps: seq<Step>, i: nat, authority: AuthorityHead)
    requires Run(ws, steps) && Honest(steps) && i < |ws| && AuthorityOk(authority, Tip(ws[i].store))
    ensures Reopen(ws[i], authority).Some? && Recovered(ws[i], Reopen(ws[i], authority).value)
  {
    HonestRun(ws, steps, i);
    ReopenSucceeds(ws[i], authority);
  }

  // ---------------------------------------------------------------- commits do not fail

  /** Staging reserved all a commit needs: once an operation was admitted and sealed, the store
      transaction and the anchor move both go through. */
  lemma CommitNeverFails(ws: seq<World>, steps: seq<Step>, i: nat)
    requires Run(ws, steps) && Honest(steps) && i < |ws| && ws[i].phase.Sealing?
    ensures DoStoreCommit(ws[i]).Some? || DoAnchorSwap(ws[i]).Some?
  {
    HonestRun(ws, steps, i);
    SealingState(ws[i]);
    SealingProceeds(ws[i]);
  }

  predicate SealedAndReady(w: World)
    requires w.phase.Sealing?
  {
    var live, op, e := w.phase.live, w.phase.op, w.phase.entry;
    && StoreChain(w.store) && e.Entry? && e.payload == op.payload && live.journal.head == w.anchor
    && AnchorOk(w.device.minted, w.anchor)
    && ((Mirrors(w.store, live.journal) && PendingIs(w.store, op)) || CommittedIs(w.store, live, op, e))
  }

  lemma SealingState(w: World)
    requires SafeInv(w) && HonestInv(w) && w.phase.Sealing?
    ensures SealedAndReady(w)
  {}

  lemma SealingProceeds(w: World)
    requires w.phase.Sealing? && SealedAndReady(w)
    ensures DoStoreCommit(w).Some? || DoAnchorSwap(w).Some?
  {
    var live, op, e := w.phase.live, w.phase.op, w.phase.entry;
    if CommittedIs(w.store, live, op, e) {
      CommittedTip(w.store, live, op, e);
    } else {
      SealedEntryFits(w.store, live, op, e);
    }
  }

  lemma CommittedTip(s: Snapshot, live: Live, op: Op, e: Entry)
    requires StoreChain(s) && CommittedIs(s, live, op, e) && e.Entry? && e.payload == op.payload
    ensures s.revision == op.payload.revision && s.entries != [] && s.entries[|s.entries| - 1] == e
  {
    assert Tip(s) == Digest(e);
  }

  lemma SealedEntryFits(s: Snapshot, live: Live, op: Op, e: Entry)
    requires StoreChain(s) && Mirrors(s, live.journal) && PendingIs(s, op)
    requires live.journal.head.Some? ==> live.journal.head.value.revision == RevisionAt(live.journal.head.value.commitment)
    requires e.Entry? && e.payload == op.payload
    ensures Committed(s, AnchorRevision(live.journal.head), op.token, op.checkpoint, e, OpPublication(op)).Ok?
  {
    CommitNeverOverflows(s, e);
    PendingCommits(s, AnchorRevision(live.journal.head), op, e);
  }

  lemma PendingCommits(s: Snapshot, revision: nat, op: Op, e: Entry)
    requires StoreOk(s) && PendingIs(s, op) && s.revision == revision
    requires e.Entry? && e.payload == op.payload
    requires |Appended(s, op.checkpoint, e)| <= MAX_JOURNAL_ENTRIES
    requires TotalLength(Appended(s, op.checkpoint, e)) <= MAX_JOURNAL_BYTES
    ensures Committed(s, revision, op.token, op.checkpoint, e, OpPublication(op)).Ok?
  {}

  // ---------------------------------------------------------------- the outbox

  lemma {:induction false} BoundByEntry(entries: seq<Entry>, t: Token)
    requires Walk(entries).Ok? && t in LedgerOf(entries)
    ensures exists k :: 0 <= k < |entries| && entries[k].Entry? && entries[k].payload.body.Sealed?
                        && Binding(t, LedgerOf(entries)[t]) in ItemOf(entries[k]).bindings
  {
    var front, e := entries[..|entries| - 1], entries[|entries| - 1];
    var before := Walk(front).value.ledger;
    RecordAllKeys(before, ItemOf(e).bindings, e.payload.revision, e.payload.body.checkpoint);
    RecordAllValues(before, ItemOf(e).bindings, e.payload.revision, e.payload.body.checkpoint);
    if t in before {
      BoundByEntry(front, t);
      var k :| 0 <= k < |front| && front[k].Entry? && front[k].payload.body.Sealed?
               && Binding(t, before[t]) in ItemOf(front[k]).bindings;
      assert entries[k] == front[k];
    } else {
      var b :| b in ItemOf(e).bindings && b.token == t;
      assert entries[|entries| - 1] == e;
    }
  }

  /** In every state of an honest run each queued publication is bound, at its revision, by an entry
      the store still retains; the queue always reads back in full and in order. */
  lemma OutboxStaysBound(ws: seq<World>, steps: seq<Step>, i: nat, n: nat)
    requires Run(ws, steps) && Honest(steps) && i < |ws| && n < |ws[i].store.publications|
    ensures var s := ws[i].store;
      var p := s.publications[n];
      var q := ReadPublications(s.publications, LedgerOf(s.entries), s.revision);
      && (exists k :: 0 <= k < |s.entries| && s.entries[k].Entry? && s.entries[k].payload.body.Sealed?
            && Binding(p.token, p.revision) in ItemOf(s.entries[k]).bindings)
      && q.Ok? && |q.value.frames| == |s.publications| && q.value.frames[n] == p.id
  {
    HonestRun(ws, steps, i);
    var w := ws[i];
    var s := w.store;
    var p := s.publications[n];
    BoundByEntry(s.entries, p.token);
    LedgerInRange(w);
    HonestQueueReads(w.device, s, LedgerOf(s.entries), s.revision);
  }

  lemma LedgerInRange(w: World)
    requires SafeInv(w) && StoreChain(w.store)
    ensures forall t :: t in LedgerOf(w.store.entries) ==> 1 <= LedgerOf(w.store.entries)[t] <= w.store.revision
  {
    var d := w.device;
    WalkedEntriesVerify(w.store.entries);
    WalkedLedger(d.initial, d.minted, d.publications, w.store.entries);
  }

  /** A publication bound by any accepted entry is queued until it is marked sent. */
  lemma CommittedFrameStaysQueued(ws: seq<World>, steps: seq<Step>, i: nat, t: Token)
    requires Run(ws, steps) && Honest(steps) && i < |ws|
    requires t in ChainTokens(Tip(ws[i].store))
    ensures t in ws[i].device.publications
    ensures ws[i].device.publications[t] in ws[i].store.publications || ws[i].device.publications[t].id in ws[i].sent
  {
    HonestRun(ws, steps, i);
  }

  /** A frame returned from the queue is recorded on the accepted chain, so a frame prepared on an
      aborted branch never is. */
  lemma AbortedFrameIsNeverReturned(ws: seq<World>, steps: seq<Step>, i: nat, f: Frame)
    requires Run(ws, steps) && i < |ws| && ws[i].phase.Idle?
    requires var j := ws[i].phase.live.journal;
      var q := ReadPublications(ws[i].store.publications, j.ledger, AnchorRevision(j.head));
      q.Ok? && f in q.value.frames
    ensures InChain(ws[i].device.minted, AnchorCommitment(ws[i].anchor), f.content)
    ensures f.content.member == ws[i].device.local
  {
    SafeRun(ws, steps, i);
    QueuedFramesAreAccepted(ws[i].device, ws[i].store, ws[i].phase.live.journal);
  }

  /** The ledger never reaches its limit: a checkpoint carries at most 16 tokens and each later entry
      adds at most one. */
  lemma {:induction false} LedgerIsSmall(entries: seq<Entry>)
    requires Walk(entries).Ok?
    ensures |LedgerOf(entries)| <= |entries| + 15
  {
    if entries != [] {
      var front, e := entries[..|entries| - 1], entries[|entries| - 1];
      RecordAllKeys(Walk(front).value.ledger, ItemOf(e).bindings, e.payload.revision, e.payload.body.checkpoint);
      if front != [] { LedgerIsSmall(front); }
    }
  }

  lemma LedgerHasRoom(ws: seq<World>, steps: seq<Step>, i: nat)
    requires Run(ws, steps) && Honest(steps) && i < |ws| && ws[i].phase.Idle?
    requires !NeedsCheckpoint(ws[i].phase.live.journal)
    ensures |ws[i].phase.live.journal.ledger| < MAX_LEDGER
  {
    HonestRun(ws, steps, i);
    LedgerIsSmall(ws[i].store.entries);
  }
}
