/** Crash recovery when several instances of one member share a store that nobody replaces: whatever
    the others are in the middle of, any instance can crash and come back. */
module GroupRecovery {
  import opened Common
  import opened DocumentTypes
  import opened AuthorityHistory
  import opened ReplayJournal
  import opened JournalStoreSpec
  import opened DocumentState
  import opened AcceptedChain
  import opened ChainRecovery
  import opened DocumentRun
  import opened DocumentSafety
  import opened DocumentTheorems
  import opened HonestJournal
  import opened HonestSteps
  import opened CrashSafety
  import opened DocumentGroup

  // ---------------------------------------------------------------- what an instance knows

  /** The journal's fields are those of the chain behind its head, wherever the store is by now. */
  predicate Reflects(j: Memory) {
    var kept := SinceCheckpoint(AnchorCommitment(j.head));
    Walk(kept).Ok? && j.ledger == LedgerOf(kept) && j.entryCount == |kept| && j.retainedBytes == TotalLength(kept)
  }

  /** While the store still ends at the head, every queued record is in the queue map. */
  predicate Covers(s: Snapshot, j: Memory) {
    Tip(s) == AnchorCommitment(j.head) ==>
      forall p :: p in s.publications ==> p.id in j.outbox && j.outbox[p.id] == Binding(p.token, p.revision)
  }

  /** An instance stands on the accepted chain, possibly behind the others. */
  predicate LiveStands(s: Snapshot, anchor: Option<Anchor>, j: Memory) {
    Reflects(j) && Covers(s, j) && Reaches(AnchorCommitment(anchor), AnchorCommitment(j.head))
  }

  predicate RestoringStands(s: Snapshot, anchor: Option<Anchor>, r: Restored, expected: Option<Anchor>, swapped: bool) {
    var kept := SinceCheckpoint(AnchorCommitment(r.stored));
    && Walk(kept).Ok? && r.ledger == LedgerOf(kept) && |r.items| == |kept| && r.bytes == TotalLength(kept)
    && Reaches(AnchorCommitment(anchor), AnchorCommitment(expected))
    && if r.finish && !swapped
       then AnchorCommitment(anchor) == AnchorCommitment(expected) ==> Tip(s) == AnchorCommitment(r.stored)
       else Reaches(AnchorCommitment(anchor), AnchorCommitment(r.stored))
  }

  predicate Stands(s: Snapshot, anchor: Option<Anchor>, phase: Phase) {
    match phase
    case Down => true
    case Restoring(r, expected, swapped, _) => RestoringStands(s, anchor, r, expected, swapped)
    case Idle(live) => LiveStands(s, anchor, live.journal)
    case Sending(live, frame) =>
      && LiveStands(s, anchor, live.journal)
      && (Tip(s) == AnchorCommitment(live.journal.head) ==> forall p :: p in s.publications ==> p.id != frame)
    case Staged(live, op) => LiveStands(s, anchor, live.journal) && OpReplays(live.journal, op)
    case Applied(live, op) => LiveStands(s, anchor, live.journal) && OpReplays(live.journal, op)
    case Sealing(live, op, e) =>
      && LiveStands(s, anchor, live.journal) && OpReplays(live.journal, op)
      && Covers(s, AfterCommit(live.journal, op, e))
    case Anchored(live, op, e) =>
      && Reflects(live.journal) && OpReplays(live.journal, op)
      && Covers(s, AfterCommit(live.journal, op, e))
  }

  /** The store is an honest journal that ends at the anchor or one entry above it. */
  predicate StoreHonest(d: Device, s: Snapshot, anchor: Option<Anchor>, sent: set<Frame>) {
    && StoreChain(s)
    && QueueOk(d, s.publications, LedgerOf(s.entries))
    && NothingLost(d, s, sent)
    && (Tip(s) == AnchorCommitment(anchor) || OneAbove(s, anchor))
  }

  predicate WorldHonest(w: World) { StoreHonest(w.device, w.store, w.anchor, w.sent) }

  predicate WorldStands(w: World) { Stands(w.store, w.anchor, w.phase) }

  // ---------------------------------------------------------------- the three ways things move

  /** The entry an operation in flight has sealed. */
  function OpEntries(p: Phase): set<Entry> { if p.Sealing? || p.Anchored? then {p.entry} else {} }

  /** Store and anchor end where they did, and the queue gains nothing. */
  predicate Stays(s: Snapshot, anchor: Option<Anchor>, s': Snapshot, anchor': Option<Anchor>) {
    Tip(s') == Tip(s) && anchor' == anchor && forall p :: p in s'.publications ==> p in s.publications
  }

  /** The store gains the acting instance's entry on top of the anchor. */
  predicate Appends(s: Snapshot, anchor: Option<Anchor>, s': Snapshot, anchor': Option<Anchor>, acting: set<Entry>) {
    && anchor' == anchor && Tip(s) == AnchorCommitment(anchor)
    && Tip(s').Digest? && Tip(s').entry in acting && RevisionAt(Tip(s')) == AnchorRevision(anchor) + 1
  }

  /** The anchor follows the store. */
  predicate Climbs(s: Snapshot, anchor: Option<Anchor>, s': Snapshot, anchor': Option<Anchor>) {
    s' == s && OneAbove(s, anchor) && AnchorCommitment(anchor') == Tip(s)
  }

  predicate Moves(s: Snapshot, anchor: Option<Anchor>, s': Snapshot, anchor': Option<Anchor>, acting: set<Entry>) {
    Stays(s, anchor, s', anchor') || Appends(s, anchor, s', anchor', acting) || Climbs(s, anchor, s', anchor')
  }

  // ---------------------------------------------------------------- revisions along the chain

  /** An ancestor has a smaller revision. */
  lemma {:induction false} ReachesRevision(initial: set<Change>, minted: Minted, publications: AcceptedChain.Sealed, d: Commitment, c: Commitment)
    requires MintedOk(initial, minted, publications) && Known(minted, d) && Reaches(d, c)
    ensures Known(minted, c) && RevisionAt(c) <= RevisionAt(d) && (RevisionAt(c) == RevisionAt(d) ==> c == d)
    decreases d
  {
    if c != d {
      assert EntryOk(initial, minted, publications, d.entry);
      ReachesRevision(initial, minted, publications, d.entry.payload.parent, c);
    }
  }

  lemma AnchorReaches(d: Device, anchor: Option<Anchor>, c: Commitment)
    requires DeviceOk(d) && AnchorOk(d.minted, anchor) && Reaches(AnchorCommitment(anchor), c)
    ensures Known(d.minted, c) && RevisionAt(c) <= AnchorRevision(anchor)
    ensures RevisionAt(c) == AnchorRevision(anchor) ==> c == AnchorCommitment(anchor)
  {
    ReachesRevision(d.initial, d.minted, d.publications, AnchorCommitment(anchor), c);
  }

  // ---------------------------------------------------------------- the instances that do not act

  lemma CoversKept(d: Device, s: Snapshot, anchor: Option<Anchor>, j: Memory, s': Snapshot, anchor': Option<Anchor>, acting: set<Entry>)
    requires DeviceOk(d) && AnchorOk(d.minted, anchor) && Covers(s, j) && Moves(s, anchor, s', anchor', acting)
    requires Reaches(AnchorCommitment(anchor), AnchorCommitment(j.head))
             || (AnchorCommitment(j.head).Digest? && AnchorCommitment(j.head).entry !in acting)
    ensures Covers(s', j)
  {
    if Appends(s, anchor, s', anchor', acting) && Reaches(AnchorCommitment(anchor), AnchorCommitment(j.head)) {
      AnchorReaches(d, anchor, AnchorCommitment(j.head));
    }
  }

  lemma LiveKept(d: Device, s: Snapshot, anchor: Option<Anchor>, j: Memory, s': Snapshot, anchor': Option<Anchor>, acting: set<Entry>)
    requires DeviceOk(d) && AnchorOk(d.minted, anchor) && LiveStands(s, anchor, j) && Moves(s, anchor, s', anchor', acting)
    requires Reaches(AnchorCommitment(anchor'), AnchorCommitment(anchor))
    ensures LiveStands(s', anchor', j)
  {
    CoversKept(d, s, anchor, j, s', anchor', acting);
    ReachesTransitive(AnchorCommitment(anchor'), AnchorCommitment(anchor), AnchorCommitment(j.head));
  }

  /** A half-done anchor move is either still open or can no longer be finished. */
  lemma HalfDoneKept(d: Device, s: Snapshot, anchor: Option<Anchor>, stored: Commitment, expected: Commitment,
                     s': Snapshot, anchor': Option<Anchor>, acting: set<Entry>)
    requires DeviceOk(d) && AnchorOk(d.minted, anchor) && StoreChain(s) && Moves(s, anchor, s', anchor', acting)
    requires stored.Digest? && stored.entry in d.minted && stored.entry.Entry? && stored.entry.payload.parent == expected
    requires Reaches(AnchorCommitment(anchor), expected) && (AnchorCommitment(anchor) == expected ==> Tip(s) == stored)
    ensures AnchorCommitment(anchor') == expected ==> Tip(s') == stored
  {
    AnchorReaches(d, anchor, expected);
    assert EntryOk(d.initial, d.minted, d.publications, stored.entry);
    assert RevisionAt(stored) == RevisionAt(expected) + 1;
    if Climbs(s, anchor, s', anchor') { assert RevisionAt(Tip(s)) == AnchorRevision(anchor) + 1; }
  }

  lemma RestoringStandsKept(d: Device, s: Snapshot, anchor: Option<Anchor>, r: Restored, expected: Option<Anchor>, swapped: bool,
                            s': Snapshot, anchor': Option<Anchor>, acting: set<Entry>)
    requires DeviceOk(d) && AnchorOk(d.minted, anchor) && StoreChain(s)
    requires RestoringStands(s, anchor, r, expected, swapped) && RestoringOk(d, expected, r)
    requires Moves(s, anchor, s', anchor', acting) && Reaches(AnchorCommitment(anchor'), AnchorCommitment(anchor))
    ensures RestoringStands(s', anchor', r, expected, swapped)
  {
    var a, a', stored := AnchorCommitment(anchor), AnchorCommitment(anchor'), AnchorCommitment(r.stored);
    ReachesTransitive(a', a, AnchorCommitment(expected));
    if r.finish && !swapped {
      HalfDoneKept(d, s, anchor, stored, AnchorCommitment(expected), s', anchor', acting);
    } else {
      ReachesTransitive(a', a, stored);
    }
  }

  lemma StandsKept(d: Device, s: Snapshot, anchor: Option<Anchor>, p: Phase, s': Snapshot, anchor': Option<Anchor>, acting: set<Entry>)
    requires DeviceOk(d) && AnchorOk(d.minted, anchor) && PhaseOk(d, anchor, p) && Stands(s, anchor, p)
    requires OpEntries(p) !! acting && Moves(s, anchor, s', anchor', acting)
    requires StoreChain(s)
    requires Reaches(AnchorCommitment(anchor'), AnchorCommitment(anchor))
    ensures Stands(s', anchor', p)
  {
    if p.Restoring? {
      RestoringStandsKept(d, s, anchor, p.restored, p.expected, p.swapped, s', anchor', acting);
    } else if HasLive(p) {
      if !p.Anchored? { LiveKept(d, s, anchor, p.live.journal, s', anchor', acting); }
      if p.Sealing? || p.Anchored? { CoversKept(d, s, anchor, AfterCommit(p.live.journal, p.op, p.entry), s', anchor', acting); }
      if p.Sending? { SendingKept(d, s, anchor, p.live.journal, p.frame, s', anchor', acting); }
    }
  }

  lemma SendingKept(d: Device, s: Snapshot, anchor: Option<Anchor>, j: Memory, frame: Frame, s': Snapshot, anchor': Option<Anchor>, acting: set<Entry>)
    requires DeviceOk(d) && AnchorOk(d.minted, anchor) && LiveStands(s, anchor, j) && Moves(s, anchor, s', anchor', acting)
    requires Tip(s) == AnchorCommitment(j.head) ==> forall p :: p in s.publications ==> p.id != frame
    ensures Tip(s') == AnchorCommitment(j.head) ==> forall p :: p in s'.publications ==> p.id != frame
  {
    AnchorReaches(d, anchor, AnchorCommitment(j.head));
  }

  // ---------------------------------------------------------------- the instance that acts

  /** What one step of an instance does to store and anchor, and where it leaves the instance. */
  predicate ActsWell(w: World, w': World) {
    WorldHonest(w') && WorldStands(w') && Moves(w.store, w.anchor, w'.store, w'.anchor, OpEntries(w.phase))
  }

  /** An instance whose head the store still ends at mirrors the store. */
  lemma StandsMirrors(s: Snapshot, anchor: Option<Anchor>, j: Memory)
    requires StoreChain(s) && LiveStands(s, anchor, j) && Tip(s) == AnchorCommitment(j.head)
    ensures Mirrors(s, j)
  {
    WalkIsSinceCheckpoint(s.entries);
    assert Tip(s) == LastCommitment(Walk(s.entries).value.last);
  }

  lemma SinceCheckpointEnds(c: Commitment)
    requires Walk(SinceCheckpoint(c)).Ok?
    ensures LastCommitment(Walk(SinceCheckpoint(c)).value.last) == c
  {}

  /** One more entry on a chain that walks. */
  lemma DeltaWalks(d: Device, live: Live, op: Op, e: Entry, kept: seq<Entry>)
    requires kept == SinceCheckpoint(AnchorCommitment(live.journal.head)) && Walk(kept).Ok? && live.journal.ledger == LedgerOf(kept)
    requires OpReplays(live.journal, op) && AnchorOk(d.minted, live.journal.head)
    requires PayloadOk(live.journal, op) && SealedFor(d, op, e) && !op.checkpoint
    ensures Walk(kept + [e]).Ok? && LedgerOf(kept + [e]) == op.candidate
    ensures SinceCheckpoint(Digest(e)) == kept + [e] && TotalLength(kept + [e]) == TotalLength(kept) + EntryLength(e)
  {
    TotalLengthAppend(kept, e);
    SinceCheckpointEnds(AnchorCommitment(live.journal.head));
    EntryWalks(Walk(kept).value, live, op, e);
    WalkAppend(kept, e);
  }

  /** A checkpoint starts a chain of its own. */
  lemma CheckpointWalks(d: Device, live: Live, op: Op, e: Entry)
    requires OpReplays(live.journal, op) && PayloadOk(live.journal, op) && SealedFor(d, op, e) && op.checkpoint
    ensures Walk([e]).Ok? && LedgerOf([e]) == op.candidate && SinceCheckpoint(Digest(e)) == [e]
    ensures TotalLength([e]) == EntryLength(e)
  {
    EntryWalks(Walked([], map[], None), live, op, e);
    assert [e][..0] == [];
  }

  /** The fields after a commit reflect the chain that ends at the new entry. */
  lemma CommitReflects(d: Device, live: Live, op: Op, e: Entry)
    requires Reflects(live.journal) && OpReplays(live.journal, op) && AnchorOk(d.minted, live.journal.head)
    requires PayloadOk(live.journal, op) && SealedFor(d, op, e)
    ensures Reflects(AfterCommit(live.journal, op, e))
  {
    var kept, j := SinceCheckpoint(AnchorCommitment(live.journal.head)), AfterCommit(live.journal, op, e);
    if op.checkpoint {
      CheckpointWalks(d, live, op, e);
      ReflectsKept(j, [e]);
    } else {
      DeltaWalks(d, live, op, e, kept);
      ReflectsKept(j, kept + [e]);
    }
  }

  lemma ReflectsKept(j: Memory, kept: seq<Entry>)
    requires kept == SinceCheckpoint(AnchorCommitment(j.head)) && Walk(kept).Ok? && j.ledger == LedgerOf(kept)
    requires j.entryCount == |kept| && j.retainedBytes == TotalLength(kept)
    ensures Reflects(j)
  {}

  lemma OpenStands(w: World, w': World)
    requires Shared(w) && WorldHonest(w) && DoOpen(w) == Some(w')
    ensures ActsWell(w, w')
  {
    HonestRestores(w.store, w.anchor, w.device.minted);
    RestoreIsAnchored(w.store, w.anchor);
  }

  lemma RestoreSwapStands(w: World, w': World)
    requires Shared(w) && WorldHonest(w) && WorldStands(w) && DoRestoreSwap(w) == Some(w')
    ensures ActsWell(w, w')
  {
    var stored := AnchorCommitment(w.phase.restored.stored);
    assert EntryOk(w.device.initial, w.device.minted, w.device.publications, stored.entry);
    assert OneAbove(w.store, w.anchor);
    assert Climbs(w.store, w.anchor, w'.store, w'.anchor);
  }

  lemma QueueCovers(d: Device, s: Snapshot, j: Memory)
    requires StoreChain(s) && QueueOk(d, s.publications, LedgerOf(s.entries)) && Reflects(j)
    requires forall t :: t in j.ledger ==> 1 <= j.ledger[t] <= AnchorRevision(j.head)
    requires ReadPublications(s.publications, j.ledger, AnchorRevision(j.head)).Ok?
    requires j.outbox == ReadPublications(s.publications, j.ledger, AnchorRevision(j.head)).value.bindings
    ensures Covers(s, j)
  {
    if Tip(s) == AnchorCommitment(j.head) {
      WalkIsSinceCheckpoint(s.entries);
      assert Tip(s) == LastCommitment(Walk(s.entries).value.last);
      HonestQueueReads(d, s, j.ledger, AnchorRevision(j.head));
    }
  }

  lemma RestoreFinishStands(w: World, authority: AuthorityHead, w': World)
    requires Shared(w) && WorldHonest(w) && WorldStands(w) && DoRestoreFinish(w, authority) == Some(w')
    ensures ActsWell(w, w')
  {
    QueueCovers(w.device, w.store, w'.phase.live.journal);
  }

  lemma ReadOutboxStands(w: World, w': World)
    requires Shared(w) && WorldHonest(w) && WorldStands(w) && DoReadOutbox(w) == Some(w')
    ensures ActsWell(w, w')
  {
    QueueCovers(w.device, w.store, w'.phase.live.journal);
  }

  lemma DiscardStands(w: World, w': World, token: Token)
    requires WorldHonest(w) && w' == w.(store := Discarded(w.store, token), phase := w'.phase)
    requires Stands(w.store, w.anchor, w'.phase)
    ensures ActsWell(w, w')
  {
    DiscardHonest(w.store, token);
  }

  lemma StageStands(w: World, live: Live, checkpoint: bool, item: Item, outbound: bool,
                    content: Option<Content>, result: Option<Frame>, after: DocState, draw: Draw, w': World)
    requires WorldHonest(w) && WorldStands(w) && w.phase.Idle?
    requires live.journal == w.phase.live.journal && MemoryOk(w.device, live.journal)
    requires forall f :: f in draw.retained ==> f in live.journal.outbox
    requires item.bindings == BindingList(live.journal, checkpoint, NewBinding(live.journal, outbound, draw), draw)
    requires StageEntry(w, live, checkpoint, item, NewBinding(live.journal, outbound, draw), content, result, after, draw)
             == Some(w')
    ensures ActsWell(w, w')
  {
    var binding := NewBinding(live.journal, outbound, draw);
    StagedShape(w, live, checkpoint, item, binding, content, result, after, draw, w');
    StagedRecords(w.device, live.journal, checkpoint, binding, draw);
    StagedPending(w, live, checkpoint, item, binding, content, result, after, draw, w');
    assert OpReplays(live.journal, w'.phase.op);
    StagedStands(w, live, w'.phase.op, w');
  }

  lemma StagedStands(w: World, live: Live, op: Op, w': World)
    requires WorldHonest(w) && LiveStands(w.store, w.anchor, live.journal) && OpReplays(live.journal, op)
    requires w'.store == w.store.(pending := w'.store.pending) && StoreOk(w'.store)
    requires w'.device.publications == w.device.publications && w'.sent == w.sent && w'.anchor == w.anchor
    requires w'.phase == Phase.Staged(live, op)
    ensures ActsWell(w, w')
  {
    assert Tip(w'.store) == Tip(w.store);
  }

  lemma PrepareStands(w: World, s: Step, w': World)
    requires Shared(w) && WorldHonest(w) && WorldStands(w) && Do(w, s) == Some(w')
    requires s.Change? || s.Receive? || s.RoleTransition?
    ensures ActsWell(w, w')
  {
    var live, j, checkpoint := w.phase.live, w.phase.live.journal, NeedsCheckpoint(w.phase.live.journal);
    match s
    case Change(changes, persist, nonce, length, draw) =>
      var x := NextContent(w.device.local, live, changes);
      var item := FrameItem(live.doc, x, checkpoint, BindingList(j, checkpoint, NewBinding(j, persist, draw), draw));
      StageStands(w, live, checkpoint, item, persist, Some(x), Some(Frame(x, nonce, length)), AfterFrame(live.doc, x), draw, w');
    case Receive(x, draw) =>
      if AdmitContent(live.doc, x) == Apply {
        var item := FrameItem(live.doc, x, checkpoint, BindingList(j, checkpoint, NewBinding(j, false, draw), draw));
        StageStands(w, live, checkpoint, item, false, Some(x), None, AfterFrame(live.doc, x), draw, w');
      }
    case RoleTransition(record, draw) =>
      var moved := live.(authority := AuthorityDigest(record));
      var item := RoleItem(live.doc, moved.authority, record.context, BindingList(j, true, None, draw));
      StageStands(w, moved, true, item, false, None, None, AfterRole(live.doc, record.context), draw, w');
  }

  lemma TipIsMinted(d: Device, s: Snapshot)
    requires Unforged(d, s) && StoreChain(s)
    ensures Known(d.minted, Tip(s))
  {
    WalkedAreMinted(d, s);
  }

  lemma SealStands(w: World, nonce: nat, w': World)
    requires Shared(w) && WorldHonest(w) && WorldStands(w) && DoSeal(w, nonce) == Some(w')
    ensures ActsWell(w, w')
  {
    SealStep(w, nonce, w');
    SealsGrows(w.device, w.phase.op, AcceptedEntry(w.phase.op, nonce), w'.device);
    SealedQueue(w.device, w.store, w.sent, w'.device);
    TipIsMinted(w.device, w.store);
  }

  /** The store takes an instance's entry only while head, anchor and store agree. */
  lemma CommitsAtAnchor(d: Device, s: Snapshot, anchor: Option<Anchor>, j: Memory)
    requires DeviceOk(d) && AnchorOk(d.minted, anchor) && AnchorOk(d.minted, j.head)
    requires StoreChain(s) && (Tip(s) == AnchorCommitment(anchor) || OneAbove(s, anchor))
    requires Reaches(AnchorCommitment(anchor), AnchorCommitment(j.head)) && s.revision == AnchorRevision(j.head)
    ensures Tip(s) == AnchorCommitment(anchor) == AnchorCommitment(j.head) && AnchorRevision(j.head) == AnchorRevision(anchor)
  {
    AnchorReaches(d, anchor, AnchorCommitment(j.head));
  }

  lemma SealedStands(w: World)
    requires Shared(w) && WorldHonest(w) && WorldStands(w) && w.phase.Sealing?
    requires w.store.revision == AnchorRevision(w.phase.live.journal.head)
    ensures ReadyToCommit(w.device, w.store, w.phase.live, w.phase.op, w.phase.entry)
    ensures Tip(w.store) == AnchorCommitment(w.anchor) == AnchorCommitment(w.phase.live.journal.head)
    ensures w.store.revision == AnchorRevision(w.anchor)
  {
    CommitsAtAnchor(w.device, w.store, w.anchor, w.phase.live.journal);
    StandsMirrors(w.store, w.anchor, w.phase.live.journal);
  }

  /** The committed store ends one entry above the anchor, and the instance knows its queue. */
  lemma CommittedStands(s: Snapshot, anchor: Option<Anchor>, live: Live, op: Op, e: Entry)
    requires StoreChain(s) && CommittedIs(s, live, op, e) && e.Entry? && e.payload == op.payload
    requires PayloadOk(live.journal, op) && AnchorCommitment(live.journal.head) == AnchorCommitment(anchor)
    requires AnchorRevision(live.journal.head) == AnchorRevision(anchor) == RevisionAt(AnchorCommitment(anchor))
    ensures OneAbove(s, anchor) && Tip(s) == Digest(e) && RevisionAt(Tip(s)) == AnchorRevision(anchor) + 1
    ensures Covers(s, AfterCommit(live.journal, op, e)) && Covers(s, live.journal)
  {}

  lemma CommitLeaves(w: World, w': World)
    requires Shared(w) && WorldHonest(w) && WorldStands(w) && DoStoreCommit(w) == Some(w')
    ensures StoreChain(w'.store) && QueueOk(w.device, w'.store.publications, LedgerOf(w'.store.entries))
    ensures NothingLost(w.device, w'.store, w.sent) && CommittedIs(w'.store, w.phase.live, w.phase.op, w.phase.entry)
    ensures Tip(w.store) == AnchorCommitment(w.anchor) == AnchorCommitment(w.phase.live.journal.head)
    ensures AnchorRevision(w.phase.live.journal.head) == AnchorRevision(w.anchor)
  {
    SealedStands(w);
    CommitKeeps(w.device, w.store, w.sent, w.phase.live, w.phase.op, w.phase.entry, w'.store);
  }

  lemma StoreCommitStands(w: World, w': World)
    requires Shared(w) && WorldHonest(w) && WorldStands(w) && DoStoreCommit(w) == Some(w')
    ensures ActsWell(w, w')
  {
    CommitLeaves(w, w');
    CommittedStands(w'.store, w.anchor, w.phase.live, w.phase.op, w.phase.entry);
    assert Appends(w.store, w.anchor, w'.store, w'.anchor, OpEntries(w.phase));
  }

  lemma AnchorSwapStands(w: World, w': World)
    requires Shared(w) && WorldHonest(w) && WorldStands(w) && DoAnchorSwap(w) == Some(w')
    ensures ActsWell(w, w')
  {
    assert Tip(w.store) == Digest(w.phase.entry);
    assert Climbs(w.store, w.anchor, w'.store, w'.anchor);
  }

  lemma FinishStands(w: World, w': World)
    requires Shared(w) && WorldHonest(w) && WorldStands(w) && DoFinish(w) == Some(w')
    ensures ActsWell(w, w')
  {
    CommitReflects(w.device, w.phase.live, w.phase.op, w.phase.entry);
  }

  lemma StoreSentStands(w: World, frame: Frame, w': World)
    requires WorldHonest(w) && WorldStands(w) && DoStoreSent(w, frame) == Some(w')
    ensures ActsWell(w, w')
  {
    SentKeepsStore(w.store, frame);
    WithoutRemoves(w.store.publications, frame);
    assert Tip(w'.store) == Tip(w.store);
  }

  /** A step that touches only the instance itself. */
  lemma InnerStands(w: World, w': World)
    requires WorldHonest(w) && w' == w.(phase := w'.phase) && Stands(w.store, w.anchor, w'.phase)
    ensures ActsWell(w, w')
  {
    assert Stays(w.store, w.anchor, w'.store, w'.anchor);
  }

  /** Nothing an instance knows of the journal depends on the authority log. */
  lemma AuthorityStands(s: Snapshot, anchor: Option<Anchor>, p: Phase, authority: AuthorityHead)
    requires Stands(s, anchor, p) && HasLive(p)
    ensures Stands(s, anchor, p.(live := p.live.(authority := authority)))
  {}

  lemma AuthorityUpdateStands(w: World, record: AuthorityRecord, w': World)
    requires WorldHonest(w) && WorldStands(w) && DoAuthorityUpdate(w, record) == Some(w')
    ensures ActsWell(w, w')
  {
    AuthorityStands(w.store, w.anchor, w.phase, AuthorityDigest(record));
    InnerStands(w, w');
  }

  lemma GateCommitStands(w: World, w': World)
    requires WorldHonest(w) && WorldStands(w) && DoGateCommit(w) == Some(w')
    ensures ActsWell(w, w')
  {
    InnerStands(w, w');
  }

  lemma SentFinishStands(w: World, w': World)
    requires WorldHonest(w) && WorldStands(w) && DoSentFinish(w) == Some(w')
    ensures ActsWell(w, w')
  {
    assert Covers(w.store, w'.phase.live.journal);
    InnerStands(w, w');
  }

  lemma InnerStepStands(w: World, s: Step, w': World)
    requires WorldHonest(w) && WorldStands(w) && Do(w, s) == Some(w')
    requires s.Crash? || s.AuthorityUpdate? || s.GateCommit? || s.SentFinish?
    ensures ActsWell(w, w')
  {
    match s
    case Crash => InnerStands(w, w');
    case AuthorityUpdate(record) => AuthorityUpdateStands(w, record, w');
    case GateCommit => GateCommitStands(w, w');
    case SentFinish => SentFinishStands(w, w');
  }

  lemma StoreStepStands(w: World, s: Step, w': World)
    requires Shared(w) && WorldHonest(w) && WorldStands(w) && Do(w, s) == Some(w')
    requires s.RestoreDiscard? || s.GateAbort? || s.Seal? || s.StoreCommit? || s.AnchorSwap? || s.Finish? || s.StoreSent?
    ensures ActsWell(w, w')
  {
    match s
    case RestoreDiscard => DiscardStands(w, w', w.phase.restored.discard.value);
    case GateAbort => DiscardStands(w, w', w.phase.op.token);
    case Seal(nonce) => SealStands(w, nonce, w');
    case StoreCommit => StoreCommitStands(w, w');
    case AnchorSwap => AnchorSwapStands(w, w');
    case Finish => FinishStands(w, w');
    case StoreSent(frame) => StoreSentStands(w, frame, w');
  }

  lemma StepStands(w: World, s: Step, w': World)
    requires Shared(w) && WorldHonest(w) && WorldStands(w) && !s.Tamper? && Do(w, s) == Some(w')
    ensures ActsWell(w, w')
  {
    if s.Open? {
      OpenStands(w, w');
    } else if s.RestoreSwap? {
      RestoreSwapStands(w, w');
    } else if s.RestoreFinish? {
      RestoreFinishStands(w, s.authority, w');
    } else if s.ReadOutbox? {
      ReadOutboxStands(w, w');
    } else if s.Change? || s.Receive? || s.RoleTransition? {
      PrepareStands(w, s, w');
    } else if s.Crash? || s.AuthorityUpdate? || s.GateCommit? || s.SentFinish? {
      InnerStepStands(w, s, w');
    } else {
      StoreStepStands(w, s, w');
    }
  }

  // ---------------------------------------------------------------- runs

  ghost predicate GroupStands(g: Group) {
    && StoreHonest(g.device, g.store, g.anchor, g.sent)
    && (forall i :: 0 <= i < |g.instances| ==> Stands(g.store, g.anchor, g.instances[i]))
    && (forall i, j :: 0 <= i < j < |g.instances| ==> OpEntries(g.instances[i]) !! OpEntries(g.instances[j]))
  }

  ghost predicate Untouched(acts: seq<Act>) { forall i :: 0 <= i < |acts| ==> !acts[i].step.Tamper? }

  /** An instance's sealed entry stays its own; a new one was never sealed before. */
  lemma StepEntries(w: World, s: Step, w': World)
    requires Do(w, s) == Some(w')
    ensures OpEntries(w'.phase) <= OpEntries(w.phase) || forall e :: e in OpEntries(w'.phase) ==> e !in w.device.minted
  {
    if s.Change? || s.Receive? || s.RoleTransition? { PreparedHasNone(w, s, w'); }
  }

  lemma PreparedHasNone(w: World, s: Step, w': World)
    requires Do(w, s) == Some(w') && (s.Change? || s.Receive? || s.RoleTransition?)
    ensures OpEntries(w'.phase) == {}
  {}

  lemma EntriesSealed(d: Device, anchor: Option<Anchor>, p: Phase)
    requires PhaseOk(d, anchor, p)
    ensures forall e :: e in OpEntries(p) ==> e in d.minted
  {}

  lemma OthersStand(g: Group, i: nat, w': World)
    requires GroupInv(g) && GroupStands(g) && i < |g.instances|
    requires ActsWell(Focus(g, i), w') && Reaches(AnchorCommitment(w'.anchor), AnchorCommitment(g.anchor))
    requires OpEntries(w'.phase) <= OpEntries(g.instances[i]) || forall e :: e in OpEntries(w'.phase) ==> e !in g.device.minted
    ensures GroupStands(Unfocus(g, i, w'))
  {
    var after, acting := g.instances[i := w'.phase], OpEntries(g.instances[i]);
    forall j | 0 <= j < |after| ensures Stands(w'.store, w'.anchor, after[j]) {
      if j != i { StandsKept(g.device, g.store, g.anchor, g.instances[j], w'.store, w'.anchor, acting); }
    }
    forall j, k | 0 <= j < k < |after| ensures OpEntries(after[j]) !! OpEntries(after[k]) {
      EntriesSealed(g.device, g.anchor, g.instances[j]);
      EntriesSealed(g.device, g.anchor, g.instances[k]);
    }
  }

  /** A step of one instance keeps the shared journal recoverable and every other instance on its chain. */
  lemma GroupStepStands(g: Group, a: Act, g': Group)
    requires GroupInv(g) && GroupStands(g) && !a.step.Tamper? && GroupDo(g, a) == Some(g')
    ensures GroupStands(g')
  {
    var i, w := a.instance, Focus(g, a.instance);
    var w' := Do(w, a.step).value;
    FocusShared(g, i);
    StepStands(w, a.step, w');
    StepEntries(w, a.step, w');
    ClimbReaches(w, a.step, w');
    OthersStand(g, i, w');
  }

  lemma {:induction false} GroupRunStands(gs: seq<Group>, acts: seq<Act>, i: nat)
    requires GroupRun(gs, acts) && Untouched(acts) && i < |gs|
    ensures GroupInv(gs[i]) && GroupStands(gs[i])
    decreases i
  {
    GroupRunKeeps(gs, acts, i);
    if i > 0 {
      GroupRunStands(gs, acts, i - 1);
      GroupStepStands(gs[i - 1], acts[i - 1], gs[i]);
    } else {
      GroupStartStands(gs[0]);
    }
  }

  lemma GroupStartStands(g: Group)
    requires GroupInitial(g)
    ensures GroupStands(g)
  {
    assert ChainTokens(Tip(EmptySnapshot)) == {};
  }

  // ---------------------------------------------------------------- theorems

  /** What an instance would see right after a crash. */
  function Crashed(g: Group): World { World(g.device, g.store, g.anchor, Down, g.released, g.sent) }

  lemma CrashedIsHonest(g: Group)
    requires GroupInv(g) && GroupStands(g)
    ensures SafeInv(Crashed(g)) && HonestInv(Crashed(g))
  {}

  /** In every state of every interleaving, `restore` succeeds, the store is at the anchor's revision or
      one above, and the items returned are those of the sealed entries since the last checkpoint. */
  lemma GroupRestoreSucceeds(gs: seq<Group>, acts: seq<Act>, i: nat)
    requires GroupRun(gs, acts) && Untouched(acts) && i < |gs|
    ensures var s, anchor := gs[i].store, gs[i].anchor;
      && Restore(s, anchor).Ok?
      && (Tip(s) == AnchorCommitment(anchor) || OneAbove(s, anchor))
      && s.entries == SinceCheckpoint(Tip(s))
      && Restore(s, anchor).value.items == Items(s.entries)
      && (forall e :: e in s.entries ==> e in gs[i].device.minted)
  {
    GroupRunStands(gs, acts, i);
    var g := gs[i];
    HonestRestores(g.store, g.anchor, g.device.minted);
    WalkIsSinceCheckpoint(g.store.entries);
    assert Tip(g.store) == LastCommitment(Walk(g.store.entries).value.last);
    WalkedAreMinted(g.device, g.store);
  }

  /** Whatever the other instances are in the middle of, any one of them can crash and reopen at once:
      the anchor meets the store, nothing staged is left, no committed entry and no queued publication
      is lost, and the document is the one the accepted chain stands for. */
  lemma AnyInstanceRecovers(gs: seq<Group>, acts: seq<Act>, i: nat, k: nat, authority: AuthorityHead)
    requires GroupRun(gs, acts) && Untouched(acts) && i < |gs| && k < |gs[i].instances|
    requires AuthorityOk(authority, Tip(gs[i].store))
    ensures Reopen(Focus(gs[i], k), authority).Some?
    ensures Recovered(Focus(gs[i], k), Reopen(Focus(gs[i], k), authority).value)
  {
    GroupRunStands(gs, acts, i);
    CrashedIsHonest(gs[i]);
    ReopenSucceeds(Crashed(gs[i]), authority);
  }

  /** Each queued publication is bound at its revision by a retained entry and the queue reads back in
      full; each publication an accepted entry bound is queued until some instance marked it sent. */
  lemma GroupOutboxStaysBound(gs: seq<Group>, acts: seq<Act>, i: nat, n: nat, t: Token)
    requires GroupRun(gs, acts) && Untouched(acts) && i < |gs|
    ensures var s := gs[i].store;
      var q := ReadPublications(s.publications, LedgerOf(s.entries), s.revision);
      && q.Ok? && |q.value.frames| == |s.publications|
      && (n < |s.publications| ==>
            && q.value.frames[n] == s.publications[n].id
            && exists k :: 0 <= k < |s.entries| && s.entries[k].Entry? && s.entries[k].payload.body.Sealed?
                 && Binding(s.publications[n].token, s.publications[n].revision) in ItemOf(s.entries[k]).bindings)
    ensures t in ChainTokens(Tip(gs[i].store)) ==>
              && t in gs[i].device.publications
              && (gs[i].device.publications[t] in gs[i].store.publications || gs[i].device.publications[t].id in gs[i].sent)
  {
    GroupRunStands(gs, acts, i);
    var g := gs[i];
    CrashedIsHonest(g);
    LedgerInRange(Crashed(g));
    HonestQueueReads(g.device, g.store, LedgerOf(g.store.entries), g.store.revision);
    if n < |g.store.publications| { BoundByEntry(g.store.entries, g.store.publications[n].token); }
  }

  lemma {:induction false} GroupPending(gs: seq<Group>, acts: seq<Act>, i: nat)
    requires GroupRun(gs, acts) && Untouched(acts) && i < |gs|
    ensures PendingIsNext(gs[i].store)
    decreases i
  {
    if i > 0 {
      GroupPending(gs, acts, i - 1);
      var w := Focus(gs[i - 1], acts[i - 1].instance);
      PendingStep(w, acts[i - 1].step, Do(w, acts[i - 1].step).value);
    }
  }

  /** What any instance has only staged is not among the entries a restore returns. */
  lemma GroupStagedNeverSurfaces(gs: seq<Group>, acts: seq<Act>, i: nat, k: nat)
    requires GroupRun(gs, acts) && Untouched(acts) && i < |gs| && gs[i].store.pending.Some?
    requires k < |gs[i].store.entries|
    ensures gs[i].store.entries[k].Entry? && gs[i].store.entries[k].payload != gs[i].store.pending.value.payload
  {
    GroupRunStands(gs, acts, i);
    GroupPending(gs, acts, i);
    WalkedRevisions(gs[i].store.entries, k);
  }
}
