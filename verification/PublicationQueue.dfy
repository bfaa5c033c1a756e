/** The publication queue of an open document: its fields list exactly the queued records, so staging
    succeeds exactly while the stated bounds have room, and a persisted change is queued with its commit. */
module PublicationQueue {
  import opened Common
  import opened DocumentTypes
  import opened AuthorityHistory
  import opened ReplayJournal
  import opened JournalStoreSpec
  import opened DocumentState
  import opened AcceptedChain
  import opened ChainRecovery
  import opened DocumentRun
  import opened DocumentSafety
  import opened DocumentTheorems
  import opened HonestJournal
  import opened HonestSteps
  import opened CrashSafety
  import opened DocumentProgress

  // ---------------------------------------------------------------- the fields list the queue

  predicate InQueue(s: Snapshot, f: Frame) { exists p :: p in s.publications && p.id == f }

  /** Nothing is listed that is not queued. */
  predicate Lists(s: Snapshot, outbox: map<Frame, Binding>) { forall f :: f in outbox ==> InQueue(s, f) }

  predicate PhaseLists(s: Snapshot, phase: Phase) {
    match phase
    case Down => true
    case Restoring(_, _, _, _) => true
    case Idle(live) => Lists(s, live.journal.outbox)
    case Sending(live, frame) => Lists(s, live.journal.outbox - {frame})
    case Staged(live, op) => Lists(s, live.journal.outbox)
    case Applied(live, op) => Lists(s, live.journal.outbox)
    case Sealing(live, op, e) =>
      if s.pending.Some? then Lists(s, live.journal.outbox) else Lists(s, AfterCommit(live.journal, op, e).outbox)
    case Anchored(live, op, e) => Lists(s, AfterCommit(live.journal, op, e).outbox)
  }

  lemma ReadLists(d: Device, s: Snapshot, ledger: Ledger, current: nat)
    requires StoreOk(s) && QueueOk(d, s.publications, ledger) && forall t :: t in ledger ==> 1 <= ledger[t] <= current
    requires ReadPublications(s.publications, ledger, current).Ok?
    ensures Lists(s, ReadPublications(s.publications, ledger, current).value.bindings)
  {
    QueueReads(d, s.publications, ledger, current);
    forall f | f in QueueMap(s.publications) ensures InQueue(s, f) { QueueMapFrom(s.publications, f); }
  }

  lemma ReadStepLists(w: World, s: Step, w': World)
    requires SafeInv(w) && HonestInv(w) && (s.RestoreFinish? || s.ReadOutbox?) && Do(w, s) == Some(w')
    ensures PhaseLists(w'.store, w'.phase)
  {
    if s.RestoreFinish? {
      var r := w.phase.restored;
      ReadLists(w.device, w.store, r.ledger, AnchorRevision(r.stored));
    } else {
      var j := w.phase.live.journal;
      ReadLists(w.device, w.store, j.ledger, AnchorRevision(j.head));
    }
  }

  lemma StagedLists(w: World, live: Live, checkpoint: bool, item: Item, binding: Option<Binding>,
                    content: Option<Content>, result: Option<Frame>, after: DocState, draw: Draw, w': World)
    requires StageEntry(w, live, checkpoint, item, binding, content, result, after, draw) == Some(w')
    requires Lists(w.store, live.journal.outbox)
    ensures PhaseLists(w'.store, w'.phase)
  {
    StagedShape(w, live, checkpoint, item, binding, content, result, after, draw, w');
  }

  lemma PrepareLists(w: World, s: Step, w': World)
    requires PhaseLists(w.store, w.phase) && (s.Change? || s.Receive? || s.RoleTransition?) && Do(w, s) == Some(w')
    ensures PhaseLists(w'.store, w'.phase)
  {
    var live, j, checkpoint := w.phase.live, w.phase.live.journal, NeedsCheckpoint(w.phase.live.journal);
    match s
    case Change(changes, persist, nonce, length, draw) =>
      var x, binding := NextContent(w.device.local, live, changes), NewBinding(j, persist, draw);
      StagedLists(w, live, checkpoint, FrameItem(live.doc, x, checkpoint, BindingList(j, checkpoint, binding, draw)), binding,
                  Some(x), Some(Frame(x, nonce, length)), AfterFrame(live.doc, x), draw, w');
    case Receive(x, draw) =>
      if AdmitContent(live.doc, x) == Apply {
        var binding := NewBinding(j, false, draw);
        StagedLists(w, live, checkpoint, FrameItem(live.doc, x, checkpoint, BindingList(j, checkpoint, binding, draw)), binding,
                    Some(x), None, AfterFrame(live.doc, x), draw, w');
      }
    case RoleTransition(record, draw) =>
      var head := AuthorityDigest(record);
      StagedLists(w, live.(authority := head), true, RoleItem(live.doc, head, record.context, BindingList(j, true, None, draw)),
                  None, None, None, AfterRole(live.doc, record.context), draw, w');
  }

  lemma StoreCommitLists(w: World, w': World)
    requires HonestInv(w) && PhaseLists(w.store, w.phase) && DoStoreCommit(w) == Some(w')
    ensures PhaseLists(w'.store, w'.phase)
  {
    var op, e, outbox := w.phase.op, w.phase.entry, AfterCommit(w.phase.live.journal, w.phase.op, w.phase.entry).outbox;
    CommittedShape(w.store, AnchorRevision(w.phase.live.journal.head), op.token, op.checkpoint, e, OpPublication(op), w'.store);
    forall f | f in outbox ensures InQueue(w'.store, f) {
      if f in w.phase.live.journal.outbox && InQueue(w.store, f) {
        var p :| p in w.store.publications && p.id == f;
        assert p in w'.store.publications;
      } else {
        assert OpPublication(op).value in w'.store.publications;
      }
    }
  }

  /** Admission and sealing leave the queue and the fields alone. */
  lemma AdmitStepLists(w: World, s: Step, w': World)
    requires PhaseLists(w.store, w.phase) && Do(w, s) == Some(w') && (s.GateCommit? || s.GateAbort?)
    ensures PhaseLists(w'.store, w'.phase)
  {}

  lemma SealLists(w: World, nonce: nat, w': World)
    requires PhaseLists(w.store, w.phase) && w.store.pending.Some? && DoSeal(w, nonce) == Some(w')
    ensures PhaseLists(w'.store, w'.phase)
  {}

  lemma AppliedPends(w: World)
    requires HonestInv(w) && w.phase.Applied?
    ensures w.store.pending.Some?
  {}

  lemma AnchorSwapLists(w: World, w': World)
    requires PhaseLists(w.store, w.phase) && w.store.pending.None? && DoAnchorSwap(w) == Some(w')
    ensures PhaseLists(w'.store, w'.phase)
  {}

  lemma StoredHasNone(w: World, w': World)
    requires SafeInv(w) && HonestInv(w) && DoAnchorSwap(w) == Some(w')
    ensures w.store.pending.None?
  {
    AnchorSwapHonest(w, w');
  }

  lemma FinishLists(w: World, w': World)
    requires PhaseLists(w.store, w.phase) && DoFinish(w) == Some(w')
    ensures PhaseLists(w'.store, w'.phase)
  {}

  lemma CommitStepLists(w: World, s: Step, w': World)
    requires SafeInv(w) && HonestInv(w) && PhaseLists(w.store, w.phase) && Do(w, s) == Some(w')
    requires s.Seal? || s.StoreCommit? || s.AnchorSwap? || s.Finish?
    ensures PhaseLists(w'.store, w'.phase)
  {
    match s
    case Seal(nonce) =>
      AppliedPends(w);
      SealLists(w, nonce, w');
    case StoreCommit => StoreCommitLists(w, w');
    case AnchorSwap =>
      StoredHasNone(w, w');
      AnchorSwapLists(w, w');
    case Finish => FinishLists(w, w');
  }

  lemma SentStepLists(w: World, s: Step, w': World)
    requires PhaseLists(w.store, w.phase) && (s.StoreSent? || s.SentFinish?) && Do(w, s) == Some(w')
    ensures PhaseLists(w'.store, w'.phase)
  {
    if s.StoreSent? {
      WithoutRemoves(w.store.publications, s.frame);
      forall f | f in w'.phase.live.journal.outbox - {s.frame} ensures InQueue(w'.store, f) {
        var p :| p in w.store.publications && p.id == f;
        assert p in w'.store.publications;
      }
    }
  }

  lemma StepLists(w: World, s: Step, w': World)
    requires SafeInv(w) && HonestInv(w) && PhaseLists(w.store, w.phase) && !s.Tamper? && Do(w, s) == Some(w')
    ensures PhaseLists(w'.store, w'.phase)
  {
    if s.RestoreFinish? || s.ReadOutbox? {
      ReadStepLists(w, s, w');
    } else if s.Change? || s.Receive? || s.RoleTransition? {
      PrepareLists(w, s, w');
    } else if s.StoreSent? || s.SentFinish? {
      SentStepLists(w, s, w');
    } else if s.GateCommit? || s.GateAbort? {
      AdmitStepLists(w, s, w');
    } else if s.Seal? || s.StoreCommit? || s.AnchorSwap? || s.Finish? {
      CommitStepLists(w, s, w');
    }
  }

  /** In every state of every honest run the fields of an open document list exactly the queued records. */
  lemma {:induction false} RunLists(ws: seq<World>, steps: seq<Step>, i: nat)
    requires Run(ws, steps) && Honest(steps) && i < |ws|
    ensures PhaseLists(ws[i].store, ws[i].phase)
    decreases i
  {
    if i > 0 {
      RunLists(ws, steps, i - 1);
      HonestRun(ws, steps, i - 1);
      StepLists(ws[i - 1], steps[i - 1], ws[i]);
    } else {
      StartLists(ws[0]);
    }
  }

  lemma StartLists(w: World)
    requires Initial(w)
    ensures PhaseLists(w.store, w.phase)
  {}

  // ---------------------------------------------------------------- what the journal itself asks

  /** Before it stages anything the journal asks for a revision to spare, for a checkpoint once 127 entries
      or 110 MiB are retained, for each queued record exactly once, for at most 16 distinct bound tokens at
      a checkpoint, and for a new token and room among 144 when it publishes. */
  lemma JournalAdmitsIff(j: Memory, checkpoint: bool, outbound: bool, d: Draw)
    requires forall f :: f in d.retained ==> f in j.outbox
    ensures var tokens := seq(|d.retained|, i requires 0 <= i < |d.retained| => j.outbox[d.retained[i]].token);
      var base := if checkpoint then map t | t in tokens && t in j.ledger :: j.ledger[t] else j.ledger;
      JournalAdmits(j, checkpoint, NewBinding(j, outbound, d), d) <==>
        && AnchorRevision(j.head) < 9007199254740991
        && (j.entryCount >= 127 || j.retainedBytes > 115343360 ==> checkpoint)
        && (forall f :: f in j.outbox ==> f in d.retained)
        && (forall i, k :: 0 <= i < k < |d.retained| ==> d.retained[i] != d.retained[k])
        && (checkpoint ==>
              && |tokens| <= 16 && (forall i :: 0 <= i < |tokens| ==> tokens[i] in j.ledger)
              && (forall i, k :: 0 <= i < k < |tokens| ==> tokens[i] != tokens[k]))
        && (outbound ==> d.bindingToken !in j.ledger && |base| < 144)
  {
    assert TokenList(Retained(j, d.retained)) == seq(|d.retained|, i requires 0 <= i < |d.retained| => j.outbox[d.retained[i]].token);
  }

  // ---------------------------------------------------------------- when an entry is staged

  /** A document at rest over an honest store. */
  ghost predicate Resting(w: World) { SafeInv(w) && HonestInv(w) && w.phase.Idle? && Lists(w.store, w.phase.live.journal.outbox) }

  /** The draw lists every queued record once. */
  ghost predicate DrawLists(s: Snapshot, retained: seq<Frame>) {
    && (forall f :: f in retained <==> InQueue(s, f))
    && forall i, j :: 0 <= i < j < |retained| ==> retained[i] != retained[j]
  }

  lemma FieldsAreQueue(w: World)
    requires Resting(w)
    ensures forall f :: f in w.phase.live.journal.outbox <==> InQueue(w.store, f)
  {}

  lemma DrawIsBounded(publications: seq<Publication>, retained: seq<Frame>)
    requires (forall f :: f in retained ==> exists p :: p in publications && p.id == f)
    requires forall i, j :: 0 <= i < j < |retained| ==> retained[i] != retained[j]
    ensures |retained| <= |publications|
  {
    IdsAre(publications);
    forall f | f in retained ensures f in Ids(publications) {
      var p :| p in publications && p.id == f;
      var i :| 0 <= i < |publications| && publications[i] == p;
      assert Ids(publications)[i] == f;
    }
    DistinctFits(retained, Ids(publications));
  }

  lemma ListsOnce(w: World, retained: seq<Frame>)
    requires Resting(w)
    ensures DrawLists(w.store, retained) <==> Enumerates(retained, w.phase.live.journal.outbox)
    ensures DrawLists(w.store, retained) ==> |retained| <= |w.store.publications|
  {
    FieldsAreQueue(w);
    EnumeratesIff(w.store, w.phase.live.journal.outbox, retained);
    if DrawLists(w.store, retained) { DrawIsBounded(w.store.publications, retained); }
  }

  lemma EnumeratesIff(s: Snapshot, outbox: map<Frame, Binding>, retained: seq<Frame>)
    requires forall f :: f in outbox <==> InQueue(s, f)
    ensures DrawLists(s, retained) <==> Enumerates(retained, outbox)
  {}

  lemma {:induction false} RetainedTokens(ledger: Ledger, tokens: seq<Token>)
    ensures |Retain(ledger, tokens)| <= |tokens|
  {
    if tokens == [] {
      assert Retain(ledger, tokens) == map[];
    } else {
      var front, last := tokens[..|tokens| - 1], tokens[|tokens| - 1];
      RetainedTokens(ledger, front);
      SplitLast(tokens);
      assert Retain(ledger, tokens).Keys <= Retain(ledger, front).Keys + {last};
      SubsetSize(Retain(ledger, tokens).Keys, Retain(ledger, front).Keys + {last});
    }
  }

  /** Distinct queued frames carry distinct tokens. */
  lemma CanRetainQueue(d: Device, j: Memory, retained: seq<Frame>)
    requires MemoryOk(d, j) && Enumerates(retained, j.outbox) && |retained| <= 16
    ensures CanRetain(j.ledger, TokenList(Retained(j, retained)), 16)
  {
    var tokens := TokenList(Retained(j, retained));
    forall i, k | 0 <= i < k < |tokens| ensures tokens[i] != tokens[k] {
      assert retained[i] in j.outbox && retained[k] in j.outbox;
    }
    forall i | 0 <= i < |tokens| ensures tokens[i] in j.ledger { assert retained[i] in j.outbox; }
  }

  lemma BaseIsSmall(w: World, checkpoint: bool, draw: Draw)
    requires Resting(w) && DrawLists(w.store, draw.retained) && (!checkpoint ==> |w.store.entries| < 127)
    requires forall f :: f in draw.retained ==> f in w.phase.live.journal.outbox
    ensures |BaseLedger(w.phase.live.journal, checkpoint, draw)| < MAX_LEDGER
  {
    var j := w.phase.live.journal;
    ListsOnce(w, draw.retained);
    LedgerIsSmall(w.store.entries);
    RetainedTokens(j.ledger, TokenList(Retained(j, draw.retained)));
  }

  /** A token that was never drawn is bound nowhere. */
  lemma FreshToken(d: Device, j: Memory, t: Token)
    requires DeviceOk(d) && MemoryOk(d, j) && t !in d.tokens
    ensures t !in j.ledger
  {}

  /** The journal's own checks come down to the revision and a fresh token. */
  lemma AdmitsWhen(w: World, checkpoint: bool, outbound: bool, draw: Draw)
    requires Resting(w) && DrawLists(w.store, draw.retained)
    requires if checkpoint then true else !NeedsCheckpoint(w.phase.live.journal)
    requires outbound ==> draw.bindingToken !in w.device.tokens
    requires forall f :: f in draw.retained ==> f in w.phase.live.journal.outbox
    ensures JournalAdmits(w.phase.live.journal, checkpoint, NewBinding(w.phase.live.journal, outbound, draw), draw)
            <==> w.store.revision < 9007199254740991
  {
    var j := w.phase.live.journal;
    ListsOnce(w, draw.retained);
    CanRetainQueue(w.device, j, draw.retained);
    BaseIsSmall(w, checkpoint, draw);
    if outbound { FreshToken(w.device, j, draw.bindingToken); }
    RevisionIsHead(w);
  }

  lemma RevisionIsHead(w: World)
    requires Resting(w)
    ensures w.store.revision == AnchorRevision(w.phase.live.journal.head) && w.anchor == w.phase.live.journal.head
    ensures w.store.pending.None? && w.phase.live.journal.entryCount == |w.store.entries|
    ensures w.phase.live.journal.retainedBytes == TotalLength(w.store.entries)
  {}

  /** What staging an entry needs of the store and of the values drawn for it. */
  predicate StageRoom(w: World, checkpoint: bool, outbound: Option<Frame>, draw: Draw) {
    && w.store.revision < 9007199254740991
    && 74 <= draw.length <= 84934729
    && (!checkpoint ==> TotalLength(w.store.entries) + draw.length + 32 <= 134217728)
    && (outbound.Some? ==>
          && draw.bindingToken !in w.device.tokens
          && |w.store.publications| < 16 && PublicationBytes(w.store.publications) + outbound.value.length + 72 <= 16777216)
  }

  /** What an item may carry besides its bindings. */
  predicate ReceiptsCodec(item: Item, checkpoint: bool) {
    && |item.receipts| <= 256 && (!checkpoint ==> |item.receipts| == 1)
    && forall m :: m in item.receipts ==> 1 <= item.receipts[m].sequence
  }

  lemma CodecWhen(w: World, checkpoint: bool, item: Item, outbound: bool, draw: Draw)
    requires Resting(w) && DrawLists(w.store, draw.retained) && ReceiptsCodec(item, checkpoint)
    requires forall f :: f in draw.retained ==> f in w.phase.live.journal.outbox
    requires item.bindings == BindingList(w.phase.live.journal, checkpoint, NewBinding(w.phase.live.journal, outbound, draw), draw)
    requires outbound ==> |w.store.publications| < 16
    ensures ItemCodec(item, checkpoint)
  {
    ListsOnce(w, draw.retained);
  }

  /** The reservation fits exactly when the queue has room for a frame it does not hold yet. */
  lemma StoreTakes(w: World, checkpoint: bool, payload: Payload, outbound: Option<Frame>, draw: Draw)
    requires Resting(w) && (if checkpoint then true else !NeedsCheckpoint(w.phase.live.journal))
    requires payload.length == draw.length && (outbound.Some? ==> 1 <= outbound.value.length <= 1048576 && !InQueue(w.store, outbound.value))
    requires outbound.Some? ==> draw.bindingToken !in w.device.tokens
    ensures 74 <= draw.length <= 84934729
            && JournalStoreSpec.Staged(w.store, w.store.revision, draw.token, payload, ReservationFor(outbound), checkpoint).Ok?
            <==> StageRoom(w, checkpoint, outbound, draw)
  {
    RevisionIsHead(w);
    StagedIff(w.store, w.store.revision, draw.token, payload, ReservationFor(outbound), checkpoint);
  }

  function ReservationFor(outbound: Option<Frame>): Option<Reservation> {
    if outbound.Some? then Some(Reservation(outbound.value, outbound.value.length + PUBLICATION_OVERHEAD)) else None
  }

  lemma StageEntryNeeds(w: World, live: Live, checkpoint: bool, item: Item, outbound: bool,
                        content: Option<Content>, result: Option<Frame>, after: DocState, draw: Draw)
    requires outbound ==> result.Some?
    requires forall f :: f in draw.retained ==> f in live.journal.outbox
    ensures StageEntry(w, live, checkpoint, item, NewBinding(live.journal, outbound, draw), content, result, after, draw).Some?
            <==>
            && JournalAdmits(live.journal, checkpoint, NewBinding(live.journal, outbound, draw), draw)
            && ItemCodec(item, checkpoint) && w.anchor == live.journal.head && 74 <= draw.length <= 84934729
            && (outbound ==> draw.bindingToken !in w.device.tokens)
            && JournalStoreSpec.Staged(w.store, AnchorRevision(live.journal.head), draw.token,
                                       PayloadFor(live.journal, checkpoint, item, draw),
                                       ReservationFor(if outbound then result else None), checkpoint).Ok?
  {}

  /** Staging an entry succeeds exactly when the draw lists the queue and there is room. */
  lemma StageEntryIff(w: World, live: Live, checkpoint: bool, item: Item, outbound: bool,
                      content: Option<Content>, result: Option<Frame>, after: DocState, draw: Draw)
    requires Resting(w) && live.journal == w.phase.live.journal && (if checkpoint then true else !NeedsCheckpoint(live.journal))
    requires ReceiptsCodec(item, checkpoint) && forall f :: f in draw.retained ==> f in live.journal.outbox
    requires item.bindings == BindingList(live.journal, checkpoint, NewBinding(live.journal, outbound, draw), draw)
    requires outbound ==> result.Some? && 1 <= result.value.length <= 1048576 && !InQueue(w.store, result.value)
    ensures StageEntry(w, live, checkpoint, item, NewBinding(live.journal, outbound, draw), content, result, after, draw).Some?
            <==> DrawLists(w.store, draw.retained) && StageRoom(w, checkpoint, if outbound then result else None, draw)
  {
    StageEntryNeeds(w, live, checkpoint, item, outbound, content, result, after, draw);
    RevisionIsHead(w);
    ListsOnce(w, draw.retained);
    if DrawLists(w.store, draw.retained) && (outbound ==> draw.bindingToken !in w.device.tokens) {
      RoomDecides(w, live, checkpoint, item, outbound, result, draw);
    }
  }

  lemma RoomDecides(w: World, live: Live, checkpoint: bool, item: Item, outbound: bool, result: Option<Frame>, draw: Draw)
    requires Resting(w) && live.journal == w.phase.live.journal && (if checkpoint then true else !NeedsCheckpoint(live.journal))
    requires ReceiptsCodec(item, checkpoint) && forall f :: f in draw.retained ==> f in live.journal.outbox
    requires item.bindings == BindingList(live.journal, checkpoint, NewBinding(live.journal, outbound, draw), draw)
    requires outbound ==> result.Some? && 1 <= result.value.length <= 1048576 && !InQueue(w.store, result.value)
    requires DrawLists(w.store, draw.retained) && (outbound ==> draw.bindingToken !in w.device.tokens)
    ensures var out := if outbound then result else None;
      && (StageRoom(w, checkpoint, out, draw) ==>
            && JournalAdmits(live.journal, checkpoint, NewBinding(live.journal, outbound, draw), draw)
            && ItemCodec(item, checkpoint))
      && (StageRoom(w, checkpoint, out, draw) <==>
            74 <= draw.length <= 84934729
            && JournalStoreSpec.Staged(w.store, w.store.revision, draw.token, PayloadFor(live.journal, checkpoint, item, draw),
                                       ReservationFor(out), checkpoint).Ok?)
  {
    var out := if outbound then result else None;
    AdmitsWhen(w, checkpoint, outbound, draw);
    StoreTakes(w, checkpoint, PayloadFor(live.journal, checkpoint, item, draw), out, draw);
    if StageRoom(w, checkpoint, out, draw) { CodecWhen(w, checkpoint, item, outbound, draw); }
  }

  // ---------------------------------------------------------------- when a frame is staged

  /** The retained entries must be replaced by a checkpoint before another delta. */
  predicate Compacts(w: World) { |w.store.entries| >= 127 || TotalLength(w.store.entries) > 115343360 }

  /** Below that mark there is always room for another delta of nearly 18 MiB. */
  lemma DeltasHaveRoom(w: World, outbound: Option<Frame>, draw: Draw)
    requires !Compacts(w) && 74 <= draw.length <= 18874336 && w.store.revision < 9007199254740991
    ensures StageRoom(w, false, None, draw)
    ensures StageRoom(w, false, outbound, draw) <==> StageRoom(w, true, outbound, draw)
  {}

  /** A queued frame is recorded on the accepted chain. */
  lemma QueuedIsRecorded(w: World, f: Frame)
    requires Resting(w) && InQueue(w.store, f)
    ensures InChain(w.device.minted, AnchorCommitment(w.anchor), f.content) && f.content.member == w.device.local
  {
    var p :| p in w.store.publications && p.id == f;
    RevisionIsHead(w);
    var j := w.phase.live.journal;
    ContentAtInChain(w.device.minted, AnchorCommitment(w.anchor), j.ledger[p.token], f.content);
  }

  /** The author's next frame is not recorded yet, so it is not queued either. */
  lemma NextIsNotQueued(w: World, f: Frame)
    requires Resting(w) && WriterUnder(w.phase.live.authority, f.content) && FrameFollows(w.phase.live.doc, f.content)
    ensures !InQueue(w.store, f)
  {
    if InQueue(w.store, f) {
      QueuedIsRecorded(w, f);
      RevisionIsHead(w);
      ReceiptIsNewest(w.device, AnchorCommitment(w.anchor), w.phase.live.authority, f.content, f.content);
    }
  }

  lemma ItemFits(d: Device, c: Commitment, authority: AuthorityHead, st: DocState, x: Content, checkpoint: bool, bindings: seq<Binding>)
    requires DeviceOk(d) && Known(d.minted, c) && AuthorityOk(authority, c) && st == StateAt(d.initial, c)
    requires WriterUnder(authority, x) && FrameFollows(st, x)
    ensures ReceiptsCodec(FrameItem(st, x, checkpoint, bindings), checkpoint)
  {
    KnownState(d.initial, d.minted, d.publications, c);
    var item := FrameItem(st, x, checkpoint, bindings);
    assert Transition(d.initial, c, checkpoint, item, Some(x));
    TransitionState(d.initial, c, checkpoint, item, Some(x));
    FrameItemReplays(st, x, checkpoint, bindings);
    ReceiptsFit(AfterFrame(st, x).receipts, authority.record.roster);
    ItemReceipts(st, x, checkpoint, bindings);
  }

  lemma ItemReceipts(st: DocState, x: Content, checkpoint: bool, bindings: seq<Binding>)
    requires ReceiptsChained(AfterFrame(st, x)) && |AfterFrame(st, x).receipts| <= 256 && FrameFollows(st, x)
    ensures ReceiptsCodec(FrameItem(st, x, checkpoint, bindings), checkpoint)
  {
    var item := FrameItem(st, x, checkpoint, bindings);
    if checkpoint {
      assert item.receipts == AfterFrame(st, x).receipts;
    } else {
      assert item.receipts == map[x.member := ReceiptFor(x)];
      assert |item.receipts| == 1;
    }
  }

  /** The receipts an admitted frame's item carries are those of roster members. */
  lemma FrameReceipts(w: World, x: Content, checkpoint: bool, bindings: seq<Binding>)
    requires Resting(w) && WriterUnder(w.phase.live.authority, x) && FrameFollows(w.phase.live.doc, x)
    ensures ReceiptsCodec(FrameItem(w.phase.live.doc, x, checkpoint, bindings), checkpoint)
  {
    RestingStands(w);
    ItemFits(w.device, AnchorCommitment(w.anchor), w.phase.live.authority, w.phase.live.doc, x, checkpoint, bindings);
  }

  lemma RestingStands(w: World)
    requires Resting(w)
    ensures DeviceOk(w.device) && Known(w.device.minted, AnchorCommitment(w.anchor))
    ensures AuthorityOk(w.phase.live.authority, AnchorCommitment(w.anchor))
    ensures w.phase.live.doc == StateAt(w.device.initial, AnchorCommitment(w.anchor))
  {}

  lemma NeedsIsCompacts(w: World)
    requires Resting(w)
    ensures NeedsCheckpoint(w.phase.live.journal) <==> Compacts(w)
  {
    RevisionIsHead(w);
  }

  lemma FrameStagesIff(w: World, x: Content, result: Option<Frame>, persist: bool, draw: Draw)
    requires Resting(w) && WriterUnder(w.phase.live.authority, x) && FrameFollows(w.phase.live.doc, x)
    requires persist ==> result.Some? && result.value.content == x && 1 <= result.value.length <= 1048576
    ensures StageFrame(w, w.phase.live, x, result, persist, draw).Some?
            <==> DrawLists(w.store, draw.retained) && StageRoom(w, Compacts(w), if persist then result else None, draw)
  {
    var live := w.phase.live;
    var j := live.journal;
    ListsOnce(w, draw.retained);
    NeedsIsCompacts(w);
    if forall f :: f in draw.retained ==> f in j.outbox {
      var checkpoint := NeedsCheckpoint(j);
      var bindings := BindingList(j, checkpoint, NewBinding(j, persist, draw), draw);
      FrameReceipts(w, x, checkpoint, bindings);
      if persist { NextIsNotQueued(w, result.value); }
      StageEntryIff(w, live, checkpoint, FrameItem(live.doc, x, checkpoint, bindings), persist, Some(x), result,
                    AfterFrame(live.doc, x), draw);
    }
  }

  /** In every quiet state of every honest run a received frame is staged exactly when it is by a writer
      under the current head, is the next of its chain, and there is room. */
  lemma ReceivedFrameStagesIff(ws: seq<World>, steps: seq<Step>, i: nat, x: Content, draw: Draw)
    requires Run(ws, steps) && Honest(steps) && i < |ws| && ws[i].phase.Idle?
    ensures var w := ws[i];
      var r := Do(w, Receive(x, draw));
      && (r.Some? && r.value.phase.Staged? <==>
            && WriterUnder(w.phase.live.authority, x) && NextInOrder(w.device.minted, AnchorCommitment(w.anchor), x)
            && DrawLists(w.store, draw.retained) && StageRoom(w, Compacts(w), None, draw))
      && (r.Some? && r.value.phase.Staged? ==> r.value.phase.op.content == Some(x) && r.value.phase.op.binding.None?)
  {
    HonestRun(ws, steps, i);
    RunLists(ws, steps, i);
    EveryFrameIsClassified(ws, steps, i, x, draw);
    var w := ws[i];
    RevisionIsHead(w);
    if WriterUnder(w.phase.live.authority, x) && NextInOrder(w.device.minted, AnchorCommitment(w.anchor), x) {
      ChainDecidesAdmission(w.device, AnchorCommitment(w.anchor), w.phase.live.authority, x);
      FrameStagesIff(w, x, None, false, draw);
    }
  }

  /** The local member may write now. */
  predicate LocalWriter(w: World)
    requires w.phase.Idle?
  {
    var authority := w.phase.live.authority;
    && authority.AuthorityDigest? && w.device.local in authority.record.roster
    && (authority.record.roster[w.device.local] == 2 || authority.record.roster[w.device.local] == 3)
  }

  lemma NextFollows(w: World, changes: set<Change>)
    requires Resting(w) && LocalWriter(w)
    ensures var x := NextContent(w.device.local, w.phase.live, changes);
      && WriterUnder(w.phase.live.authority, x) && FrameFollows(w.phase.live.doc, x)
      && x.member == w.device.local && x.changes == changes
      && NextInOrder(w.device.minted, AnchorCommitment(w.anchor), x)
  {
    RevisionIsHead(w);
    ChainDecidesAdmission(w.device, AnchorCommitment(w.anchor), w.phase.live.authority,
                          NextContent(w.device.local, w.phase.live, changes));
  }

  /** What a staged local change carries. */
  ghost predicate CarriesChange(w: World, op: Op, changes: set<Change>, persist: bool, nonce: nat, length: nat, draw: Draw)
    requires w.phase.Idle?
  {
    && op.result.Some? && op.content == Some(op.result.value.content)
    && op.result.value.nonce == nonce && op.result.value.length == length
    && op.result.value.content.member == w.device.local && op.result.value.content.changes == changes
    && WriterUnder(w.phase.live.authority, op.result.value.content)
    && NextInOrder(w.device.minted, AnchorCommitment(w.anchor), op.result.value.content)
    && (if persist then op.binding.Some? && op.binding.value.token == draw.bindingToken else op.binding.None?)
    && op.after.document == w.phase.live.doc.document + changes && op.authority == w.phase.live.authority
  }

  lemma StagedCarries(w: World, changes: set<Change>, persist: bool, nonce: nat, length: nat, draw: Draw, w': World)
    requires Resting(w) && DoChange(w, changes, persist, nonce, length, draw) == Some(w')
    ensures w'.phase.Staged? && w'.phase.live == w.phase.live && CarriesChange(w, w'.phase.op, changes, persist, nonce, length, draw)
    ensures w'.store.publications == w.store.publications && w'.store.entries == w.store.entries
    ensures persist ==> draw.bindingToken !in w.device.tokens
  {
    var live, x := w.phase.live, NextContent(w.device.local, w.phase.live, changes);
    var j := live.journal;
    var checkpoint, binding := NeedsCheckpoint(j), NewBinding(j, persist, draw);
    AuthorizedIsWriter(live.authority, x);
    NextFollows(w, changes);
    StagedShape(w, live, checkpoint, FrameItem(live.doc, x, checkpoint, BindingList(j, checkpoint, binding, draw)), binding,
                Some(x), Some(Frame(x, nonce, length)), AfterFrame(live.doc, x), draw, w');
  }

  /** A local change is staged exactly when the member may write, has sequence numbers left, and there is
      room for the entry and, if it is to be published, for its record in the queue. It then carries
      exactly the given changes. */
  lemma ChangeStagesIff(w: World, changes: set<Change>, persist: bool, nonce: nat, length: nat, draw: Draw)
    requires Resting(w)
    ensures var r := DoChange(w, changes, persist, nonce, length, draw);
      && (r.Some? <==>
            && LocalWriter(w) && 1 <= length <= 1048576
            && NextContent(w.device.local, w.phase.live, changes).sequence <= 9007199254740991
            && DrawLists(w.store, draw.retained)
            && StageRoom(w, Compacts(w), if persist then Some(Frame(NextContent(w.device.local, w.phase.live, changes), nonce, length)) else None, draw))
      && (r.Some? ==> r.value.phase.Staged? && CarriesChange(w, r.value.phase.op, changes, persist, nonce, length, draw))
  {
    var x := NextContent(w.device.local, w.phase.live, changes);
    AuthorizedIsWriter(w.phase.live.authority, x);
    if LocalWriter(w) && 1 <= length <= 1048576 {
      NextFollows(w, changes);
      FrameStagesIff(w, x, Some(Frame(x, nonce, length)), persist, draw);
    }
    if DoChange(w, changes, persist, nonce, length, draw).Some? {
      StagedCarries(w, changes, persist, nonce, length, draw, DoChange(w, changes, persist, nonce, length, draw).value);
    }
  }

  /** A role transition is staged exactly when the record may follow and there is room for a checkpoint;
      it keeps the document and starts the new context without receipts. */
  lemma RoleTransitionStagesIff(w: World, record: AuthorityRecord, draw: Draw)
    requires Resting(w)
    ensures var r := DoRoleTransition(w, record, draw);
      && (r.Some? <==>
            Advances(w.phase.live.authority, record) && DrawLists(w.store, draw.retained) && StageRoom(w, true, None, draw))
      && (r.Some? ==>
            && r.value.phase.Staged? && r.value.phase.live.authority == AuthorityDigest(record)
            && r.value.phase.op.content == None && r.value.phase.op.result == None && r.value.phase.op.binding == None
            && r.value.phase.op.authority == AuthorityDigest(record)
            && r.value.phase.op.after == DocState(Some(record.context), map[], w.phase.live.doc.document))
  {
    var live := w.phase.live.(authority := AuthorityDigest(record));
    ListsOnce(w, draw.retained);
    if Advances(w.phase.live.authority, record) && forall f :: f in draw.retained ==> f in live.journal.outbox {
      var item := RoleItem(live.doc, live.authority, record.context, BindingList(live.journal, true, None, draw));
      StageEntryIff(w, live, true, item, false, None, None, AfterRole(live.doc, record.context), draw);
    }
  }
}
