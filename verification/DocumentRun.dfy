/** One device running one coordinated document over its journal, as a step system. Every awaited
    durable effect is its own step and a crash is possible between any two of them. The journal
    store may be replaced at any time by anything the device key did not have to sign. */
module DocumentRun {
  import opened Common
  import opened DocumentTypes
  import opened AuthorityHistory
  import opened ReplayJournal
  import opened JournalStoreSpec
  import opened DocumentState

  /** The journal's in-memory fields. */
  datatype Memory = Memory(
    head: Option<Anchor>, entryCount: nat, retainedBytes: nat, ledger: Ledger, outbox: map<Frame, Binding>)

  datatype Live = Live(journal: Memory, doc: DocState, authority: AuthorityHead)

  /** A prepared operation: the staged payload and what its commit will do. */
  datatype Op = Op(
    token: Token, payload: Payload, checkpoint: bool, content: Option<Content>, result: Option<Frame>,
    binding: Option<Binding>, candidate: Ledger, after: DocState, authority: AuthorityHead)

  datatype Phase =
    | Down
    | Restoring(restored: Restored, expected: Option<Anchor>, swapped: bool, discarded: bool)
    | Idle(live: Live)
    | Staged(live: Live, op: Op)
    | Applied(live: Live, op: Op)
    | Sealing(live: Live, op: Op, entry: Entry)
    | Anchored(live: Live, op: Op, entry: Entry)
    | Sending(live: Live, frame: Frame)

  /** What never gets lost: who the device is and everything its key ever produced. `minted` holds
      every accepted entry it sealed, with the frame that entry records; `publications` every outbox
      record it sealed, by token; `tokens` every publication token it drew. */
  datatype Device = Device(
    local: Member, initial: set<Change>,
    minted: map<Entry, Option<Content>>, publications: map<Token, Publication>, tokens: set<Token>)

  datatype World = World(
    device: Device, store: Snapshot, anchor: Option<Anchor>, phase: Phase,
    released: set<Frame>, sent: set<Frame>)

  // ---------------------------------------------------------------- preparing an entry

  predicate NeedsCheckpoint(j: Memory) {
    j.entryCount >= MAX_JOURNAL_ENTRIES - 1 || j.retainedBytes > MAX_JOURNAL_BYTES - 18 * 1024 * 1024
  }

  /** Random values and sizes a preparation draws; `retained` lists the queued publications. */
  datatype Draw = Draw(token: Token, bindingToken: Token, nonce: nat, length: nat, retained: seq<Frame>)

  predicate Enumerates(retained: seq<Frame>, outbox: map<Frame, Binding>) {
    && (forall f :: f in outbox ==> f in retained)
    && (forall f :: f in retained ==> f in outbox)
    && (forall i, j :: 0 <= i < j < |retained| ==> retained[i] != retained[j])
  }

  function Retained(j: Memory, retained: seq<Frame>): seq<Binding>
    requires forall f :: f in retained ==> f in j.outbox
  {
    seq(|retained|, i requires 0 <= i < |retained| => j.outbox[retained[i]])
  }

  function TokenList(bindings: seq<Binding>): seq<Token> {
    seq(|bindings|, i requires 0 <= i < |bindings| => bindings[i].token)
  }

  function NextRevision(j: Memory): nat { AnchorRevision(j.head) + 1 }

  function NewBinding(j: Memory, outbound: bool, d: Draw): Option<Binding> {
    if outbound then Some(Binding(d.bindingToken, NextRevision(j))) else None
  }

  /** The bindings an entry carries: its own, and at a checkpoint every queued one. */
  function BindingList(j: Memory, checkpoint: bool, binding: Option<Binding>, d: Draw): seq<Binding>
    requires forall f :: f in d.retained ==> f in j.outbox
  {
    (if checkpoint then Retained(j, d.retained) else [])
    + (if binding.Some? then [binding.value] else [])
  }

  function BaseLedger(j: Memory, checkpoint: bool, d: Draw): Ledger
    requires forall f :: f in d.retained ==> f in j.outbox
  {
    if checkpoint then Retain(j.ledger, TokenList(Retained(j, d.retained))) else j.ledger
  }

  function Candidate(j: Memory, checkpoint: bool, binding: Option<Binding>, d: Draw): Ledger
    requires forall f :: f in d.retained ==> f in j.outbox
  {
    var base := BaseLedger(j, checkpoint, d);
    if binding.Some? then base[binding.value.token := binding.value.revision] else base
  }

  /** The journal's own checks before it stages anything. */
  predicate JournalAdmits(j: Memory, checkpoint: bool, binding: Option<Binding>, d: Draw) {
    && AnchorRevision(j.head) < MAX_SAFE_INTEGER
    && (NeedsCheckpoint(j) ==> checkpoint)
    && Enumerates(d.retained, j.outbox)
    && (checkpoint ==> CanRetain(j.ledger, TokenList(Retained(j, d.retained)), 16))
    && (binding.Some? ==>
          && binding.value.token !in j.ledger
          && CanRecord(BaseLedger(j, checkpoint, d), binding.value.token, NextRevision(j), NextRevision(j),
                       false, MAX_LEDGER))
  }

  function PayloadFor(j: Memory, checkpoint: bool, item: Item, d: Draw): Payload {
    var revision, parent := NextRevision(j), AnchorCommitment(j.head);
    Payload(revision, if checkpoint then 1 else 0, parent,
            Sealed(revision, checkpoint, parent, item, d.nonce), d.length)
  }

  /** Stage an entry: the anchor must still be ours, then one store transaction. */
  function StageEntry(w: World, live: Live, checkpoint: bool, item: Item, binding: Option<Binding>,
                      content: Option<Content>, result: Option<Frame>, after: DocState, d: Draw): Option<World>
  {
    var j := live.journal;
    if !JournalAdmits(j, checkpoint, binding, d) || !ItemCodec(item, checkpoint)
       || w.anchor != j.head || !(74 <= d.length <= MAX_ENTRY + 73)
       || (binding.Some? && (result.None? || d.bindingToken in w.device.tokens)) then None
    else
      var payload := PayloadFor(j, checkpoint, item, d);
      var reservation := if binding.Some? then Some(Reservation(result.value, result.value.length + PUBLICATION_OVERHEAD)) else None;
      var s := JournalStoreSpec.Staged(w.store, AnchorRevision(j.head), d.token, payload, reservation, checkpoint);
      if s.Err? then None
      else
        var op := Op(d.token, payload, checkpoint, content, result, binding,
                     Candidate(j, checkpoint, binding, d), after, item.authorityHead);
        Some(w.(store := s.value, phase := Phase.Staged(live, op),
                device := if binding.Some? then w.device.(tokens := w.device.tokens + {d.bindingToken}) else w.device))
  }

  // ---------------------------------------------------------------- steps

  datatype Step =
    | Tamper(store: Snapshot)
    | Crash
    | Open
    | RestoreSwap
    | RestoreDiscard
    | RestoreFinish(authority: AuthorityHead)
    | AuthorityUpdate(record: AuthorityRecord)
    | Change(changes: set<Change>, persist: bool, frameNonce: nat, frameLength: nat, draw: Draw)
    | Receive(content: Content, draw: Draw)
    | RoleTransition(record: AuthorityRecord, draw: Draw)
    | GateCommit
    | GateAbort
    | Seal(nonce: nat)
    | StoreCommit
    | AnchorSwap
    | Finish
    | ReadOutbox
    | StoreSent(frame: Frame)
    | SentFinish

  /** Bytes that verify under the device key are bytes the device produced. */
  predicate Unforged(d: Device, s: Snapshot) {
    && (forall e :: e in s.entries && MarkerVerifies(e) ==> e in d.minted)
    && (forall p :: p in s.publications && PublicationOpens(p) ==>
          p.token in d.publications && d.publications[p.token] == p)
  }

  /** A frame's writer must be in the roster of the current authority record. */
  predicate Authorized(authority: AuthorityHead, x: Content) {
    && authority.AuthorityDigest?
    && x.authorityHead == authority
    && x.context == authority.record.context
    && MayWrite(authority.record.roster, x.member)
  }

  /** The frame the local member would author next. */
  function NextContent(local: Member, live: Live, changes: set<Change>): Content
    requires live.authority.AuthorityDigest?
  {
    var context := live.authority.record.context;
    var receipts := ReceiptsIn(live.doc, context);
    Content(live.authority, context, local, AcceptedSequence(receipts, local) + 1,
            AcceptedHash(receipts, local), changes)
  }

  predicate HasLive(p: Phase) { !p.Down? && !p.Restoring? }

  function DoTamper(w: World, store: Snapshot): Option<World> {
    if Unforged(w.device, store) then Some(w.(store := store)) else None
  }

  function DoOpen(w: World): Option<World> {
    var r := Restore(w.store, w.anchor);
    if w.phase.Down? && r.Ok? then Some(w.(phase := Restoring(r.value, w.anchor, false, false))) else None
  }

  /** Finish the one anchor move a crash interrupted: compare with the anchor that was read, then swap. */
  function DoRestoreSwap(w: World): Option<World> {
    if w.phase.Restoring? && w.phase.restored.finish && !w.phase.swapped && w.anchor == w.phase.expected
    then Some(w.(anchor := w.phase.restored.stored, phase := w.phase.(swapped := true))) else None
  }

  function DoRestoreDiscard(w: World): Option<World> {
    if w.phase.Restoring? && (w.phase.restored.finish ==> w.phase.swapped) && w.phase.restored.discard.Some?
    then Some(w.(store := Discarded(w.store, w.phase.restored.discard.value), phase := w.phase.(discarded := true)))
    else None
  }

  /** The end of `restore` and the whole of `recover`. */
  ghost function DoRestoreFinish(w: World, authority: AuthorityHead): Option<World> {
    if !w.phase.Restoring? then None
    else
      var r := w.phase.restored;
      if (r.finish && !w.phase.swapped) || (r.discard.Some? && !w.phase.discarded) then None
      else
        var q := ReadPublications(w.store.publications, r.ledger, AnchorRevision(r.stored));
        var doc := Recover(w.device.initial, r.items);
        if q.Err? || doc.None? || !authority.AuthorityDigest? || !ValidHistory(authority)
           || !(forall i :: 0 <= i < |r.items| ==> Extends(authority, r.items[i].item.authorityHead)) then None
        else Some(w.(phase := Idle(Live(
               Memory(r.stored, |r.items|, r.bytes, r.ledger, q.value.bindings), doc.value, authority))))
  }

  ghost predicate Advances(authority: AuthorityHead, record: AuthorityRecord) {
    authority.AuthorityDigest? && ValidHistory(authority) && MayFollow(authority, record) && RosterValid(record.roster)
  }

  /** The authority log can move on while an operation is in flight. */
  ghost function DoAuthorityUpdate(w: World, record: AuthorityRecord): Option<World> {
    if HasLive(w.phase) && Advances(w.phase.live.authority, record)
    then Some(w.(phase := w.phase.(live := w.phase.live.(authority := AuthorityDigest(record))))) else None
  }

  function DoChange(w: World, changes: set<Change>, persist: bool, nonce: nat, length: nat, draw: Draw): Option<World> {
    if !w.phase.Idle? || !w.phase.live.authority.AuthorityDigest? then None
    else
      var live := w.phase.live;
      var x := NextContent(w.device.local, live, changes);
      if !Authorized(live.authority, x) || x.sequence > MAX_SAFE_INTEGER || !(1 <= length <= 1024 * 1024) then None
      else StageFrame(w, live, x, Some(Frame(x, nonce, length)), persist, draw)
  }

  /** A remote frame is applied, ignored as a replay, or refused. */
  function DoReceive(w: World, x: Content, draw: Draw): Option<World> {
    if !w.phase.Idle? || !Authorized(w.phase.live.authority, x) then None
    else
      match AdmitContent(w.phase.live.doc, x)
      case Apply => StageFrame(w, w.phase.live, x, None, false, draw)
      case Replay => if Equivocates(w.phase.live.doc, x) then None else Some(w)
      case _ => None
  }

  ghost function DoRoleTransition(w: World, record: AuthorityRecord, draw: Draw): Option<World> {
    if !w.phase.Idle? || !Advances(w.phase.live.authority, record) then None
    else
      var live := w.phase.live.(authority := AuthorityDigest(record));
      if !(forall f :: f in draw.retained ==> f in live.journal.outbox) then None
      else
        var item := RoleItem(live.doc, live.authority, record.context, BindingList(live.journal, true, None, draw));
        StageEntry(w, live, true, item, None, None, None, AfterRole(live.doc, record.context), draw)
  }

  /** The admission gate rechecks the authority lease in the step that applies the change. */
  function DoGateCommit(w: World): Option<World> {
    if w.phase.Staged? && w.phase.live.authority == w.phase.op.authority
    then Some(w.(phase := Applied(w.phase.live.(doc := w.phase.op.after), w.phase.op))) else None
  }

  /** An operation that is not admitted is discarded; a failed role transition stops the document. */
  function DoGateAbort(w: World): Option<World> {
    if w.phase.Staged?
    then Some(w.(store := Discarded(w.store, w.phase.op.token),
                 phase := if w.phase.op.content.Some? then Idle(w.phase.live) else Down)) else None
  }

  function SealedPublication(op: Op): Publication
    requires op.binding.Some? && op.result.Some?
  {
    var f, r, t := op.result.value, op.payload.revision, op.binding.value.token;
    Publication(f, r, t, PublicationSealed(r, f, t, f), f.length + PUBLICATION_OVERHEAD)
  }

  function AcceptedEntry(op: Op, nonce: nat): Entry {
    Entry(op.payload, Acceptance(op.payload.revision, op.payload, nonce))
  }

  /** Sealing the acceptance marker and the outbox record; the nonce makes the entry a new one. */
  function DoSeal(w: World, nonce: nat): Option<World> {
    if !w.phase.Applied? || AcceptedEntry(w.phase.op, nonce) in w.device.minted then None
    else
      var op, e := w.phase.op, AcceptedEntry(w.phase.op, nonce);
      var d := w.device;
      Some(w.(device := d.(
                minted := d.minted[e := op.content],
                publications := if op.binding.Some? && op.result.Some?
                                then d.publications[op.binding.value.token := SealedPublication(op)]
                                else d.publications),
              phase := Sealing(w.phase.live, op, e)))
  }

  function OpPublication(op: Op): Option<Publication> {
    if op.binding.Some? && op.result.Some? then Some(SealedPublication(op)) else None
  }

  function DoStoreCommit(w: World): Option<World> {
    if !w.phase.Sealing? then None
    else
      var s := Committed(w.store, AnchorRevision(w.phase.live.journal.head), w.phase.op.token,
                         w.phase.op.checkpoint, w.phase.entry, OpPublication(w.phase.op));
      if s.Err? then None else Some(w.(store := s.value))
  }

  /** The accepted marker is read back before the anchor moves. */
  function DoAnchorSwap(w: World): Option<World> {
    if w.phase.Sealing? && w.store.revision == w.phase.op.payload.revision
       && w.store.entries != [] && w.store.entries[|w.store.entries| - 1] == w.phase.entry
       && w.anchor == w.phase.live.journal.head
    then Some(w.(anchor := Some(Anchor(w.phase.op.payload.revision, Digest(w.phase.entry))),
                 phase := Anchored(w.phase.live, w.phase.op, w.phase.entry))) else None
  }

  /** The journal's fields after an entry became durable. */
  function AfterCommit(j: Memory, op: Op, e: Entry): Memory {
    Memory(Some(Anchor(op.payload.revision, Digest(e))),
           if op.checkpoint then 1 else j.entryCount + 1,
           if op.checkpoint then EntryLength(e) else j.retainedBytes + EntryLength(e),
           op.candidate,
           if op.binding.Some? && op.result.Some? then j.outbox[op.result.value := op.binding.value] else j.outbox)
  }

  /** Only now does `change` return its frame. */
  function DoFinish(w: World): Option<World> {
    if !w.phase.Anchored? then None
    else
      var live, op := w.phase.live, w.phase.op;
      Some(w.(phase := Idle(live.(journal := AfterCommit(live.journal, op, w.phase.entry))),
              released := if op.result.Some? then w.released + {op.result.value} else w.released))
  }

  function DoReadOutbox(w: World): Option<World> {
    if !w.phase.Idle? then None
    else
      var j := w.phase.live.journal;
      var q := ReadPublications(w.store.publications, j.ledger, AnchorRevision(j.head));
      if q.Err? || w.anchor != j.head then None
      else Some(w.(phase := Idle(w.phase.live.(journal := j.(outbox := q.value.bindings))),
                   released := w.released + (set f | f in q.value.frames)))
  }

  function DoStoreSent(w: World, frame: Frame): Option<World> {
    if w.phase.Idle?
    then Some(w.(store := Sent(w.store, frame), sent := w.sent + {frame}, phase := Sending(w.phase.live, frame)))
    else None
  }

  function DoSentFinish(w: World): Option<World> {
    if w.phase.Sending? then
      var live := w.phase.live;
      Some(w.(phase := Idle(live.(journal := live.journal.(outbox := live.journal.outbox - {w.phase.frame})))))
    else None
  }

  ghost function Do(w: World, s: Step): Option<World> {
    match s
    case Tamper(store) => DoTamper(w, store)
    case Crash => Some(w.(phase := Down))
    case Open => DoOpen(w)
    case RestoreSwap => DoRestoreSwap(w)
    case RestoreDiscard => DoRestoreDiscard(w)
    case RestoreFinish(authority) => DoRestoreFinish(w, authority)
    case AuthorityUpdate(record) => DoAuthorityUpdate(w, record)
    case Change(changes, persist, nonce, length, draw) => DoChange(w, changes, persist, nonce, length, draw)
    case Receive(x, draw) => DoReceive(w, x, draw)
    case RoleTransition(record, draw) => DoRoleTransition(w, record, draw)
    case GateCommit => DoGateCommit(w)
    case GateAbort => DoGateAbort(w)
    case Seal(nonce) => DoSeal(w, nonce)
    case StoreCommit => DoStoreCommit(w)
    case AnchorSwap => DoAnchorSwap(w)
    case Finish => DoFinish(w)
    case ReadOutbox => DoReadOutbox(w)
    case StoreSent(frame) => DoStoreSent(w, frame)
    case SentFinish => DoSentFinish(w)
  }

  function StageFrame(w: World, live: Live, x: Content, result: Option<Frame>, persist: bool, d: Draw): Option<World> {
    var j := live.journal;
    if !(forall f :: f in d.retained ==> f in j.outbox) then None
    else
      var checkpoint := NeedsCheckpoint(j);
      var binding := NewBinding(j, persist, d);
      var item := FrameItem(live.doc, x, checkpoint, BindingList(j, checkpoint, binding, d));
      StageEntry(w, live, checkpoint, item, binding, Some(x), result, AfterFrame(live.doc, x), d)
  }

  predicate Initial(w: World) {
    && w.store == EmptySnapshot && w.anchor == None && w.phase == Down
    && w.device.minted == map[] && w.device.publications == map[] && w.device.tokens == {}
    && w.released == {} && w.sent == {}
  }

  /** A run: each world follows from the one before by some step. */
  ghost predicate Run(ws: seq<World>, steps: seq<Step>) {
    && |ws| == |steps| + 1
    && Initial(ws[0])
    && forall i {:trigger steps[i]} :: 0 <= i < |steps| ==> Do(ws[i], steps[i]) == Some(ws[i + 1])
  }

  /** The store is never replaced behind the device's back. */
  ghost predicate Honest(steps: seq<Step>) {
    forall i :: 0 <= i < |steps| ==> !steps[i].Tamper?
  }
}
