/** The journal and the document as objects, each method proved against the step system's functions.
    A method is one uninterrupted run of the awaited effects; the step system interleaves crashes. */
module JournalObjects {
  import opened Common
  import opened DocumentTypes
  import opened JournalStoreSpec
  import opened ReplayJournal
  import opened DocumentState
  import opened DocumentRun

  /** The durable part: the journal store and the independent rollback anchor. */
  class Disk {
    var store: Snapshot
    var anchor: Option<Anchor>

    constructor ()
      ensures store == EmptySnapshot && anchor == None
    {
      store, anchor := EmptySnapshot, None;
    }
  }

  lemma {:induction false} WalkPrefixFails(entries: seq<Entry>, k: nat)
    requires k <= |entries| && Walk(entries[..k]).Err?
    ensures Walk(entries) == Walk(entries[..k])
    decreases |entries|
  {
    if k < |entries| {
      var front := entries[..|entries| - 1];
      assert front[..k] == entries[..k];
      WalkPrefixFails(front, k);
    } else {
      assert entries[..k] == entries;
    }
  }

  lemma {:induction false} RecordPrefixFails(ledger: Ledger, bindings: seq<Binding>, revision: nat, checkpoint: bool, k: nat)
    requires k <= |bindings| && RecordAll(ledger, bindings[..k], revision, checkpoint).None?
    ensures RecordAll(ledger, bindings, revision, checkpoint).None?
    decreases |bindings|
  {
    if k < |bindings| {
      var front := bindings[..|bindings| - 1];
      assert front[..k] == bindings[..k];
      RecordPrefixFails(ledger, front, revision, checkpoint, k);
    } else {
      assert bindings[..k] == bindings;
    }
  }

  lemma {:induction false} QueuePrefixFails(publications: seq<Publication>, ledger: Ledger, current: nat, k: nat)
    requires k <= |publications| && ReadQueue(publications[..k], ledger, current).None?
    ensures ReadQueue(publications, ledger, current).None?
    decreases |publications|
  {
    if k < |publications| {
      var front := publications[..|publications| - 1];
      assert front[..k] == publications[..k];
      QueuePrefixFails(front, ledger, current, k);
    } else {
      assert publications[..k] == publications;
    }
  }

  lemma {:induction false} BytesGrow(publications: seq<Publication>, k: nat)
    requires k <= |publications|
    ensures PublicationBytes(publications[..k]) <= PublicationBytes(publications)
    decreases |publications|
  {
    if k < |publications| {
      var front := publications[..|publications| - 1];
      assert front[..k] == publications[..k];
      BytesGrow(front, k);
    } else {
      assert publications[..k] == publications;
    }
  }

  /** Record the bindings of one accepted entry. */
  method RecordBindings(ledger: Ledger, bindings: seq<Binding>, revision: nat, checkpoint: bool) returns (r: Option<Ledger>)
    ensures r == RecordAll(ledger, bindings, revision, checkpoint)
  {
    var accepted := ledger;
    for i := 0 to |bindings|
      invariant RecordAll(ledger, bindings[..i], revision, checkpoint) == Some(accepted)
    {
      assert bindings[..i + 1][..i] == bindings[..i];
      var b := bindings[i];
      if !CanRecord(accepted, b.token, b.revision, revision, checkpoint, MAX_LEDGER) {
        RecordPrefixFails(ledger, bindings, revision, checkpoint, i + 1);
        return None;
      }
      accepted := accepted[b.token := b.revision];
    }
    assert bindings[..|bindings|] == bindings;
    r := Some(accepted);
  }

  /** Verify the accepted chain oldest first, stopping at the first entry that does not fit. */
  method WalkEntries(entries: seq<Entry>) returns (r: Result<Walked>)
    ensures r == Walk(entries)
  {
    var items: seq<JournalItem>, ledger: Ledger, last: Option<Entry> := [], map[], None;
    for i := 0 to |entries|
      invariant last.Some? ==> last.value.Entry?
      invariant Walk(entries[..i]) == Ok(Walked(items, ledger, last))
    {
      var e := entries[i];
      ghost var w := Walked(items, ledger, last);
      assert entries[..i + 1][..i] == entries[..i];
      assert Walk(entries[..i + 1]) == WalkEntry(w, e);
      var next := if e.Malformed? then Err("malformed")
                  else if !Follows(last, e.payload) then Err("causal chain")
                  else if !MarkerVerifies(e) then Err("no acceptance marker")
                  else if !Decrypts(e.payload) then Err("decryption")
                  else if last.Some? && e.payload.body.checkpoint then Err("noninitial checkpoint")
                  else Ok(e.payload.body);
      if next.Err? {
        WalkPrefixFails(entries, i + 1);
        return Err(next.error);
      }
      var recorded := RecordBindings(ledger, next.value.item.bindings, e.payload.revision, next.value.checkpoint);
      if recorded.None? {
        WalkPrefixFails(entries, i + 1);
        return Err("publication binding");
      }
      items, ledger, last := items + [JournalItem(next.value.checkpoint, next.value.item)], recorded.value, Some(e);
    }
    assert entries[..|entries|] == entries;
    r := Ok(Walked(items, ledger, last));
  }

  /** Decide what the loaded store means against the anchor, before touching either. */
  method Examine(s: Snapshot, anchored: Option<Anchor>) returns (r: Result<Restored>)
    ensures r == ReplayJournal.Restore(s, anchored)
  {
    if !Captured(s.revision, s.entries) { return Err("snapshot"); }
    var walked := WalkEntries(s.entries);
    if walked.Err? { return Err(walked.error); }
    var last := walked.value.last;
    var revision := if last.Some? then last.value.payload.revision else 0;
    if revision != s.revision || (last.None? && anchored.Some?) { return Err("rollback or eviction"); }
    var stored := if last.Some? then Some(Anchor(revision, Digest(last.value))) else None;
    var recovery := ClassifyRecovery(s.revision, AnchorRevision(anchored), anchored == stored,
                                     last.Some? && last.value.payload.parent == AnchorCommitment(anchored), true);
    if recovery == Reject { return Err("rollback or substitution"); }
    r := Ok(Restored(walked.value.items, walked.value.ledger, stored, recovery == FinishAnchor,
                     if s.pending.Some? then Some(s.pending.value.token) else None, TotalLength(s.entries)));
  }

  /** Copy the queue within its bounds, then authenticate each record against the ledger. */
  method ReadOutboxRecords(publications: seq<Publication>, ledger: Ledger, current: nat) returns (r: Result<Outbox>)
    ensures r == ReadPublications(publications, ledger, current)
  {
    var sized := SizesOk(publications);
    if !sized { return Err("queue"); }
    var queue := Authenticate(publications, ledger, current);
    r := if queue.Some? then Ok(queue.value) else Err("not bound to the accepted branch");
  }

  predicate WithinBounds(publications: seq<Publication>) {
    && |publications| <= MAX_PUBLICATIONS && PublicationBytes(publications) <= MAX_PUBLICATION_BYTES
    && forall i :: 0 <= i < |publications| ==> 1 <= publications[i].bytes <= MAX_STORED_PUBLICATION
  }

  method SizesOk(publications: seq<Publication>) returns (ok: bool)
    ensures ok <==> WithinBounds(publications)
  {
    if |publications| > MAX_PUBLICATIONS { return false; }
    var bytes := 0;
    for i := 0 to |publications|
      invariant bytes == PublicationBytes(publications[..i]) <= MAX_PUBLICATION_BYTES
      invariant forall k :: 0 <= k < i ==> 1 <= publications[k].bytes <= MAX_STORED_PUBLICATION
    {
      assert publications[..i + 1][..i] == publications[..i];
      BytesGrow(publications, i + 1);
      if publications[i].bytes < 1 || publications[i].bytes > MAX_STORED_PUBLICATION
         || bytes + publications[i].bytes > MAX_PUBLICATION_BYTES { return false; }
      bytes := bytes + publications[i].bytes;
    }
    assert publications[..|publications|] == publications;
    ok := true;
  }

  method Authenticate(publications: seq<Publication>, ledger: Ledger, current: nat) returns (r: Option<Outbox>)
    ensures r == ReadQueue(publications, ledger, current)
  {
    var frames: seq<Frame>, bindings: map<Frame, Binding>, seen: set<Token> := [], map[], {};
    for i := 0 to |publications|
      invariant ReadQueue(publications[..i], ledger, current) == Some(Outbox(frames, bindings))
      invariant forall t :: t in seen <==> TokenSeen(bindings, t)
    {
      assert publications[..i + 1][..i] == publications[..i];
      var p := publications[i];
      if !AcceptedToken(ledger, p.token, p.revision, current) || p.id in bindings || p.token in seen || !PublicationOpens(p) {
        QueuePrefixFails(publications, ledger, current, i + 1);
        return None;
      }
      SeenGrows(bindings, p);
      frames, bindings, seen := frames + [p.cipher.frame], bindings[p.id := Binding(p.token, p.revision)], seen + {p.token};
    }
    assert publications[..|publications|] == publications;
    r := Some(Outbox(frames, bindings));
  }

  lemma SeenGrows(bindings: map<Frame, Binding>, p: Publication)
    requires p.id !in bindings
    ensures forall t :: TokenSeen(bindings[p.id := Binding(p.token, p.revision)], t) <==> TokenSeen(bindings, t) || t == p.token
  {
    var after := bindings[p.id := Binding(p.token, p.revision)];
    forall t ensures TokenSeen(after, t) <==> TokenSeen(bindings, t) || t == p.token {
      if TokenSeen(bindings, t) {
        var id :| id in bindings && bindings[id].token == t;
        assert id in after && after[id].token == t;
      }
      if t == p.token { assert p.id in after && after[p.id].token == t; }
    }
  }

  /** List the keys of the queue map, each once. */
  method ListQueued(outbox: map<Frame, Binding>) returns (retained: seq<Frame>)
    ensures Enumerates(retained, outbox)
  {
    retained := [];
    var left := outbox.Keys;
    while left != {}
      invariant left <= outbox.Keys
      invariant forall f :: f in outbox ==> f in left || f in retained
      invariant forall f :: f in retained ==> f in outbox && f !in left
      invariant forall i, j :: 0 <= i < j < |retained| ==> retained[i] != retained[j]
      decreases left
    {
      var f :| f in left;
      retained, left := retained + [f], left - {f};
    }
  }

  /** The store refused for want of room, in the journal or in the queue. */
  predicate StageIsFull(s: Snapshot, staged: Result<Snapshot>, reservation: Option<Reservation>) {
    staged.Err? && (staged.error == "capacity"
                    || (staged.error == "outbox" && reservation.Some? && !Queued(Index(s.publications), reservation.value.id)))
  }

  class Journal {
    const disk: Disk
    var head: Option<Anchor>
    var entryCount: nat
    var retainedBytes: nat
    var accepted: Ledger
    var queued: map<Frame, Binding>
    var isOpen: bool
    var active: bool
    var failed: bool

    constructor (disk: Disk)
      ensures this.disk == disk && !isOpen && !active && !failed
      ensures Fields() == Memory(None, 0, 0, map[], map[])
    {
      this.disk := disk;
      head, entryCount, retainedBytes, accepted, queued := None, 0, 0, map[], map[];
      isOpen, active, failed := false, false, false;
    }

    ghost function Fields(): Memory
      reads this
    {
      Memory(head, entryCount, retainedBytes, accepted, queued)
    }

    /** Load, walk, compare with the anchor, finish a half-done anchor move, drop what was only
        staged, re-read the queue. Either all fields are those of the accepted chain or the journal
        has failed and none of them moved. */
    method Restore() returns (r: Result<seq<JournalItem>>)
      modifies this, disk
      ensures var s, a := old(disk.store), old(disk.anchor);
        var restored := ReplayJournal.Restore(s, a);
        if old(failed || active) then r.Err? && Fields() == old(Fields()) && disk.store == s && disk.anchor == a
        else
          && (restored.Err? ==> r.Err? && disk.store == s && disk.anchor == a)
          && (restored.Ok? ==>
                && disk.anchor == (if restored.value.finish then restored.value.stored else a)
                && disk.store == (if restored.value.discard.Some? then Discarded(s, restored.value.discard.value) else s)
                && (r.Ok? <==> ReadPublications(s.publications, restored.value.ledger, AnchorRevision(restored.value.stored)).Ok?))
          && (r.Err? ==> failed && Fields() == old(Fields()))
          && (r.Ok? ==>
                && isOpen && !failed && r.value == restored.value.items
                && Fields() == Memory(restored.value.stored, |restored.value.items|, restored.value.bytes, restored.value.ledger,
                     ReadPublications(s.publications, restored.value.ledger, AnchorRevision(restored.value.stored)).value.bindings))
      ensures active == old(active)
    {
      if failed || active { return Err("unavailable"); }
      var s, anchored := disk.store, disk.anchor;
      var examined := Examine(s, anchored);
      if examined.Err? { failed := true; return Err(examined.error); }
      var restored := examined.value;
      if restored.finish { disk.anchor := restored.stored; }
      if restored.discard.Some? { disk.store := Discarded(s, restored.discard.value); }
      var queue := ReadOutboxRecords(disk.store.publications, restored.ledger, AnchorRevision(restored.stored));
      if queue.Err? { failed := true; return Err(queue.error); }
      accepted, queued, head := restored.ledger, queue.value.bindings, restored.stored;
      entryCount, retainedBytes, isOpen := |restored.items|, restored.bytes, true;
      r := Ok(restored.items);
    }

    /** Stage one entry. `item` carries no bindings yet: they are chosen here. */
    method Prepare(checkpoint: bool, item: Item, outbound: Option<Frame>, token: Token, bindingToken: Token,
                   nonce: nat, length: nat) returns (r: Option<Op>, ghost draw: Draw)
      requires item.bindings == []
      requires 74 <= length <= MAX_ENTRY + 73
      modifies this, disk
      ensures Enumerates(draw.retained, old(queued)) && draw == Draw(token, bindingToken, nonce, length, draw.retained)
      ensures Fields() == old(Fields()) && disk.anchor == old(disk.anchor)
      ensures var j := old(Fields());
        var binding := NewBinding(j, outbound.Some?, draw);
        var full := item.(bindings := BindingList(j, checkpoint, binding, draw));
        var reservation := if outbound.Some? then Some(Reservation(outbound.value, outbound.value.length + PUBLICATION_OVERHEAD)) else None;
        var staged := JournalStoreSpec.Staged(old(disk.store), AnchorRevision(j.head), token, PayloadFor(j, checkpoint, full, draw), reservation, checkpoint);
        && (r.Some? <==>
              && old(isOpen && !failed && !active)
              && JournalAdmits(j, checkpoint, binding, draw)
              && ItemCodec(full, checkpoint)
              && old(disk.anchor) == j.head
              && staged.Ok?)
        && (r.Some? ==>
              && active && disk.store == staged.value && !failed
              && r.value.token == token && r.value.payload == PayloadFor(j, checkpoint, full, draw)
              && r.value.checkpoint == checkpoint && r.value.binding == binding && r.value.result == outbound
              && r.value.candidate == Candidate(j, checkpoint, binding, draw))
        && (old(isOpen && !failed && !active) && JournalAdmits(j, checkpoint, binding, draw) && ItemCodec(full, checkpoint)
            && old(disk.anchor) == j.head && staged.Err? ==>
              (failed <==> !StageIsFull(old(disk.store), staged, reservation)))
      ensures r.None? ==> disk.store == old(disk.store) && active == old(active)
    {
      var retained := ListQueued(queued);
      draw := Draw(token, bindingToken, nonce, length, retained);
      if !isOpen || failed || active || AnchorRevision(head) == MAX_SAFE_INTEGER
         || ((entryCount >= MAX_JOURNAL_ENTRIES - 1 || retainedBytes > MAX_JOURNAL_BYTES - 18 * 1024 * 1024) && !checkpoint)
         || AnchorRevision(head) > MAX_SAFE_INTEGER {
        return None, draw;
      }
      var revision := AnchorRevision(head) + 1;
      var binding := if outbound.Some? then Some(Binding(bindingToken, revision)) else None;
      ghost var j := Fields();
      var kept := Retained(Memory(head, entryCount, retainedBytes, accepted, queued), retained);
      var candidate := accepted;
      if checkpoint {
        var pending := TokenList(kept);
        if !CanRetain(accepted, pending, 16) { failed := true; return None, draw; }
        candidate := Retain(accepted, pending);
      }
      assert candidate == BaseLedger(j, checkpoint, draw);
      if binding.Some? {
        if bindingToken in accepted || !CanRecord(candidate, bindingToken, revision, revision, false, MAX_LEDGER) {
          failed := true;
          return None, draw;
        }
        candidate := candidate[bindingToken := revision];
      }
      var bindings := (if checkpoint then kept else []) + (if binding.Some? then [binding.value] else []);
      var full := item.(bindings := bindings);
      if |bindings| > 16 { return None, draw; }
      if !ItemCodec(full, checkpoint) || disk.anchor != head { failed := true; return None, draw; }
      var parent := AnchorCommitment(head);
      var payload := Payload(revision, if checkpoint then 1 else 0, parent,
                             DocumentTypes.Sealed(revision, checkpoint, parent, full, nonce), length);
      var reservation := if outbound.Some? then Some(Reservation(outbound.value, outbound.value.length + PUBLICATION_OVERHEAD)) else None;
      var s := JournalStoreSpec.Staged(disk.store, AnchorRevision(head), token, payload, reservation, checkpoint);
      if s.Err? {
        // a full journal or a full queue leaves the journal usable
        failed := !StageIsFull(disk.store, s, reservation);
        return None, draw;
      }
      disk.store, active := s.value, true;
      r := Some(Op(token, payload, checkpoint, None, outbound, binding, candidate,
                   DocState(None, map[], {}), item.authorityHead));
    }

    /** Seal, commit to the store, read the head back, move the anchor, install the fields. */
    method Commit(op: Op, nonce: nat) returns (ok: bool)
      modifies this, disk
      ensures !active
      ensures var e := AcceptedEntry(op, nonce);
        var s := Committed(old(disk.store), AnchorRevision(old(head)), op.token, op.checkpoint, e, OpPublication(op));
        && (ok <==> s.Ok? && s.value.revision == op.payload.revision && old(disk.anchor) == old(head))
        && disk.store == (if s.Ok? then s.value else old(disk.store))
        && (ok ==> Fields() == AfterCommit(old(Fields()), op, e)
                   && disk.anchor == Some(Anchor(op.payload.revision, Digest(e))) && failed == old(failed))
        && (!ok ==> failed && Fields() == old(Fields()) && disk.anchor == old(disk.anchor))
    {
      active := false;
      var e := AcceptedEntry(op, nonce);
      var s := Committed(disk.store, AnchorRevision(head), op.token, op.checkpoint, e, OpPublication(op));
      if s.Err? { failed := true; return false; }
      disk.store := s.value;
      var rows := disk.store.entries;
      if disk.store.revision != op.payload.revision || rows == [] || rows[|rows| - 1] != e || disk.anchor != head {
        failed := true;
        return false;
      }
      disk.anchor := Some(Anchor(op.payload.revision, Digest(e)));
      accepted := op.candidate;
      if op.binding.Some? && op.result.Some? { queued := queued[op.result.value := op.binding.value]; }
      head := Some(Anchor(op.payload.revision, Digest(e)));
      entryCount := if op.checkpoint then 1 else entryCount + 1;
      retainedBytes := if op.checkpoint then EntryLength(e) else retainedBytes + EntryLength(e);
      ok := true;
    }

    method Discard(op: Op)
      modifies this, disk
      ensures !active && failed == old(failed) && Fields() == old(Fields())
      ensures disk.store == Discarded(old(disk.store), op.token) && disk.anchor == old(disk.anchor)
    {
      disk.store, active := Discarded(disk.store, op.token), false;
    }

    method PendingPublications() returns (r: Result<seq<Frame>>)
      modifies this
      ensures var q := ReadPublications(disk.store.publications, old(accepted), AnchorRevision(old(head)));
        && (r.Ok? <==> old(isOpen && !failed && !active) && q.Ok? && old(head) == disk.anchor)
        && (r.Ok? ==> r.value == q.value.frames && Fields() == old(Fields()).(outbox := q.value.bindings) && !failed)
        && (r.Err? ==> Fields() == old(Fields()))
        && (r.Err? && old(isOpen && !failed && !active) ==> failed)
    {
      if !isOpen || failed || active { return Err("unavailable"); }
      var q := ReadOutboxRecords(disk.store.publications, accepted, AnchorRevision(head));
      if q.Err? || head != disk.anchor { failed := true; return Err("publication anchor is not current"); }
      queued := q.value.bindings;
      r := Ok(q.value.frames);
    }

    method PublicationSent(frame: Frame)
      modifies this, disk
      ensures disk.store == Sent(old(disk.store), frame) && disk.anchor == old(disk.anchor)
      ensures Fields() == old(Fields()).(outbox := old(queued) - {frame})
    {
      disk.store := Sent(disk.store, frame);
      queued := queued - {frame};
    }
  }

  // ---------------------------------------------------------------- the document

  lemma {:induction false} RecoverPrefixFails(initial: set<Change>, records: seq<JournalItem>, k: nat)
    requires k <= |records| && Recover(initial, records[..k]).None?
    ensures Recover(initial, records).None?
    decreases |records|
  {
    if k < |records| {
      var front := records[..|records| - 1];
      assert front[..k] == records[..k];
      RecoverPrefixFails(initial, front, k);
    } else {
      assert records[..k] == records;
    }
  }

  /** What replaying one more record means. */
  lemma RecoverNext(initial: set<Change>, records: seq<JournalItem>, i: nat, st: DocState)
    requires i < |records| && DocumentState.Recover(initial, records[..i]) == Some(st)
    ensures DocumentState.Recover(initial, records[..i + 1])
            == if RecordAdmitted(st, records[i]) then Some(ApplyItem(st, records[i].checkpoint, records[i].item)) else None
  {
    assert records[..i + 1][..i] == records[..i];
  }

  /** The checks the loop makes on a record are the admission checks. */
  lemma AdmitsRecord(st: DocState, r: JournalItem, base: Receipts)
    requires base == if r.checkpoint || st.context != Some(r.item.context) then map[] else st.receipts
    ensures ApplyItem(st, r.checkpoint, r.item) == DocState(Some(r.item.context), base + r.item.receipts, st.document + r.item.changes)
    ensures RecordAdmitted(st, r) <==>
              && |base + r.item.receipts| <= 256
              && (r.checkpoint || forall m :: m in r.item.receipts ==>
                    AdmitSequence(r.item.receipts[m].sequence, AcceptedSequence(base, m), true) == Apply)
  {}

  /** The part of the document that recovery rebuilds and each commit replaces. */
  class Document {
    var receipts: Receipts
    var receiptsContext: Option<Context>
    var document: set<Change>
    var failed: bool

    constructor (initial: set<Change>)
      ensures State() == DocState(None, map[], initial) && !failed
    {
      receipts, receiptsContext, document, failed := map[], None, initial, false;
    }

    ghost function State(): DocState
      reads this
    {
      DocState(receiptsContext, receipts, document)
    }

    /** Replay the journal records, repeating the admission checks. */
    method Recover(records: seq<JournalItem>) returns (ok: bool)
      requires receiptsContext == None && receipts == map[]
      modifies this
      ensures ok <==> DocumentState.Recover(old(document), records).Some?
      ensures ok ==> Some(State()) == DocumentState.Recover(old(document), records) && failed == old(failed)
      ensures !ok ==> failed
    {
      ghost var initial := document;
      for i := 0 to |records|
        invariant DocumentState.Recover(initial, records[..i]) == Some(State()) && failed == old(failed)
      {
        var r := records[i];
        RecoverNext(initial, records, i, State());
        var base: Receipts := if r.checkpoint || receiptsContext != Some(r.item.context) then map[] else receipts;
        var fits := r.checkpoint
          || forall m :: m in r.item.receipts ==>
               AdmitSequence(r.item.receipts[m].sequence, AcceptedSequence(base, m), true) == Apply;
        var next := base + r.item.receipts;
        AdmitsRecord(State(), r, base);
        if !fits || |next| > 256 {
          RecoverPrefixFails(initial, records, i + 1);
          failed := true;
          return false;
        }
        receipts, receiptsContext, document := next, Some(r.item.context), document + r.item.changes;
      }
      assert records[..|records|] == records;
      ok := true;
    }

    /** The commit the admission gate runs for an accepted frame. */
    method Accept(x: Content)
      modifies this
      ensures State() == AfterFrame(old(State()), x) && failed == old(failed)
    {
      var base: Receipts := if receiptsContext == Some(x.context) then receipts else map[];
      document := document + x.changes;
      receipts, receiptsContext := base[x.member := Receipt(x.sequence, ContentDigest(x))], Some(x.context);
    }

    /** The commit of a role transition. */
    method ChangeRoles(context: Context)
      modifies this
      ensures State() == AfterRole(old(State()), context) && failed == old(failed)
    {
      receipts, receiptsContext := map[], Some(context);
    }
  }
}
