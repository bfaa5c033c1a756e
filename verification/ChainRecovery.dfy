/** Walking and replaying the entries since the last checkpoint rebuilds exactly what the whole
    accepted chain stands for. */
module ChainRecovery {
  import opened Common
  import opened DocumentTypes
  import opened AuthorityHistory
  import opened ReplayJournal
  import opened DocumentState
  import opened AcceptedChain

  lemma {:induction false} WalkedEntriesVerify(entries: seq<Entry>)
    requires Walk(entries).Ok?
    ensures forall e :: e in entries ==> MarkerVerifies(e)
  {
    if entries != [] {
      WalkedEntriesVerify(entries[..|entries| - 1]);
      SplitLast(entries);
    }
  }

  /** The ledger a walk rebuilds binds only tokens of frames accepted on that chain. */
  lemma {:induction false} WalkedLedger(initial: set<Change>, minted: Minted, publications: AcceptedChain.Sealed, entries: seq<Entry>)
    requires MintedOk(initial, minted, publications) && Walk(entries).Ok?
    requires forall e :: e in entries ==> e in minted
    ensures LedgerOk(minted, publications, LastCommitment(Walk(entries).value.last), Walk(entries).value.ledger)
  {
    if entries != [] {
      var front, e := entries[..|entries| - 1], entries[|entries| - 1];
      assert forall f :: f in front ==> f in entries;
      assert e in entries;
      WalkedLedger(initial, minted, publications, front);
      assert EntryOk(initial, minted, publications, e);
      LedgerStep(minted, publications, Walk(front).value.ledger, Walk(entries).value.ledger, e,
                 front == [] || e.payload.parent == LastCommitment(Walk(front).value.last));
    }
  }

  lemma LedgerStep(minted: Minted, publications: AcceptedChain.Sealed, before: Ledger, after: Ledger, e: Entry, linked: bool)
    requires e.Entry? && e.payload.body.Sealed? && e.payload.revision == RevisionAt(e.payload.parent) + 1
    requires RecordAll(before, ItemOf(e).bindings, e.payload.revision, e.payload.body.checkpoint) == Some(after)
    requires forall b :: b in ItemOf(e).bindings ==> TokenOk(minted, publications, Digest(e), b.token, b.revision)
    requires linked && (before == map[] || LedgerOk(minted, publications, e.payload.parent, before))
    ensures LedgerOk(minted, publications, Digest(e), after)
  {
    var bindings := ItemOf(e).bindings;
    RecordAllKeys(before, bindings, e.payload.revision, e.payload.body.checkpoint);
    RecordAllValues(before, bindings, e.payload.revision, e.payload.body.checkpoint);
    forall t | t in after ensures TokenOk(minted, publications, Digest(e), t, after[t]) {
      if t in before {
        TokenRises(minted, publications, e, t, before[t]);
      } else {
        var b :| b in bindings && b.token == t;
      }
    }
  }

  /** Recovery rebuilds the receipts and the document of the whole chain from its last checkpoint on. */
  lemma {:induction false} RecoverRebuilds(initial: set<Change>, minted: Minted, publications: AcceptedChain.Sealed, entries: seq<Entry>)
    requires MintedOk(initial, minted, publications) && Walk(entries).Ok?
    requires forall e :: e in entries ==> e in minted
    ensures Recover(initial, Walk(entries).value.items)
            == Some(StateAt(initial, LastCommitment(Walk(entries).value.last)))
  {
    if entries != [] {
      var front, e := entries[..|entries| - 1], entries[|entries| - 1];
      assert forall f :: f in front ==> f in entries;
      assert e in entries;
      RecoverRebuilds(initial, minted, publications, front);
      EntryReplays(initial, minted, publications, Walk(front).value, e);
    }
  }

  lemma EntryReplays(initial: set<Change>, minted: Minted, publications: AcceptedChain.Sealed, w: Walked, e: Entry)
    requires MintedOk(initial, minted, publications) && e in minted
    requires (w.last.Some? ==> w.last.value.Entry?) && WalkEntry(w, e).Ok?
    requires Recover(initial, w.items) == Some(StateAt(initial, LastCommitment(w.last)))
    ensures Recover(initial, WalkEntry(w, e).value.items) == Some(StateAt(initial, Digest(e)))
  {
    var parent, checkpoint, item := e.payload.parent, e.payload.body.checkpoint, e.payload.body.item;
    assert EntryOk(initial, minted, publications, e);
    KnownState(initial, minted, publications, parent);
    var st := StateAt(initial, LastCommitment(w.last));
    ReplayBase(initial, w, e);
    RecordReplays(initial, parent, st, checkpoint, item, minted[e]);
    RecoverOne(initial, w.items, JournalItem(checkpoint, item));
  }

  /** A delta replays onto its parent's state; a first checkpoint onto the empty journal's. */
  lemma ReplayBase(initial: set<Change>, w: Walked, e: Entry)
    requires (w.last.Some? ==> w.last.value.Entry?) && WalkEntry(w, e).Ok?
    ensures var st := StateAt(initial, LastCommitment(w.last));
      st == StateAt(initial, e.payload.parent) || (e.payload.body.checkpoint && st.document == initial)
  {}

  lemma RecoverOne(initial: set<Change>, items: seq<JournalItem>, r: JournalItem)
    requires Recover(initial, items).Some? && RecordAdmitted(Recover(initial, items).value, r)
    ensures Recover(initial, items + [r]) == Some(ApplyItem(Recover(initial, items).value, r.checkpoint, r.item))
  {
    assert (items + [r])[..|items|] == items;
  }

  /** One record replays onto the state its parent stands for, or, at a checkpoint, onto any state
      that holds nothing outside the snapshot. */
  lemma RecordReplays(initial: set<Change>, parent: Commitment, st: DocState, checkpoint: bool, item: Item, content: Option<Content>)
    requires StateOk(initial, parent) && Transition(initial, parent, checkpoint, item, content)
    requires st == StateAt(initial, parent) || (checkpoint && st.document == initial)
    ensures RecordAdmitted(st, JournalItem(checkpoint, item))
    ensures ApplyItem(st, checkpoint, item) == ApplyItem(StateAt(initial, parent), checkpoint, item)
  {
    TransitionState(initial, parent, checkpoint, item, content);
    var before := StateAt(initial, parent);
    ReceiptsFit(ApplyItem(before, checkpoint, item).receipts, item.authorityHead.record.roster);
    if content.Some? { FrameReceiptFollows(before, content.value, checkpoint, item); }
    if st != before {
      assert before.document <= item.changes;
      assert ApplyItem(st, checkpoint, item).document == ApplyItem(before, checkpoint, item).document;
    }
  }

  /** The one receipt of a delta passes the admission check recovery repeats. */
  lemma FrameReceiptFollows(st: DocState, x: Content, checkpoint: bool, item: Item)
    requires FrameFollows(st, x) && item == FrameItem(st, x, checkpoint, item.bindings)
    ensures !checkpoint ==>
              forall m :: m in item.receipts ==>
                AdmitSequence(item.receipts[m].sequence, AcceptedSequence(ReceiptsIn(st, item.context), m), true) == Apply
  {}

  lemma ReceiptsFit(receipts: Receipts, roster: Roster)
    requires receipts.Keys <= roster.Keys && |roster| <= 256
    ensures |receipts| <= 256
  {
    SubsetSize(receipts.Keys, roster.Keys);
    assert |receipts| == |receipts.Keys| && |roster| == |roster.Keys|;
  }

  /** The authority heads of the walked items end at the head the newest entry was accepted under. */
  lemma LastItemHead(entries: seq<Entry>)
    requires Walk(entries).Ok? && entries != []
    ensures var items, last := Walk(entries).value.items, Walk(entries).value.last.value;
      items[|items| - 1].item.authorityHead == AuthorityAt(Digest(last))
  {}
}
