/** Document state as the journal records it: per-author receipts in the current group context, and
    the accepted changes. A CRDT document is the set of changes it has integrated. */
module DocumentState {
  import opened Common
  import opened DocumentTypes
  import opened AuthorityHistory
  import opened ReplayJournal

  datatype DocState = DocState(context: Option<Context>, receipts: Receipts, document: set<Change>)

  /** Receipts restart whenever the group context changes. */
  function ReceiptsIn(st: DocState, context: Context): Receipts {
    if st.context == Some(context) then st.receipts else map[]
  }

  function AcceptedSequence(receipts: Receipts, m: Member): nat {
    if m in receipts then receipts[m].sequence else 0
  }

  function AcceptedHash(receipts: Receipts, m: Member): ContentHash {
    if m in receipts then receipts[m].hash else ZeroHash
  }

  datatype Admission = Apply | Replay | Gap | ParentMismatch

  function AdmitSequence(sequence: nat, accepted: nat, parentMatches: bool): Admission {
    if sequence <= accepted then Replay
    else if sequence - accepted != 1 then Gap
    else if parentMatches then Apply else ParentMismatch
  }

  function AdmitContent(st: DocState, x: Content): Admission {
    var receipts := ReceiptsIn(st, x.context);
    AdmitSequence(x.sequence, AcceptedSequence(receipts, x.member), x.parent == AcceptedHash(receipts, x.member))
  }

  /** The author's next frame, chained to the last accepted one. */
  predicate FrameFollows(st: DocState, x: Content) { AdmitContent(st, x) == Apply }

  /** A replayed frame whose sequence is the newest accepted one must be the accepted frame. */
  predicate Equivocates(st: DocState, x: Content) {
    var receipts := ReceiptsIn(st, x.context);
    x.member in receipts && receipts[x.member].sequence == x.sequence && receipts[x.member].hash != ContentDigest(x)
  }

  function ReceiptFor(x: Content): Receipt { Receipt(x.sequence, ContentDigest(x)) }

  /** What committing an admitted frame does to the live document. */
  function AfterFrame(st: DocState, x: Content): DocState {
    DocState(Some(x.context), ReceiptsIn(st, x.context)[x.member := ReceiptFor(x)], st.document + x.changes)
  }

  /** What a role transition does: new context, no receipts yet. */
  function AfterRole(st: DocState, context: Context): DocState {
    DocState(Some(context), map[], st.document)
  }

  /** The journal item for an admitted frame: a delta, or a full checkpoint. */
  function FrameItem(st: DocState, x: Content, checkpoint: bool, bindings: seq<Binding>): Item {
    if checkpoint then
      Item(x.context, x.authorityHead, st.document + x.changes,
           ReceiptsIn(st, x.context)[x.member := ReceiptFor(x)], bindings)
    else Item(x.context, x.authorityHead, x.changes, map[x.member := ReceiptFor(x)], bindings)
  }

  function RoleItem(st: DocState, head: AuthorityHead, context: Context, bindings: seq<Binding>): Item {
    Item(context, head, st.document, map[], bindings)
  }

  // ---------------------------------------------------------------- replay

  function ApplyItem(st: DocState, checkpoint: bool, item: Item): DocState {
    DocState(Some(item.context),
             (if checkpoint then map[] else ReceiptsIn(st, item.context)) + item.receipts,
             st.document + item.changes)
  }

  /** The admission checks recovery repeats for each record. */
  predicate RecordAdmitted(st: DocState, r: JournalItem) {
    && (!r.checkpoint ==>
          forall m :: m in r.item.receipts ==>
            AdmitSequence(r.item.receipts[m].sequence,
                          AcceptedSequence(ReceiptsIn(st, r.item.context), m), true) == Apply)
    && |ApplyItem(st, r.checkpoint, r.item).receipts| <= 256
  }

  function Recover(initial: set<Change>, records: seq<JournalItem>): Option<DocState> {
    if records == [] then Some(DocState(None, map[], initial))
    else
      var before := Recover(initial, records[..|records| - 1]);
      var r := records[|records| - 1];
      if before.None? || !RecordAdmitted(before.value, r) then None
      else Some(ApplyItem(before.value, r.checkpoint, r.item))
  }

  function ItemOf(e: Entry): Item
    requires e.Entry? && e.payload.body.Sealed?
  {
    e.payload.body.item
  }

  /** The state a commitment stands for: every entry behind it, applied oldest first. */
  function StateAt(initial: set<Change>, c: Commitment): DocState {
    if c.Digest? && c.entry.Entry? && c.entry.payload.body.Sealed? then
      ApplyItem(StateAt(initial, c.entry.payload.parent), c.entry.payload.body.checkpoint, ItemOf(c.entry))
    else DocState(None, map[], initial)
  }

  /** The authority head the newest entry was accepted under. */
  function AuthorityAt(c: Commitment): AuthorityHead {
    if c.Digest? && c.entry.Entry? && c.entry.payload.body.Sealed? then ItemOf(c.entry).authorityHead
    else NoAuthority
  }

  function RevisionAt(c: Commitment): nat {
    if c.Digest? && c.entry.Entry? then c.entry.payload.revision else 0
  }

  // ---------------------------------------------------------------- per-author hash chains

  /** `hash` is the end of a gap-free chain 1..n of one author's frames in one context. */
  predicate HashChain(hash: ContentHash, n: nat, member: Member, context: Context) {
    if n == 0 then hash == ZeroHash
    else
      && hash.ContentDigest?
      && hash.content.sequence == n
      && hash.content.member == member
      && hash.content.context == context
      && HashChain(hash.content.parent, n - 1, member, context)
  }

  /** The frames on a chain. */
  predicate OnChain(hash: ContentHash, x: Content) {
    hash.ContentDigest? && (hash.content == x || OnChain(hash.content.parent, x))
  }

  predicate ReceiptsChained(st: DocState) {
    forall m :: m in st.receipts ==>
      && st.context.Some?
      && 1 <= st.receipts[m].sequence
      && HashChain(st.receipts[m].hash, st.receipts[m].sequence, m, st.context.value)
  }

  lemma {:induction false} OnChainBelow(hash: ContentHash, n: nat, member: Member, context: Context, x: Content)
    requires HashChain(hash, n, member, context) && OnChain(hash, x)
    ensures 1 <= x.sequence <= n && x.member == member && x.context == context
  {
    if hash.content != x { OnChainBelow(hash.content.parent, n - 1, member, context, x); }
  }

  /** A chain holds one frame per sequence number. */
  lemma {:induction false} ChainIsFunctional(hash: ContentHash, n: nat, member: Member, context: Context, x: Content, y: Content)
    requires HashChain(hash, n, member, context) && OnChain(hash, x) && OnChain(hash, y)
    requires x.sequence == y.sequence
    ensures x == y
  {
    if hash.content == x && hash.content != y {
      OnChainBelow(hash.content.parent, n - 1, member, context, y);
    } else if hash.content == y && hash.content != x {
      OnChainBelow(hash.content.parent, n - 1, member, context, x);
    } else if hash.content != x {
      ChainIsFunctional(hash.content.parent, n - 1, member, context, x, y);
    }
  }

  /** Each sequence number up to n occurs. */
  lemma {:induction false} ChainHasNoGap(hash: ContentHash, n: nat, member: Member, context: Context, k: nat)
    requires HashChain(hash, n, member, context) && 1 <= k <= n
    ensures exists x :: OnChain(hash, x) && x.sequence == k
  {
    if k == n {
      assert OnChain(hash, hash.content);
    } else {
      ChainHasNoGap(hash.content.parent, n - 1, member, context, k);
      var x :| OnChain(hash.content.parent, x) && x.sequence == k;
      assert OnChain(hash, x);
    }
  }

  /** Applying an admitted frame extends its author's chain by one and leaves the others alone. */
  lemma FrameExtendsChain(st: DocState, x: Content)
    requires ReceiptsChained(st) && FrameFollows(st, x)
    ensures ReceiptsChained(AfterFrame(st, x))
    ensures x.sequence == AcceptedSequence(ReceiptsIn(st, x.context), x.member) + 1
    ensures HashChain(ContentDigest(x), x.sequence, x.member, x.context)
  {
    FrameIsChained(st, x);
    var after := AfterFrame(st, x);
    forall m | m in after.receipts
      ensures 1 <= after.receipts[m].sequence && HashChain(after.receipts[m].hash, after.receipts[m].sequence, m, x.context)
    {
      if m != x.member { assert after.receipts[m] == st.receipts[m]; }
    }
  }

  lemma FrameIsChained(st: DocState, x: Content)
    requires ReceiptsChained(st) && FrameFollows(st, x)
    ensures x.sequence == AcceptedSequence(ReceiptsIn(st, x.context), x.member) + 1
    ensures HashChain(ContentDigest(x), x.sequence, x.member, x.context)
  {
    var n := AcceptedSequence(ReceiptsIn(st, x.context), x.member);
    assert HashChain(x.parent, n, x.member, x.context);
  }

  /** Replaying the journal item of a frame gives the state the live commit gave. */
  lemma FrameItemReplays(st: DocState, x: Content, checkpoint: bool, bindings: seq<Binding>)
    ensures ApplyItem(st, checkpoint, FrameItem(st, x, checkpoint, bindings)) == AfterFrame(st, x)
  {
    var r := ApplyItem(st, checkpoint, FrameItem(st, x, checkpoint, bindings));
    assert r.receipts == AfterFrame(st, x).receipts;
    assert r.document == AfterFrame(st, x).document;
  }

  lemma RoleItemReplays(st: DocState, head: AuthorityHead, context: Context, bindings: seq<Binding>)
    ensures ApplyItem(st, true, RoleItem(st, head, context, bindings)) == AfterRole(st, context)
  {
    assert ApplyItem(st, true, RoleItem(st, head, context, bindings)).document == st.document;
  }

  // ---------------------------------------------------------------- what recovery accepts

  /** Everything applied, nothing checked. */
  function AppliedAll(initial: set<Change>, records: seq<JournalItem>): DocState {
    if records == [] then DocState(None, map[], initial)
    else ApplyItem(AppliedAll(initial, records[..|records| - 1]), records[|records| - 1].checkpoint, records[|records| - 1].item)
  }

  /** A delta's receipts continue those before it, by exactly one each, and no more than 256 authors have
      one. */
  predicate Continues(before: DocState, r: JournalItem, after: DocState) {
    && (!r.checkpoint ==> forall m :: m in r.item.receipts ==>
          r.item.receipts[m].sequence
          == 1 + (if before.context == Some(r.item.context) && m in before.receipts then before.receipts[m].sequence else 0))
    && |after.receipts| <= 256
  }

  /** Every record continues the ones before it. */
  predicate AllContinue(initial: set<Change>, records: seq<JournalItem>) {
    records == [] ||
    var front, last := records[..|records| - 1], records[|records| - 1];
    AllContinue(initial, front) && Continues(AppliedAll(initial, front), last, AppliedAll(initial, records))
  }

  /** Recovery accepts exactly such lists of records, and then gives what applying them all gives. */
  lemma {:induction false} RecoverIff(initial: set<Change>, records: seq<JournalItem>)
    ensures Recover(initial, records).Some? <==> AllContinue(initial, records)
    ensures Recover(initial, records).Some? ==> Recover(initial, records).value == AppliedAll(initial, records)
  {
    if records != [] {
      var front, r := records[..|records| - 1], records[|records| - 1];
      RecoverIff(initial, front);
      AdmittedIff(AppliedAll(initial, front), r);
    }
  }

  lemma AdmittedIff(before: DocState, r: JournalItem)
    ensures RecordAdmitted(before, r) <==> Continues(before, r, ApplyItem(before, r.checkpoint, r.item))
  {}
}
