/** The encrypted replay journal: re-walking the accepted hash chain, the recovery decision against
    the independent anchor, and the publication outbox. */
module ReplayJournal {
  import opened Common
  import opened DocumentTypes

  const MAX_LEDGER: nat := MAX_JOURNAL_ENTRIES + 16

  /** Publication tokens bound by accepted entries, with the revision that introduced each. */
  type Ledger = map<Token, nat>

  datatype JournalItem = JournalItem(checkpoint: bool, item: Item)

  // ---------------------------------------------------------------- policy

  predicate CanRecord(ledger: Ledger, token: Token, bindingRevision: nat, entryRevision: nat,
                      checkpoint: bool, limit: nat)
  {
    && token !in ledger
    && |ledger| < limit
    && 1 <= bindingRevision <= entryRevision
    && (checkpoint || bindingRevision == entryRevision)
  }

  predicate CanRetain(ledger: Ledger, pending: seq<Token>, limit: nat) {
    && |pending| <= limit
    && (forall i :: 0 <= i < |pending| ==> pending[i] in ledger)
    && (forall i, j :: 0 <= i < j < |pending| ==> pending[i] != pending[j])
  }

  function Retain(ledger: Ledger, pending: seq<Token>): Ledger {
    map t | t in pending && t in ledger :: ledger[t]
  }

  predicate AcceptedToken(ledger: Ledger, token: Token, revision: nat, current: nat) {
    token in ledger && 1 <= revision <= current && ledger[token] == revision
  }

  datatype Recovery = Current | FinishAnchor | Reject

  function ClassifyRecovery(stored: nat, anchored: nat, commitmentMatches: bool, parentMatches: bool,
                            authenticated: bool): Recovery
  {
    if !authenticated then Reject
    else if stored == anchored && commitmentMatches then Current
    else if stored == anchored + 1 && parentMatches then FinishAnchor
    else Reject
  }

  /** The bounds the item codec enforces in both directions. */
  predicate ItemCodec(item: Item, checkpoint: bool) {
    && |item.receipts| <= 256
    && (!checkpoint ==> |item.receipts| == 1)
    && (forall m :: m in item.receipts ==> 1 <= item.receipts[m].sequence)
    && |item.bindings| <= 16
    && (!checkpoint ==> |item.bindings| <= 1)
  }

  // ---------------------------------------------------------------- the walk

  /** Fold the bindings of one entry into the ledger. */
  function RecordAll(ledger: Ledger, bindings: seq<Binding>, revision: nat, checkpoint: bool): Option<Ledger> {
    if bindings == [] then Some(ledger)
    else
      var before := RecordAll(ledger, bindings[..|bindings| - 1], revision, checkpoint);
      var b := bindings[|bindings| - 1];
      if before.None? || !CanRecord(before.value, b.token, b.revision, revision, checkpoint, MAX_LEDGER) then None
      else Some(before.value[b.token := b.revision])
  }

  datatype Walked = Walked(items: seq<JournalItem>, ledger: Ledger, last: Option<Entry>)

  function LastCommitment(last: Option<Entry>): Commitment {
    if last.Some? then Digest(last.value) else Zero
  }

  predicate MarkerVerifies(e: Entry) {
    e.Entry? && e.tag.Acceptance? && e.tag.revision == e.payload.revision && e.tag.payload == e.payload
  }

  predicate Decrypts(p: Payload) {
    && p.body.Sealed?
    && p.body.revision == p.revision
    && p.body.checkpoint == (p.marker == 1)
    && p.body.parent == p.parent
    && ItemCodec(p.body.item, p.body.checkpoint)
  }

  /** Header checks: contiguous after the first entry; a first delta must be revision 1 on zero. */
  predicate Follows(last: Option<Entry>, p: Payload)
    requires last.Some? ==> last.value.Entry?
  {
    && p.revision >= 1
    && p.marker <= 1
    && (last.Some? ==> p.parent == Digest(last.value) && p.revision == last.value.payload.revision + 1)
    && (last.None? && p.marker == 0 ==> p.revision == 1 && p.parent == Zero)
  }

  function WalkEntry(w: Walked, e: Entry): (r: Result<Walked>)
    requires w.last.Some? ==> w.last.value.Entry?
    ensures r.Ok? ==> r.value.last == Some(e) && e.Entry?
  {
    if e.Malformed? then Err("malformed")
    else if !Follows(w.last, e.payload) then Err("causal chain")
    else if !MarkerVerifies(e) then Err("no acceptance marker")
    else if !Decrypts(e.payload) then Err("decryption")
    else if w.last.Some? && e.payload.body.checkpoint then Err("noninitial checkpoint")
    else
      var ledger := RecordAll(w.ledger, e.payload.body.item.bindings, e.payload.revision, e.payload.body.checkpoint);
      if ledger.None? then Err("publication binding")
      else Ok(Walked(w.items + [JournalItem(e.payload.body.checkpoint, e.payload.body.item)], ledger.value, Some(e)))
  }

  function Walk(entries: seq<Entry>): (r: Result<Walked>)
    ensures r.Ok? ==> (r.value.last.Some? <==> entries != [])
    ensures r.Ok? && entries != [] ==> r.value.last.value == entries[|entries| - 1] && r.value.last.value.Entry?
    ensures r.Ok? ==> |r.value.items| == |entries|
  {
    if entries == [] then Ok(Walked([], map[], None))
    else
      var before := Walk(entries[..|entries| - 1]);
      if before.Err? then before else WalkEntry(before.value, entries[|entries| - 1])
  }

  /** The bounds put on a loaded snapshot before anything is decoded. */
  predicate Captured(revision: nat, entries: seq<Entry>) {
    && revision <= MAX_SAFE_INTEGER
    && |entries| <= MAX_JOURNAL_ENTRIES
    && TotalLength(entries) <= MAX_JOURNAL_BYTES
    && forall i :: 0 <= i < |entries| ==> 1 <= EntryLength(entries[i]) <= MAX_ENTRY + 128
  }

  /** What `restore` has decided before it touches the anchor or the store. */
  datatype Restored = Restored(
    items: seq<JournalItem>, ledger: Ledger, stored: Option<Anchor>, finish: bool,
    discard: Option<Token>, bytes: nat)

  function AnchorCommitment(a: Option<Anchor>): Commitment { if a.Some? then a.value.commitment else Zero }
  function AnchorRevision(a: Option<Anchor>): nat { if a.Some? then a.value.revision else 0 }

  function Restore(s: Snapshot, anchored: Option<Anchor>): Result<Restored> {
    if !Captured(s.revision, s.entries) then Err("snapshot")
    else
      var walked := Walk(s.entries);
      if walked.Err? then Err(walked.error)
      else
        var last := walked.value.last;
        var revision := if last.Some? then last.value.payload.revision else 0;
        if revision != s.revision || (last.None? && anchored.Some?) then Err("rollback or eviction")
        else
          var stored := if last.Some? then Some(Anchor(revision, Digest(last.value))) else None;
          var recovery := ClassifyRecovery(
            s.revision, AnchorRevision(anchored), anchored == stored,
            last.Some? && last.value.payload.parent == AnchorCommitment(anchored), true);
          if recovery == Reject then Err("rollback or substitution")
          else Ok(Restored(walked.value.items, walked.value.ledger, stored, recovery == FinishAnchor,
                           if s.pending.Some? then Some(s.pending.value.token) else None,
                           TotalLength(s.entries)))
  }

  // ---------------------------------------------------------------- the outbox

  predicate PublicationOpens(p: Publication) {
    && p.cipher.PublicationSealed?
    && p.cipher.revision == p.revision
    && p.cipher.id == p.id
    && p.cipher.token == p.token
    && p.cipher.frame == p.id
  }

  datatype Outbox = Outbox(frames: seq<Frame>, bindings: map<Frame, Binding>)

  predicate TokenSeen(bindings: map<Frame, Binding>, token: Token) {
    exists id :: id in bindings && bindings[id].token == token
  }

  function ReadQueue(publications: seq<Publication>, ledger: Ledger, current: nat): Option<Outbox> {
    if publications == [] then Some(Outbox([], map[]))
    else
      var before := ReadQueue(publications[..|publications| - 1], ledger, current);
      var p := publications[|publications| - 1];
      if before.None? || !AcceptedToken(ledger, p.token, p.revision, current)
         || p.id in before.value.bindings || TokenSeen(before.value.bindings, p.token)
         || !PublicationOpens(p) then None
      else Some(Outbox(before.value.frames + [p.cipher.frame],
                       before.value.bindings[p.id := Binding(p.token, p.revision)]))
  }

  function ReadPublications(publications: seq<Publication>, ledger: Ledger, current: nat): Result<Outbox> {
    if |publications| > MAX_PUBLICATIONS
       || PublicationBytes(publications) > MAX_PUBLICATION_BYTES
       || exists i :: 0 <= i < |publications| && !(1 <= publications[i].bytes <= MAX_STORED_PUBLICATION) then Err("queue")
    else
      var q := ReadQueue(publications, ledger, current);
      if q.None? then Err("not bound to the accepted branch") else Ok(q.value)
  }

  // ---------------------------------------------------------------- the chain behind a commitment

  /** Every entry a commitment stands on, oldest first. */
  function Ancestry(c: Commitment): seq<Entry> {
    match c
    case Zero => []
    case Digest(e) => (if e.Entry? then Ancestry(e.payload.parent) else []) + [e]
  }

  /** The entries since the last checkpoint at or below a commitment. */
  function SinceCheckpoint(c: Commitment): seq<Entry> {
    match c
    case Zero => []
    case Digest(e) =>
      if e.Malformed? || e.payload.marker == 1 then [e] else SinceCheckpoint(e.payload.parent) + [e]
  }

  /** A walk that succeeds can only have walked the chain behind its last entry. */
  lemma {:induction false} WalkIsSinceCheckpoint(entries: seq<Entry>)
    requires Walk(entries).Ok?
    ensures entries == SinceCheckpoint(LastCommitment(Walk(entries).value.last))
  {
    if entries != [] {
      var front, e := entries[..|entries| - 1], entries[|entries| - 1];
      WalkIsSinceCheckpoint(front);
      SplitLast(entries);
    }
  }

  /** Rollback and substitution: what `restore` accepts ends at the anchored commitment, or at one
      entry sealed on top of it, and that last commitment determines the whole accepted list. */
  lemma RestoreIsAnchored(s: Snapshot, anchored: Option<Anchor>)
    requires Restore(s, anchored).Ok?
    ensures var r := Restore(s, anchored).value;
      && s.entries == SinceCheckpoint(AnchorCommitment(r.stored))
      && s.revision == AnchorRevision(r.stored)
      && (!r.finish ==> r.stored == anchored)
      && (r.finish ==>
            && r.stored.Some?
            && r.stored.value.revision == AnchorRevision(anchored) + 1
            && r.stored.value.commitment.Digest?
            && MarkerVerifies(r.stored.value.commitment.entry)
            && r.stored.value.commitment.entry.payload.parent == AnchorCommitment(anchored))
  {
    WalkIsSinceCheckpoint(s.entries);
  }

  /** Two stores that restore against one anchor without moving it hold the same accepted entries. */
  lemma RestoreIsUnique(s: Snapshot, s': Snapshot, anchored: Option<Anchor>)
    requires Restore(s, anchored).Ok? && Restore(s', anchored).Ok?
    requires Restore(s, anchored).value.stored == Restore(s', anchored).value.stored
    ensures s.entries == s'.entries
    ensures Restore(s, anchored).value.items == Restore(s', anchored).value.items
    ensures Restore(s, anchored).value.ledger == Restore(s', anchored).value.ledger
  {
    RestoreIsAnchored(s, anchored);
    RestoreIsAnchored(s', anchored);
    RestoreWalks(s, anchored);
    RestoreWalks(s', anchored);
  }

  lemma RestoreWalks(s: Snapshot, anchored: Option<Anchor>)
    requires Restore(s, anchored).Ok?
    ensures Walk(s.entries).Ok?
    ensures Restore(s, anchored).value.items == Walk(s.entries).value.items
    ensures Restore(s, anchored).value.ledger == Walk(s.entries).value.ledger
  {}

  /** An older store, or one that shares the anchored revision but not its commitment, is refused. */
  lemma RollbackIsRefused(s: Snapshot, anchored: Anchor)
    requires s.revision < anchored.revision
             || (s.revision == anchored.revision && s.entries != []
                 && Digest(s.entries[|s.entries| - 1]) != anchored.commitment)
             || s.revision > anchored.revision + 1
    ensures Restore(s, Some(anchored)).Err?
  {
    if Restore(s, Some(anchored)).Ok? {
      RestoreIsAnchored(s, Some(anchored));
      assert false;
    }
  }

  // ---------------------------------------------------------------- walking an honest chain

  function LedgerOf(entries: seq<Entry>): Ledger {
    if Walk(entries).Ok? then Walk(entries).value.ledger else map[]
  }

  function Items(entries: seq<Entry>): seq<JournalItem> {
    if Walk(entries).Ok? then Walk(entries).value.items else []
  }

  lemma WalkAppend(entries: seq<Entry>, e: Entry)
    requires Walk(entries).Ok?
    ensures Walk(entries + [e]) == WalkEntry(Walk(entries).value, e)
  {
    assert (entries + [e])[..|entries|] == entries;
  }

  function Tokens(bindings: seq<Binding>): set<Token> { set b | b in bindings :: b.token }

  lemma TokensAppend(front: seq<Binding>, b: Binding)
    ensures Tokens(front + [b]) == Tokens(front) + {b.token}
  {
    forall t | t in Tokens(front) + {b.token} ensures t in Tokens(front + [b]) {
      if t == b.token {
        assert (front + [b])[|front|] == b;
      } else {
        var c :| c in front && c.token == t;
        assert c in front + [b];
      }
    }
  }

  lemma InsertOne(ledger: Ledger, b: Binding)
    requires b.token !in ledger
    ensures ledger[b.token := b.revision].Keys == ledger.Keys + {b.token}
    ensures |ledger[b.token := b.revision]| == |ledger| + 1
  {
    assert ledger[b.token := b.revision].Keys == ledger.Keys + {b.token};
  }

  lemma KeysStep(ledger: Ledger, front: seq<Binding>, b: Binding, mid: Ledger)
    requires mid.Keys == ledger.Keys + Tokens(front) && |mid| == |ledger| + |front| && b.token !in mid
    ensures mid[b.token := b.revision].Keys == ledger.Keys + Tokens(front + [b])
    ensures |mid[b.token := b.revision]| == |ledger| + |front| + 1
  {
    TokensAppend(front, b);
    InsertOne(mid, b);
  }

  /** A successful fold adds exactly the tokens of its bindings. */
  lemma {:induction false} RecordAllKeys(ledger: Ledger, bindings: seq<Binding>, revision: nat, checkpoint: bool)
    requires RecordAll(ledger, bindings, revision, checkpoint).Some?
    ensures var after := RecordAll(ledger, bindings, revision, checkpoint).value;
      after.Keys == ledger.Keys + Tokens(bindings) && |after| == |ledger| + |bindings|
  {
    if bindings != [] {
      var front, b := bindings[..|bindings| - 1], bindings[|bindings| - 1];
      RecordAllKeys(ledger, front, revision, checkpoint);
      SplitLast(bindings);
      KeysStep(ledger, front, b, RecordAll(ledger, front, revision, checkpoint).value);
    } else {
      assert Tokens(bindings) == {};
    }
  }

  /** A successful fold keeps what was bound and binds each new token to its stated revision. */
  lemma {:induction false} RecordAllValues(ledger: Ledger, bindings: seq<Binding>, revision: nat, checkpoint: bool)
    requires RecordAll(ledger, bindings, revision, checkpoint).Some?
    ensures var after := RecordAll(ledger, bindings, revision, checkpoint).value;
      && (forall t :: t in ledger ==> t in after && after[t] == ledger[t])
      && (forall b :: b in bindings ==>
            && b.token in after && after[b.token] == b.revision
            && 1 <= b.revision <= revision && (checkpoint || b.revision == revision))
  {
    if bindings != [] {
      var front, b := bindings[..|bindings| - 1], bindings[|bindings| - 1];
      RecordAllValues(ledger, front, revision, checkpoint);
      SplitLast(bindings);
    }
  }

  /** Folding succeeds when the tokens are new and distinct, the revisions fit and there is room. */
  lemma {:induction false} RecordAllSucceeds(ledger: Ledger, bindings: seq<Binding>, revision: nat, checkpoint: bool)
    requires forall b :: b in bindings ==>
               b.token !in ledger && 1 <= b.revision <= revision && (checkpoint || b.revision == revision)
    requires forall i, j :: 0 <= i < j < |bindings| ==> bindings[i].token != bindings[j].token
    requires |ledger| + |bindings| <= MAX_LEDGER
    ensures RecordAll(ledger, bindings, revision, checkpoint).Some?
  {
    if bindings != [] {
      var front, b := bindings[..|bindings| - 1], bindings[|bindings| - 1];
      RecordAllSucceeds(ledger, front, revision, checkpoint);
      RecordAllKeys(ledger, front, revision, checkpoint);
      assert b.token !in Tokens(front);
      assert b in bindings;
    }
  }
}
