/** The plain snapshot machine behind a journal store: `staged`, `committed`, `discarded` and the
    outbox update as functions from snapshot to snapshot. */
module JournalStoreSpec {
  import opened Common
  import opened DocumentTypes

  datatype StageDecision = Accept | Conflict | Capacity

  function ClassifyStage(revision: nat, expected: nat, hasPending: bool, checkpoint: bool,
                         entries: nat, retainedBytes: nat, entryBytes: nat): StageDecision
  {
    if revision != expected || revision == MAX_SAFE_INTEGER || hasPending then Conflict
    else if entryBytes + ACCEPTED_OVERHEAD > MAX_JOURNAL_BYTES
         || (!checkpoint && (entries >= MAX_JOURNAL_ENTRIES
                             || entryBytes + ACCEPTED_OVERHEAD + retainedBytes > MAX_JOURNAL_BYTES)) then Capacity
    else Accept
  }

  predicate CommitCurrent(revision: nat, expected: nat, sameToken: bool, sameCheckpoint: bool) {
    revision == expected && revision < MAX_SAFE_INTEGER && sameToken && sameCheckpoint
  }

  /** One row of the outbox index kept in a journal head. */
  datatype IndexRow = IndexRow(id: Frame, bytes: nat)

  function Index(publications: seq<Publication>): seq<IndexRow> {
    seq(|publications|, i requires 0 <= i < |publications| =>
      IndexRow(publications[i].id, publications[i].bytes))
  }

  function IndexBytes(index: seq<IndexRow>): nat {
    if index == [] then 0 else IndexBytes(index[..|index| - 1]) + index[|index| - 1].bytes
  }

  predicate Queued(index: seq<IndexRow>, id: Frame) {
    exists i :: 0 <= i < |index| && index[i].id == id
  }

  /** Whether one more publication of `bytes` bytes may join the queue. */
  predicate Admits(index: seq<IndexRow>, id: Frame, bytes: nat) {
    && !Queued(index, id)
    && |index| < MAX_PUBLICATIONS
    && IndexBytes(index) + bytes <= MAX_PUBLICATION_BYTES
  }

  function Without(publications: seq<Publication>, id: Frame): seq<Publication> {
    if publications == [] then []
    else
      var last := publications[|publications| - 1];
      Without(publications[..|publications| - 1], id) + if last.id == id then [] else [last]
  }

  function IndexWithout(index: seq<IndexRow>, id: Frame): seq<IndexRow> {
    if index == [] then []
    else
      var last := index[|index| - 1];
      IndexWithout(index[..|index| - 1], id) + if last.id == id then [] else [last]
  }

  const EmptySnapshot := Snapshot(0, [], [], None)

  predicate ValidReservation(r: Reservation) { 1 <= r.bytes <= MAX_STORED_PUBLICATION }
  predicate ValidPublication(p: Publication) { 1 <= p.bytes <= MAX_STORED_PUBLICATION }

  function Staged(s: Snapshot, revision: nat, token: Token, payload: Payload,
                  publication: Option<Reservation>, checkpoint: bool): Result<Snapshot>
  {
    if revision > MAX_SAFE_INTEGER || !(1 <= payload.length <= MAX_JOURNAL_BYTES)
       || (publication.Some? && !ValidReservation(publication.value)) then Err("invalid input")
    else
      match ClassifyStage(s.revision, revision, s.pending.Some?, checkpoint, |s.entries|,
                          TotalLength(s.entries), payload.length)
      case Conflict => Err("conflict")
      case Capacity => Err("capacity")
      case Accept =>
        if publication.Some?
           && !Admits(Index(s.publications), publication.value.id, publication.value.bytes) then Err("outbox")
        else Ok(s.(pending := Some(Pending(token, payload, checkpoint, publication))))
  }

  function Appended(s: Snapshot, checkpoint: bool, entry: Entry): seq<Entry> {
    if checkpoint then [entry] else s.entries + [entry]
  }

  function Committed(s: Snapshot, revision: nat, token: Token, checkpoint: bool, entry: Entry,
                     publication: Option<Publication>): Result<Snapshot>
  {
    if revision > MAX_SAFE_INTEGER || !(1 <= EntryLength(entry) <= MAX_JOURNAL_BYTES)
       || (publication.Some? && !ValidPublication(publication.value)) then Err("invalid input")
    else if s.pending.None?
         || !CommitCurrent(s.revision, revision, s.pending.value.token == token,
                           s.pending.value.checkpoint == checkpoint) then Err("conflict")
    else if EntryLength(entry) != s.pending.value.payload.length + ACCEPTED_OVERHEAD then Err("framing")
    else if s.pending.value.publication.Some? != publication.Some?
         || (publication.Some?
             && (publication.value.id != s.pending.value.publication.value.id
                 || publication.value.bytes != s.pending.value.publication.value.bytes)) then Err("reservation")
    else if |Appended(s, checkpoint, entry)| > MAX_JOURNAL_ENTRIES
         || TotalLength(Appended(s, checkpoint, entry)) > MAX_JOURNAL_BYTES then Err("bound")
    else if publication.Some?
         && !Admits(Index(s.publications), publication.value.id, publication.value.bytes) then Err("outbox")
    else
      Ok(Snapshot(revision + 1, Appended(s, checkpoint, entry),
                  s.publications + (if publication.Some? then [publication.value] else []), None))
  }

  function Discarded(s: Snapshot, token: Token): Snapshot {
    if s.pending.Some? && s.pending.value.token == token then s.(pending := None) else s
  }

  function Sent(s: Snapshot, id: Frame): Snapshot {
    s.(publications := Without(s.publications, id))
  }

  // ---------------------------------------------------------------- invariant

  predicate DistinctIds(publications: seq<Publication>) {
    forall i, j :: 0 <= i < j < |publications| ==> publications[i].id != publications[j].id
  }

  predicate OutboxOk(publications: seq<Publication>) {
    && |publications| <= MAX_PUBLICATIONS
    && DistinctIds(publications)
    && (forall i :: 0 <= i < |publications| ==> ValidPublication(publications[i]))
    && IndexBytes(Index(publications)) <= MAX_PUBLICATION_BYTES
  }

  predicate EntriesOk(revision: nat, entries: seq<Entry>) {
    && |entries| <= MAX_JOURNAL_ENTRIES
    && TotalLength(entries) <= MAX_JOURNAL_BYTES
    && (forall i :: 0 <= i < |entries| ==> 1 <= EntryLength(entries[i]) <= MAX_JOURNAL_BYTES)
    && |entries| <= revision <= MAX_SAFE_INTEGER
    && (revision == 0 <==> entries == [])
  }

  /** A staged entry has already been charged for the accepted form it will take. */
  predicate PendingOk(s: Snapshot) {
    s.pending.Some? ==>
      var p := s.pending.value;
      && s.revision < MAX_SAFE_INTEGER
      && 1 <= p.payload.length
      && p.payload.length + ACCEPTED_OVERHEAD <= MAX_JOURNAL_BYTES
      && (!p.checkpoint ==>
            && |s.entries| < MAX_JOURNAL_ENTRIES
            && TotalLength(s.entries) + p.payload.length + ACCEPTED_OVERHEAD <= MAX_JOURNAL_BYTES)
      && (p.publication.Some? ==> ValidReservation(p.publication.value))
  }

  predicate StoreOk(s: Snapshot) {
    EntriesOk(s.revision, s.entries) && OutboxOk(s.publications) && PendingOk(s)
  }

  // ---------------------------------------------------------------- lemmas

  lemma TotalLengthAppend(entries: seq<Entry>, e: Entry)
    ensures TotalLength(entries + [e]) == TotalLength(entries) + EntryLength(e)
  {
    assert (entries + [e])[..|entries|] == entries;
  }

  lemma IndexAppend(publications: seq<Publication>, p: Publication)
    ensures Index(publications + [p]) == Index(publications) + [IndexRow(p.id, p.bytes)]
    ensures IndexBytes(Index(publications + [p])) == IndexBytes(Index(publications)) + p.bytes
  {
    var row := IndexRow(p.id, p.bytes);
    assert Index(publications + [p]) == Index(publications) + [row];
    assert (Index(publications) + [row])[..|publications|] == Index(publications);
  }

  /** Filtering the rows and filtering their index agree. */
  lemma {:induction false} WithoutMatchesIndex(publications: seq<Publication>, id: Frame)
    ensures Index(Without(publications, id)) == IndexWithout(Index(publications), id)
    ensures IndexBytes(IndexWithout(Index(publications), id)) <= IndexBytes(Index(publications))
  {
    if publications != [] {
      var front, last := publications[..|publications| - 1], publications[|publications| - 1];
      SplitLast(publications);
      IndexAppend(front, last);
      assert Index(publications)[..|publications| - 1] == Index(front);
      WithoutMatchesIndex(front, id);
      if last.id != id {
        IndexAppend(Without(front, id), last);
      } else {
        assert Without(publications, id) == Without(front, id);
      }
    }
  }

  /** Filtering removes exactly the rows with that id. */
  lemma {:induction false} WithoutRemoves(publications: seq<Publication>, id: Frame)
    ensures |Without(publications, id)| <= |publications|
    ensures forall p :: p in Without(publications, id) <==> p in publications && p.id != id
  {
    if publications != [] {
      var front, last := publications[..|publications| - 1], publications[|publications| - 1];
      SplitLast(publications);
      WithoutRemoves(front, id);
    }
  }

  lemma {:induction false} WithoutKeepsDistinct(publications: seq<Publication>, id: Frame)
    requires DistinctIds(publications)
    ensures DistinctIds(Without(publications, id))
  {
    if publications != [] {
      var front, last := publications[..|publications| - 1], publications[|publications| - 1];
      WithoutKeepsDistinct(front, id);
      WithoutRemoves(front, id);
      var kept := Without(front, id);
      forall i | 0 <= i < |kept| ensures kept[i].id != last.id {
        assert kept[i] in front;
      }
    }
  }

  lemma StagedKeepsStore(s: Snapshot, revision: nat, token: Token, payload: Payload,
                         publication: Option<Reservation>, checkpoint: bool)
    requires StoreOk(s)
    ensures var r := Staged(s, revision, token, payload, publication, checkpoint);
      r.Ok? ==> StoreOk(r.value)
  {}

  lemma QueueGrows(publications: seq<Publication>, p: Publication)
    requires OutboxOk(publications) && Admits(Index(publications), p.id, p.bytes) && ValidPublication(p)
    ensures OutboxOk(publications + [p])
  {
    IndexAppend(publications, p);
    forall i | 0 <= i < |publications| ensures publications[i].id != p.id {
      assert Index(publications)[i].id == publications[i].id;
    }
  }

  lemma EntriesGrow(revision: nat, entries: seq<Entry>, after: seq<Entry>, entry: Entry)
    requires EntriesOk(revision, entries) && revision < MAX_SAFE_INTEGER && (after == [entry] || after == entries + [entry])
    requires 1 <= EntryLength(entry) <= MAX_JOURNAL_BYTES && |after| <= MAX_JOURNAL_ENTRIES && TotalLength(after) <= MAX_JOURNAL_BYTES
    ensures EntriesOk(revision + 1, after)
  {}

  lemma CommittedKeepsStore(s: Snapshot, revision: nat, token: Token, checkpoint: bool, entry: Entry,
                            publication: Option<Publication>)
    requires StoreOk(s)
    ensures var r := Committed(s, revision, token, checkpoint, entry, publication);
      r.Ok? ==> StoreOk(r.value)
  {
    if Committed(s, revision, token, checkpoint, entry, publication).Ok? {
      EntriesGrow(s.revision, s.entries, Appended(s, checkpoint, entry), entry);
      if publication.Some? { QueueGrows(s.publications, publication.value); } else { assert s.publications + [] == s.publications; }
    }
  }

  /** Because staging charged the accepted length, committing a staged entry never overflows. */
  lemma CommitNeverOverflows(s: Snapshot, entry: Entry)
    requires StoreOk(s) && s.pending.Some?
    requires EntryLength(entry) == s.pending.value.payload.length + ACCEPTED_OVERHEAD
    ensures |Appended(s, s.pending.value.checkpoint, entry)| <= MAX_JOURNAL_ENTRIES
    ensures TotalLength(Appended(s, s.pending.value.checkpoint, entry)) <= MAX_JOURNAL_BYTES
  {
    TotalLengthAppend(s.entries, entry);
    TotalLengthAppend([], entry);
  }

  lemma SentKeepsStore(s: Snapshot, id: Frame)
    requires StoreOk(s)
    ensures StoreOk(Sent(s, id))
  {
    WithoutMatchesIndex(s.publications, id);
    WithoutRemoves(s.publications, id);
    WithoutKeepsDistinct(s.publications, id);
    var after := Without(s.publications, id);
    forall i | 0 <= i < |after| ensures ValidPublication(after[i]) {
      assert after[i] in after;
    }
  }

  // ---------------------------------------------------------------- exactly when the store accepts

  lemma {:induction false} IndexBytesArePublicationBytes(publications: seq<Publication>)
    ensures IndexBytes(Index(publications)) == PublicationBytes(publications)
  {
    if publications != [] {
      var front, p := publications[..|publications| - 1], publications[|publications| - 1];
      SplitLast(publications);
      IndexAppend(front, p);
      IndexBytesArePublicationBytes(front);
    }
  }

  lemma QueuedIff(publications: seq<Publication>, id: Frame)
    ensures Queued(Index(publications), id) <==> exists p :: p in publications && p.id == id
  {
    if Queued(Index(publications), id) {
      var i :| 0 <= i < |publications| && Index(publications)[i].id == id;
      assert publications[i] in publications;
    }
    if exists p :: p in publications && p.id == id {
      var p :| p in publications && p.id == id;
      var i :| 0 <= i < |publications| && publications[i] == p;
      assert Index(publications)[i].id == id;
    }
  }

  /** One more publication fits: it is new, there are fewer than 16, and 16 MiB hold them all. */
  predicate QueueHasRoom(publications: seq<Publication>, id: Frame, bytes: nat) {
    && (forall p :: p in publications ==> p.id != id)
    && |publications| < 16 && PublicationBytes(publications) + bytes <= 16777216
  }

  lemma AdmitsIff(publications: seq<Publication>, id: Frame, bytes: nat)
    ensures Admits(Index(publications), id, bytes) <==> QueueHasRoom(publications, id, bytes)
  {
    QueuedIff(publications, id);
    IndexBytesArePublicationBytes(publications);
  }

  /** Staging succeeds exactly at the current revision with nothing staged yet, when the accepted form
      of the entry fits 128 MiB, a delta fits together with fewer than 128 retained entries, and the
      publication fits the queue. Then it sets the pending row and nothing else. */
  lemma StagedIff(s: Snapshot, revision: nat, token: Token, payload: Payload, publication: Option<Reservation>, checkpoint: bool)
    ensures var r := Staged(s, revision, token, payload, publication, checkpoint);
      && (r.Ok? <==>
            && s.revision == revision < 9007199254740991 && s.pending.None?
            && 1 <= payload.length && payload.length + 32 <= 134217728
            && (!checkpoint ==> |s.entries| < 128 && TotalLength(s.entries) + payload.length + 32 <= 134217728)
            && (publication.Some? ==>
                  && 1 <= publication.value.bytes <= 1048648
                  && QueueHasRoom(s.publications, publication.value.id, publication.value.bytes)))
      && (r.Ok? ==> r.value == Snapshot(s.revision, s.entries, s.publications, Some(Pending(token, payload, checkpoint, publication))))
  {
    if publication.Some? { AdmitsIff(s.publications, publication.value.id, publication.value.bytes); }
  }

  /** What a refused staging says, for inputs within the store's own bounds. */
  lemma StageRefusalIs(s: Snapshot, revision: nat, token: Token, payload: Payload, publication: Option<Reservation>, checkpoint: bool)
    requires revision <= 9007199254740991 && 1 <= payload.length <= 134217728
    requires publication.Some? ==> 1 <= publication.value.bytes <= 1048648
    ensures var r := Staged(s, revision, token, payload, publication, checkpoint);
      && (r == Err("conflict") <==> s.revision != revision || s.revision == 9007199254740991 || s.pending.Some?)
      && (r == Err("capacity") <==>
            && s.revision == revision < 9007199254740991 && s.pending.None?
            && (payload.length + 32 > 134217728
                || (!checkpoint && (|s.entries| >= 128 || TotalLength(s.entries) + payload.length + 32 > 134217728))))
  {}

  lemma AppendedFits(s: Snapshot, checkpoint: bool, entry: Entry)
    ensures Appended(s, checkpoint, entry) == if checkpoint then [entry] else s.entries + [entry]
    ensures |Appended(s, checkpoint, entry)| <= MAX_JOURNAL_ENTRIES && TotalLength(Appended(s, checkpoint, entry)) <= MAX_JOURNAL_BYTES <==>
              && EntryLength(entry) <= 134217728
              && (!checkpoint ==> |s.entries| < 128 && TotalLength(s.entries) + EntryLength(entry) <= 134217728)
  {
    TotalLengthAppend(s.entries, entry);
    TotalLengthAppend([], entry);
    assert [] + [entry] == [entry];
  }

  /** The publication given is the one that was reserved. */
  predicate AsReserved(publication: Option<Publication>, reserved: Option<Reservation>) {
    if publication.None? then reserved.None?
    else reserved == Some(Reservation(publication.value.id, publication.value.bytes))
  }

  /** A commit succeeds exactly at the current revision, for the staged token, mode, entry length and
      publication, when entries and queue stay within bounds. */
  lemma CommittedIff(s: Snapshot, revision: nat, token: Token, checkpoint: bool, entry: Entry, publication: Option<Publication>)
    ensures Committed(s, revision, token, checkpoint, entry, publication).Ok? <==>
              && s.revision == revision < 9007199254740991
              && s.pending.Some? && s.pending.value.token == token && s.pending.value.checkpoint == checkpoint
              && EntryLength(entry) == s.pending.value.payload.length + 32 && EntryLength(entry) <= 134217728
              && (!checkpoint ==> |s.entries| < 128 && TotalLength(s.entries) + EntryLength(entry) <= 134217728)
              && AsReserved(publication, s.pending.value.publication)
              && (publication.Some? ==>
                    && 1 <= publication.value.bytes <= 1048648
                    && QueueHasRoom(s.publications, publication.value.id, publication.value.bytes))
  {
    if publication.Some? { AdmitsIff(s.publications, publication.value.id, publication.value.bytes); }
    AppendedFits(s, checkpoint, entry);
  }

  /** Then the entry is appended, or at a checkpoint replaces all others, the publication joins the end
      of the queue and the pending row is gone. */
  lemma CommittedValue(s: Snapshot, revision: nat, token: Token, checkpoint: bool, entry: Entry, publication: Option<Publication>)
    requires Committed(s, revision, token, checkpoint, entry, publication).Ok?
    ensures Committed(s, revision, token, checkpoint, entry, publication).value
            == Snapshot(s.revision + 1, if checkpoint then [entry] else s.entries + [entry],
                        s.publications + (if publication.Some? then [publication.value] else []), None)
  {}
}
