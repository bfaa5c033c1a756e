/** The two journal stores: one map of snapshots, and the indexed multi-table store whose rows and
    head index must describe the same snapshot. */
module JournalStores {
  import opened Common
  import opened DocumentTypes
  import opened JournalStoreSpec

  type Key = string

  datatype PendingIndex = PendingIndex(token: Token, bytes: nat, checkpoint: bool, publicationBytes: nat)
  datatype Head = Head(
    revision: nat, revisions: seq<nat>, bytes: nat, publications: seq<IndexRow>,
    pending: Option<PendingIndex>)
  datatype PendingRow = PendingRow(token: Token, payload: Payload, publication: Option<Reservation>)

  /** The four object stores of the database. */
  datatype Tables = Tables(
    heads: map<Key, Head>, entries: EntryTable, pending: map<Key, PendingRow>,
    publications: PublicationTable)

  const NoHead := Head(0, [], 0, [], None)

  function HeadOf(t: Tables, key: Key): Head {
    if key in t.heads then t.heads[key] else NoHead
  }

  /** The revision index is a contiguous run ending at the head revision. */
  predicate RevisionIndexValid(revision: nat, revisions: seq<nat>, bytes: nat) {
    && |revisions| <= MAX_JOURNAL_ENTRIES
    && |revisions| <= bytes
    && (revisions == [] ==> revision == 0 && bytes == 0)
    && (forall i :: 0 <= i < |revisions| ==> 1 <= revisions[i] == revision - (|revisions| - 1 - i))
  }

  /** The checks `readHead` makes before any row is requested. */
  predicate HeadValid(h: Head) {
    && h.revision <= MAX_SAFE_INTEGER
    && h.bytes <= MAX_JOURNAL_BYTES
    && RevisionIndexValid(h.revision, h.revisions, h.bytes)
    && |h.publications| <= MAX_PUBLICATIONS
    && (forall i :: 0 <= i < |h.publications| ==> 1 <= h.publications[i].bytes <= MAX_STORED_PUBLICATION)
    && (forall i, j :: 0 <= i < j < |h.publications| ==> h.publications[i].id != h.publications[j].id)
    && IndexBytes(h.publications) <= MAX_PUBLICATION_BYTES
    && (h.pending.Some? ==>
          && 1 <= h.pending.value.bytes <= MAX_JOURNAL_BYTES
          && h.pending.value.publicationBytes <= MAX_STORED_PUBLICATION)
  }

  type EntryTable = map<(Key, nat), Entry>
  type PublicationTable = map<(Key, Frame), Publication>

  predicate EntriesPresent(table: EntryTable, key: Key, revisions: seq<nat>) {
    forall i :: 0 <= i < |revisions| ==> (key, revisions[i]) in table
  }

  predicate PublicationsPresent(table: PublicationTable, key: Key, index: seq<IndexRow>) {
    forall i :: 0 <= i < |index| ==> (key, index[i].id) in table
  }

  ghost predicate EntriesExact(table: EntryTable, key: Key, revisions: seq<nat>) {
    forall r :: (key, r) in table ==> r in revisions
  }

  ghost predicate PublicationsExact(table: PublicationTable, key: Key, index: seq<IndexRow>) {
    forall id :: (key, id) in table ==> Queued(index, id)
  }

  function EntryRows(table: EntryTable, key: Key, revisions: seq<nat>): seq<Entry>
    requires EntriesPresent(table, key, revisions)
  {
    seq(|revisions|, i requires 0 <= i < |revisions| => table[(key, revisions[i])])
  }

  function PublicationRows(table: PublicationTable, key: Key, index: seq<IndexRow>): seq<Publication>
    requires PublicationsPresent(table, key, index)
  {
    seq(|index|, i requires 0 <= i < |index| => table[(key, index[i].id)])
  }

  /** Every row the head names exists. */
  predicate RowsPresent(t: Tables, key: Key) {
    var h := HeadOf(t, key);
    && EntriesPresent(t.entries, key, h.revisions)
    && PublicationsPresent(t.publications, key, h.publications)
    && (h.pending.Some? ==> key in t.pending)
  }

  /** No row exists that the head does not name. */
  ghost predicate NoOrphans(t: Tables, key: Key) {
    var h := HeadOf(t, key);
    && EntriesExact(t.entries, key, h.revisions)
    && PublicationsExact(t.publications, key, h.publications)
    && (key in t.pending ==> h.pending.Some?)
  }

  /** The snapshot the tables stand for. */
  function View(t: Tables, key: Key): Snapshot
    requires RowsPresent(t, key)
  {
    var h := HeadOf(t, key);
    Snapshot(
      h.revision,
      EntryRows(t.entries, key, h.revisions),
      PublicationRows(t.publications, key, h.publications),
      if h.pending.None? then None
      else
        var row := t.pending[key];
        Some(Pending(row.token, row.payload, h.pending.value.checkpoint, row.publication)))
  }

  /** Head index and rows agree for one document. */
  ghost predicate KeyOk(t: Tables, key: Key) {
    && RowsPresent(t, key)
    && NoOrphans(t, key)
    && HeadValid(HeadOf(t, key))
    && StoreOk(View(t, key))
    && var h, s := HeadOf(t, key), View(t, key);
    && h.bytes == TotalLength(s.entries)
    && h.publications == Index(s.publications)
    && (h.pending.Some? ==>
          && h.pending.value.token == s.pending.value.token
          && h.pending.value.bytes == s.pending.value.payload.length
          && h.pending.value.publicationBytes ==
             if s.pending.value.publication.Some? then s.pending.value.publication.value.bytes else 0)
  }

  /** Two table states hold the same rows for `key`. */
  ghost predicate SameKey(t: Tables, t': Tables, key: Key) {
    && HeadOf(t, key) == HeadOf(t', key)
    && (forall r :: (key, r) in t.entries <==> (key, r) in t'.entries)
    && (forall r :: (key, r) in t.entries ==> t.entries[(key, r)] == t'.entries[(key, r)])
    && (forall id :: (key, id) in t.publications <==> (key, id) in t'.publications)
    && (forall id :: (key, id) in t.publications ==> t.publications[(key, id)] == t'.publications[(key, id)])
    && (key in t.pending <==> key in t'.pending)
    && (key in t.pending ==> t.pending[key] == t'.pending[key])
  }

  lemma SameKeySameView(t: Tables, t': Tables, key: Key)
    requires KeyOk(t, key) && SameKey(t, t', key)
    ensures KeyOk(t', key) && View(t', key) == View(t, key)
  {
    assert RowsPresent(t', key);
    var s, s' := View(t, key), View(t', key);
    assert s.entries == s'.entries;
    assert s.publications == s'.publications;
  }

  // ---------------------------------------------------------------- table transactions

  function StageTx(t: Tables, key: Key, token: Token, payload: Payload,
                   publication: Option<Reservation>, checkpoint: bool): Tables
  {
    var h := HeadOf(t, key);
    t.(pending := t.pending[key := PendingRow(token, payload, publication)],
       heads := t.heads[key := h.(pending := Some(PendingIndex(
         token, payload.length, checkpoint, if publication.Some? then publication.value.bytes else 0)))])
  }

  function CommitTx(t: Tables, key: Key, revision: nat, checkpoint: bool, entry: Entry,
                    publication: Option<Publication>): Tables
  {
    var h := HeadOf(t, key);
    var next := revision + 1;
    Tables(
      t.heads[key := Head(
        next,
        if checkpoint then [next] else h.revisions + [next],
        if checkpoint then EntryLength(entry) else h.bytes + EntryLength(entry),
        h.publications + (if publication.Some? then [IndexRow(publication.value.id, publication.value.bytes)] else []),
        None)],
      WriteEntry(t.entries, key, h.revisions, next, checkpoint, entry),
      t.pending - {key},
      if publication.Some? then t.publications[(key, publication.value.id) := publication.value] else t.publications)
  }

  function DiscardTx(t: Tables, key: Key): Tables {
    t.(pending := t.pending - {key}, heads := t.heads[key := HeadOf(t, key).(pending := None)])
  }

  function SentTx(t: Tables, key: Key, id: Frame): Tables {
    var h := HeadOf(t, key);
    t.(publications := t.publications - {(key, id)},
       heads := t.heads[key := h.(publications := IndexWithout(h.publications, id))])
  }

  // ---------------------------------------------------------------- simulation

  lemma StageSimulates(t: Tables, key: Key, revision: nat, token: Token, payload: Payload,
                       publication: Option<Reservation>, checkpoint: bool)
    requires KeyOk(t, key)
    requires Staged(View(t, key), revision, token, payload, publication, checkpoint).Ok?
    ensures var t' := StageTx(t, key, token, payload, publication, checkpoint);
      && KeyOk(t', key)
      && Ok(View(t', key)) == Staged(View(t, key), revision, token, payload, publication, checkpoint)
  {
    var t' := StageTx(t, key, token, payload, publication, checkpoint);
    var s := View(t, key);
    StagedKeepsStore(s, revision, token, payload, publication, checkpoint);
    assert RowsPresent(t', key);
    assert View(t', key).entries == s.entries;
    assert View(t', key).publications == s.publications;
  }

  lemma DiscardSimulates(t: Tables, key: Key, token: Token)
    requires KeyOk(t, key)
    requires HeadOf(t, key).pending.Some? && HeadOf(t, key).pending.value.token == token
    ensures KeyOk(DiscardTx(t, key), key)
    ensures View(DiscardTx(t, key), key) == Discarded(View(t, key), token)
  {
    var t' := DiscardTx(t, key);
    assert RowsPresent(t', key);
    assert View(t', key).entries == View(t, key).entries;
    assert View(t', key).publications == View(t, key).publications;
  }

  function WriteEntry(table: EntryTable, key: Key, revisions: seq<nat>, next: nat, checkpoint: bool, entry: Entry): EntryTable {
    var written := table[(key, next) := entry];
    if checkpoint then written - (set r | r in revisions :: (key, r)) else written
  }

  lemma CommitEntryRows(table: EntryTable, key: Key, revisions: seq<nat>, next: nat, checkpoint: bool, entry: Entry)
    requires EntriesPresent(table, key, revisions) && EntriesExact(table, key, revisions)
    requires next !in revisions
    ensures var table', kept := WriteEntry(table, key, revisions, next, checkpoint, entry),
                                if checkpoint then [next] else revisions + [next];
      && EntriesPresent(table', key, kept) && EntriesExact(table', key, kept)
      && EntryRows(table', key, kept) ==
         if checkpoint then [entry] else EntryRows(table, key, revisions) + [entry]
  {
    var table', kept := WriteEntry(table, key, revisions, next, checkpoint, entry),
                        if checkpoint then [next] else revisions + [next];
    forall i | 0 <= i < |kept| ensures (key, kept[i]) in table' {
      if !checkpoint && i < |revisions| { assert kept[i] == revisions[i]; }
    }
    forall r | (key, r) in table' ensures r in kept {
      if r != next { assert r in revisions; assert !checkpoint; }
      assert next == kept[|kept| - 1];
    }
    if !checkpoint {
      var rows := EntryRows(table', key, kept);
      forall i | 0 <= i < |revisions| ensures rows[i] == EntryRows(table, key, revisions)[i] {
        assert kept[i] == revisions[i] && revisions[i] in revisions;
      }
      assert rows == EntryRows(table, key, revisions) + [entry];
    }
  }

  lemma CommitPublicationRows(table: PublicationTable, key: Key, index: seq<IndexRow>, p: Publication)
    requires PublicationsPresent(table, key, index) && PublicationsExact(table, key, index)
    requires !Queued(index, p.id)
    ensures var table', index' := table[(key, p.id) := p], index + [IndexRow(p.id, p.bytes)];
      && PublicationsPresent(table', key, index') && PublicationsExact(table', key, index')
      && PublicationRows(table', key, index') == PublicationRows(table, key, index) + [p]
  {
    var table', index' := table[(key, p.id) := p], index + [IndexRow(p.id, p.bytes)];
    forall i | 0 <= i < |index'| ensures (key, index'[i].id) in table' {
      if i < |index| { assert index'[i] == index[i]; }
    }
    forall id | (key, id) in table' ensures Queued(index', id) {
      if id == p.id {
        assert index'[|index|].id == id;
      } else {
        var i :| 0 <= i < |index| && index[i].id == id;
        assert index'[i].id == id;
      }
    }
    var rows := PublicationRows(table', key, index');
    forall i | 0 <= i < |index| ensures rows[i] == PublicationRows(table, key, index)[i] {
      assert index'[i] == index[i];
    }
    assert rows == PublicationRows(table, key, index) + [p];
  }

  lemma CommitView(t: Tables, key: Key, revision: nat, checkpoint: bool, entry: Entry,
                   publication: Option<Publication>)
    requires RowsPresent(t, key) && NoOrphans(t, key)
    requires revision + 1 !in HeadOf(t, key).revisions
    requires publication.Some? ==> !Queued(HeadOf(t, key).publications, publication.value.id)
    ensures var t' := CommitTx(t, key, revision, checkpoint, entry, publication);
      && RowsPresent(t', key) && NoOrphans(t', key)
      && View(t', key) == Snapshot(revision + 1, Appended(View(t, key), checkpoint, entry),
           View(t, key).publications + (if publication.Some? then [publication.value] else []), None)
  {
    var h := HeadOf(t, key);
    CommitEntryRows(t.entries, key, h.revisions, revision + 1, checkpoint, entry);
    if publication.Some? {
      CommitPublicationRows(t.publications, key, h.publications, publication.value);
    } else {
      assert h.publications + [] == h.publications;
    }
    var t' := CommitTx(t, key, revision, checkpoint, entry, publication);
    var v := View(t', key);
    assert v.revision == revision + 1 && v.pending == None;
    assert v.entries == Appended(View(t, key), checkpoint, entry);
    assert v.publications == View(t, key).publications + (if publication.Some? then [publication.value] else []);
  }

  lemma CommitHead(h: Head, s: Snapshot, checkpoint: bool, entry: Entry)
    requires HeadValid(h) && h.bytes == TotalLength(s.entries) && h.revision == s.revision
    requires 1 <= EntryLength(entry)
    ensures var next := h.revision + 1;
            var bytes := if checkpoint then EntryLength(entry) else h.bytes + EntryLength(entry);
      && bytes == TotalLength(Appended(s, checkpoint, entry))
      && (|Appended(s, checkpoint, entry)| <= MAX_JOURNAL_ENTRIES && |s.entries| == |h.revisions| ==>
            RevisionIndexValid(next, if checkpoint then [next] else h.revisions + [next], bytes))
  {
    TotalLengthAppend(s.entries, entry);
    TotalLengthAppend([], entry);
    assert [] + [entry] == [entry];
  }

  lemma FreshRevision(h: Head)
    requires HeadValid(h)
    ensures h.revision + 1 !in h.revisions
  {}

  lemma CommitSimulates(t: Tables, key: Key, revision: nat, token: Token, checkpoint: bool, entry: Entry,
                        publication: Option<Publication>)
    requires KeyOk(t, key)
    requires Committed(View(t, key), revision, token, checkpoint, entry, publication).Ok?
    ensures var t' := CommitTx(t, key, revision, checkpoint, entry, publication);
      && KeyOk(t', key)
      && Ok(View(t', key)) == Committed(View(t, key), revision, token, checkpoint, entry, publication)
  {
    var t' := CommitTx(t, key, revision, checkpoint, entry, publication);
    CommitRows(t, key, revision, token, checkpoint, entry, publication, t');
    CommitHeadRow(t, key, revision, token, checkpoint, entry, publication, t');
    KeyFromParts(t', key, View(t', key));
  }

  lemma CommitRows(t: Tables, key: Key, revision: nat, token: Token, checkpoint: bool, entry: Entry,
                   publication: Option<Publication>, t': Tables)
    requires KeyOk(t, key) && t' == CommitTx(t, key, revision, checkpoint, entry, publication)
    requires Committed(View(t, key), revision, token, checkpoint, entry, publication).Ok?
    ensures RowsPresent(t', key) && NoOrphans(t', key) && StoreOk(View(t', key))
    ensures Ok(View(t', key)) == Committed(View(t, key), revision, token, checkpoint, entry, publication)
  {
    CommitFacts(t, key, revision, token, checkpoint, entry, publication);
    CommitView(t, key, revision, checkpoint, entry, publication);
    CommittedIsAppended(View(t, key), revision, token, checkpoint, entry, publication, View(t', key));
  }

  lemma CommitHeadRow(t: Tables, key: Key, revision: nat, token: Token, checkpoint: bool, entry: Entry,
                      publication: Option<Publication>, t': Tables)
    requires KeyOk(t, key) && t' == CommitTx(t, key, revision, checkpoint, entry, publication)
    requires Committed(View(t, key), revision, token, checkpoint, entry, publication).Ok?
    requires RowsPresent(t', key) && StoreOk(View(t', key))
    requires Ok(View(t', key)) == Committed(View(t, key), revision, token, checkpoint, entry, publication)
    ensures HeadValid(HeadOf(t', key)) && HeadOf(t', key).pending.None?
    ensures HeadOf(t', key).bytes == TotalLength(View(t', key).entries)
    ensures HeadOf(t', key).publications == Index(View(t', key).publications)
  {
    var h, s, h', s' := HeadOf(t, key), View(t, key), HeadOf(t', key), View(t', key);
    CommitFacts(t, key, revision, token, checkpoint, entry, publication);
    CommittedFields(s, revision, token, checkpoint, entry, publication, s');
    HeadAfterCommit(t, key, revision, checkpoint, entry, publication);
    Summary(t, key);
    CommitHeadValid(h, s, checkpoint, entry, publication, h', s');
  }

  lemma HeadAfterCommit(t: Tables, key: Key, revision: nat, checkpoint: bool, entry: Entry, publication: Option<Publication>)
    ensures var h := HeadOf(t, key);
      HeadOf(CommitTx(t, key, revision, checkpoint, entry, publication), key)
      == Head(revision + 1, if checkpoint then [revision + 1] else h.revisions + [revision + 1],
              if checkpoint then EntryLength(entry) else h.bytes + EntryLength(entry),
              h.publications + (if publication.Some? then [IndexRow(publication.value.id, publication.value.bytes)] else []),
              None)
  {}

  lemma CommittedFields(s: Snapshot, revision: nat, token: Token, checkpoint: bool, entry: Entry,
                        publication: Option<Publication>, s': Snapshot)
    requires Ok(s') == Committed(s, revision, token, checkpoint, entry, publication)
    ensures s'.revision == s.revision + 1 && s'.entries == Appended(s, checkpoint, entry)
    ensures s'.publications == s.publications + (if publication.Some? then [publication.value] else [])
  {}

  lemma KeyFromParts(t: Tables, key: Key, s: Snapshot)
    requires RowsPresent(t, key) && NoOrphans(t, key) && View(t, key) == s && StoreOk(s) && HeadValid(HeadOf(t, key))
    requires HeadOf(t, key).bytes == TotalLength(s.entries) && HeadOf(t, key).publications == Index(s.publications)
    requires HeadOf(t, key).pending.None?
    ensures KeyOk(t, key)
  {}

  lemma CommitFacts(t: Tables, key: Key, revision: nat, token: Token, checkpoint: bool, entry: Entry,
                    publication: Option<Publication>)
    requires KeyOk(t, key)
    requires Committed(View(t, key), revision, token, checkpoint, entry, publication).Ok?
    ensures revision == HeadOf(t, key).revision && revision + 1 !in HeadOf(t, key).revisions && 1 <= EntryLength(entry)
    ensures publication.Some? ==> !Queued(HeadOf(t, key).publications, publication.value.id)
    ensures StoreOk(Committed(View(t, key), revision, token, checkpoint, entry, publication).value)
  {
    FreshRevision(HeadOf(t, key));
    CommittedKeepsStore(View(t, key), revision, token, checkpoint, entry, publication);
  }

  lemma CommitHeadValid(h: Head, s: Snapshot, checkpoint: bool, entry: Entry, publication: Option<Publication>, h': Head, s': Snapshot)
    requires HeadValid(h) && h.bytes == TotalLength(s.entries) && h.revision == s.revision && |s.entries| == |h.revisions|
    requires h.publications == Index(s.publications) && 1 <= EntryLength(entry)
    requires StoreOk(s') && s'.revision == s.revision + 1 && s'.entries == Appended(s, checkpoint, entry)
    requires s'.publications == s.publications + (if publication.Some? then [publication.value] else [])
    requires h' == Head(h.revision + 1, if checkpoint then [h.revision + 1] else h.revisions + [h.revision + 1],
                        if checkpoint then EntryLength(entry) else h.bytes + EntryLength(entry),
                        h.publications + (if publication.Some? then [IndexRow(publication.value.id, publication.value.bytes)] else []),
                        None)
    ensures HeadValid(h') && h'.bytes == TotalLength(s'.entries) && h'.publications == Index(s'.publications)
  {
    CommitHead(h, s, checkpoint, entry);
    CommitIndex(s.publications, publication);
    HeadFromView(h', s');
  }

  lemma CommittedIsAppended(s: Snapshot, revision: nat, token: Token, checkpoint: bool, entry: Entry,
                            publication: Option<Publication>, s': Snapshot)
    requires Committed(s, revision, token, checkpoint, entry, publication).Ok?
    requires s' == Snapshot(revision + 1, Appended(s, checkpoint, entry),
                            s.publications + (if publication.Some? then [publication.value] else []), None)
    ensures Ok(s') == Committed(s, revision, token, checkpoint, entry, publication)
  {}

  lemma CommitIndex(publications: seq<Publication>, publication: Option<Publication>)
    ensures var added := if publication.Some? then [publication.value] else [];
      Index(publications + added) ==
      Index(publications) + if publication.Some? then [IndexRow(publication.value.id, publication.value.bytes)] else []
  {
    if publication.Some? {
      IndexAppend(publications, publication.value);
    } else {
      assert publications + [] == publications;
    }
  }

  lemma HeadFromView(h: Head, s: Snapshot)
    requires StoreOk(s) && h.revision == s.revision && h.bytes == TotalLength(s.entries)
    requires RevisionIndexValid(h.revision, h.revisions, h.bytes)
    requires h.publications == Index(s.publications)
    requires h.pending.Some? ==> 1 <= h.pending.value.bytes <= MAX_JOURNAL_BYTES
                                 && h.pending.value.publicationBytes <= MAX_STORED_PUBLICATION
    ensures HeadValid(h)
  {
    IndexIsValid(h.publications, s.publications);
  }

  lemma IndexIsValid(index: seq<IndexRow>, publications: seq<Publication>)
    requires OutboxOk(publications) && index == Index(publications)
    ensures |index| <= MAX_PUBLICATIONS && IndexBytes(index) <= MAX_PUBLICATION_BYTES
    ensures forall i :: 0 <= i < |index| ==> 1 <= index[i].bytes <= MAX_STORED_PUBLICATION
    ensures forall i, j :: 0 <= i < j < |index| ==> index[i].id != index[j].id
  {}

  lemma {:induction false} EntriesCost(entries: seq<Entry>)
    requires forall i :: 0 <= i < |entries| ==> 1 <= EntryLength(entries[i])
    ensures |entries| <= TotalLength(entries)
  {
    if entries != [] { EntriesCost(entries[..|entries| - 1]); }
  }

  lemma {:induction false} IndexWithoutKeeps(index: seq<IndexRow>, id: Frame)
    ensures forall row :: row in IndexWithout(index, id) <==> row in index && row.id != id
  {
    if index != [] {
      assert index == index[..|index| - 1] + [index[|index| - 1]];
      IndexWithoutKeeps(index[..|index| - 1], id);
    }
  }

  /** Looking rows up through an index commutes with filtering the index. */
  lemma {:induction false} LookupWithout(table: PublicationTable, key: Key, index: seq<IndexRow>, id: Frame)
    requires PublicationsPresent(table, key, index)
    requires forall i :: 0 <= i < |index| ==> table[(key, index[i].id)].id == index[i].id
    ensures PublicationsPresent(table - {(key, id)}, key, IndexWithout(index, id))
    ensures PublicationRows(table - {(key, id)}, key, IndexWithout(index, id))
            == Without(PublicationRows(table, key, index), id)
  {
    if index != [] {
      var front, last := index[..|index| - 1], index[|index| - 1];
      LookupWithout(table, key, front, id);
      var rows := PublicationRows(table, key, index);
      assert rows[..|rows| - 1] == PublicationRows(table, key, front);
    }
  }

  lemma SentRows(table: PublicationTable, key: Key, index: seq<IndexRow>, id: Frame)
    requires PublicationsPresent(table, key, index) && PublicationsExact(table, key, index)
    requires forall i :: 0 <= i < |index| ==> table[(key, index[i].id)].id == index[i].id
    ensures var table', index' := table - {(key, id)}, IndexWithout(index, id);
      && PublicationsPresent(table', key, index') && PublicationsExact(table', key, index')
      && PublicationRows(table', key, index') == Without(PublicationRows(table, key, index), id)
  {
    var table', index' := table - {(key, id)}, IndexWithout(index, id);
    LookupWithout(table, key, index, id);
    IndexWithoutKeeps(index, id);
    forall q | (key, q) in table' ensures Queued(index', q) {
      var i :| 0 <= i < |index| && index[i].id == q;
      assert index[i] in index';
    }
  }

  lemma SentView(t: Tables, key: Key, id: Frame)
    requires RowsPresent(t, key) && NoOrphans(t, key)
    requires HeadOf(t, key).publications == Index(View(t, key).publications)
    ensures var t' := SentTx(t, key, id);
      && RowsPresent(t', key) && NoOrphans(t', key)
      && View(t', key) == Sent(View(t, key), id)
      && HeadOf(t', key).publications == Index(View(t', key).publications)
  {
    var h, s := HeadOf(t, key), View(t, key);
    forall i | 0 <= i < |h.publications| ensures t.publications[(key, h.publications[i].id)].id == h.publications[i].id {
      assert h.publications[i] == Index(s.publications)[i];
    }
    SentRows(t.publications, key, h.publications, id);
    WithoutMatchesIndex(s.publications, id);
  }

  lemma SentSimulates(t: Tables, key: Key, id: Frame)
    requires KeyOk(t, key)
    ensures KeyOk(SentTx(t, key, id), key)
    ensures View(SentTx(t, key, id), key) == Sent(View(t, key), id)
  {
    SentView(t, key, id);
    SentKeepsStore(View(t, key), id);
    HeadFromView(HeadOf(SentTx(t, key, id), key), Sent(View(t, key), id));
  }

  // ---------------------------------------------------------------- the outbox plan

  datatype PlanDecision = PlanAccept | PlanDuplicate | PlanCapacity

  /** Which queue positions survive when `id` is dropped. */
  function Kept(index: seq<IndexRow>, id: Frame): seq<nat> {
    if index == [] then []
    else Kept(index[..|index| - 1], id) + if index[|index| - 1].id == id then [] else [|index| - 1]
  }

  function Select(publications: seq<Publication>, positions: seq<nat>): seq<Publication>
    requires forall i :: 0 <= i < |positions| ==> positions[i] < |publications|
  {
    seq(|positions|, i requires 0 <= i < |positions| => publications[positions[i]])
  }

  lemma {:induction false} SelectKept(publications: seq<Publication>, id: Frame)
    ensures var kept := Kept(Index(publications), id);
      && (forall i :: 0 <= i < |kept| ==> kept[i] < |publications|)
      && Select(publications, kept) == Without(publications, id)
  {
    if publications != [] {
      var front := publications[..|publications| - 1];
      SelectKept(front, id);
      var index := Index(publications);
      assert index[..|index| - 1] == Index(front);
      assert Select(publications, Kept(Index(front), id)) == Select(front, Kept(Index(front), id));
    }
  }

  lemma {:induction false} NotQueuedKeepsAll(index: seq<IndexRow>, id: Frame)
    requires !Queued(index, id)
    ensures IndexWithout(index, id) == index
  {
    if index != [] {
      var front := index[..|index| - 1];
      assert !Queued(front, id) by {
        forall i | 0 <= i < |front| ensures front[i].id != id { assert index[i].id != id; }
      }
      NotQueuedKeepsAll(front, id);
      assert index[|index| - 1].id != id;
    }
  }

  /** Plan the queue after appending `id`, or after removing it. */
  method PlanPublication(index: seq<IndexRow>, id: Frame, bytes: nat, append: bool)
    returns (decision: PlanDecision, next: seq<IndexRow>, retained: seq<nat>)
    requires IndexBytes(index) <= MAX_PUBLICATION_BYTES
    ensures append ==> (decision == PlanAccept <==> Admits(index, id, bytes))
    ensures !append ==> decision == PlanAccept
    ensures decision == PlanDuplicate <==> append && Queued(index, id)
    ensures decision == PlanAccept ==>
              next == IndexWithout(index, id) + (if append then [IndexRow(id, bytes)] else [])
    ensures decision == PlanAccept ==> retained == Kept(index, id)
  {
    next, retained := [], [];
    var total := 0;
    for i := 0 to |index|
      invariant next == IndexWithout(index[..i], id)
      invariant retained == Kept(index[..i], id)
      invariant total == IndexBytes(next)
      invariant append ==> !Queued(index[..i], id)
    {
      assert index[..i + 1][..i] == index[..i];
      var row := index[i];
      if append && row.id == id {
        assert Queued(index, id);
        return PlanDuplicate, [], [];
      }
      if append || row.id != id {
        assert (next + [row])[..|next|] == next;
        next, retained, total := next + [row], retained + [i], total + row.bytes;
      }
      if append { StillNotQueued(index, i, id); }
    }
    assert index[..|index|] == index;
    if append { NotQueuedKeepsAll(index, id); }
    IndexWithoutShrinks(index, id);
    if total > MAX_PUBLICATION_BYTES
       || (append && (|index| >= MAX_PUBLICATIONS || bytes > MAX_PUBLICATION_BYTES - total)) {
      return PlanCapacity, [], [];
    }
    decision := PlanAccept;
    if append { next := next + [IndexRow(id, bytes)]; }
  }

  lemma StillNotQueued(index: seq<IndexRow>, i: nat, id: Frame)
    requires i < |index| && !Queued(index[..i], id) && index[i].id != id
    ensures !Queued(index[..i + 1], id)
  {
    var done := index[..i + 1];
    forall j | 0 <= j < |done| ensures done[j].id != id {
      if j < i { assert index[..i][j].id != id; }
    }
  }

  lemma {:induction false} IndexWithoutShrinks(index: seq<IndexRow>, id: Frame)
    ensures IndexBytes(IndexWithout(index, id)) <= IndexBytes(index)
  {
    if index != [] {
      var front, last := index[..|index| - 1], index[|index| - 1];
      IndexWithoutShrinks(front, id);
      if last.id != id {
        assert (IndexWithout(front, id) + [last])[..|IndexWithout(front, id)|] == IndexWithout(front, id);
      } else {
        assert IndexWithout(index, id) == IndexWithout(front, id);
      }
    }
  }

  // ---------------------------------------------------------------- whole-database refinement

  ghost predicate AllOk(t: Tables) {
    forall key: Key :: KeyOk(t, key)
  }

  /** The loaded snapshot of any document, present or not. */
  ghost function Loaded(t: Tables, key: Key): Snapshot {
    if RowsPresent(t, key) then View(t, key) else EmptySnapshot
  }

  /** `t'` differs from `t` only in what document `key` loads, which is now `s`. */
  ghost predicate Replaced(t: Tables, t': Tables, key: Key, s: Snapshot) {
    && AllOk(t')
    && forall k: Key :: Loaded(t', k) == if k == key then s else Loaded(t, k)
  }

  lemma OnlyKeyReplaced(t: Tables, t': Tables, key: Key, s: Snapshot)
    requires AllOk(t)
    requires KeyOk(t', key) && View(t', key) == s
    requires forall k: Key :: k != key ==> SameKey(t, t', k)
    ensures Replaced(t, t', key, s)
  {
    forall k: Key ensures KeyOk(t', k) && Loaded(t', k) == if k == key then s else Loaded(t, k) {
      if k != key {
        assert KeyOk(t, k);
        SameKeySameView(t, t', k);
      }
    }
  }

  /** The staging transaction as the database runs it: every check reads only the head. */
  function IndexedStage(t: Tables, key: Key, revision: nat, token: Token, payload: Payload,
                        publication: Option<Reservation>, checkpoint: bool): Result<Tables>
  {
    if StageAllowed(HeadOf(t, key), revision, payload, publication, checkpoint)
    then Ok(StageTx(t, key, token, payload, publication, checkpoint)) else Err("stage")
  }

  predicate StageAllowed(h: Head, revision: nat, payload: Payload, publication: Option<Reservation>, checkpoint: bool) {
    && revision <= MAX_SAFE_INTEGER && 1 <= payload.length <= MAX_JOURNAL_BYTES
    && (publication.Some? ==> ValidReservation(publication.value))
    && ClassifyStage(h.revision, revision, h.pending.Some?, checkpoint, |h.revisions|, h.bytes, payload.length) == Accept
    && (publication.Some? ==> Admits(h.publications, publication.value.id, publication.value.bytes))
  }

  /** The commit transaction: reads the head and the pending row, never an accepted row. */
  function IndexedCommit(t: Tables, key: Key, revision: nat, token: Token, checkpoint: bool, entry: Entry,
                         publication: Option<Publication>): Result<Tables>
  {
    if key in t.pending && CommitAllowed(HeadOf(t, key), t.pending[key], revision, token, checkpoint, entry, publication)
    then Ok(CommitTx(t, key, revision, checkpoint, entry, publication)) else Err("commit")
  }

  /** The staged row, the head and what is being committed agree. */
  predicate CommitMatches(h: Head, row: PendingRow, revision: nat, token: Token, checkpoint: bool, entry: Entry,
                          publication: Option<Publication>)
  {
    && revision <= MAX_SAFE_INTEGER && 1 <= EntryLength(entry) <= MAX_JOURNAL_BYTES
    && (publication.Some? ==> ValidPublication(publication.value))
    && h.pending.Some?
    && CommitCurrent(h.revision, revision, h.pending.value.token == token, h.pending.value.checkpoint == checkpoint)
    && EntryLength(entry) == h.pending.value.bytes + ACCEPTED_OVERHEAD
    && row.token == token && row.payload.length == h.pending.value.bytes
    && row.publication.Some? == publication.Some?
    && (if publication.Some? then publication.value.bytes else 0) == h.pending.value.publicationBytes
    && (publication.Some? ==> row.publication.value.bytes == publication.value.bytes && row.publication.value.id == publication.value.id)
  }

  predicate CommitAllowed(h: Head, row: PendingRow, revision: nat, token: Token, checkpoint: bool, entry: Entry,
                          publication: Option<Publication>)
  {
    && CommitMatches(h, row, revision, token, checkpoint, entry, publication)
    && (publication.Some? ==> Admits(h.publications, publication.value.id, publication.value.bytes))
  }

  function IndexedDiscard(t: Tables, key: Key, token: Token): Tables {
    var h := HeadOf(t, key);
    if h.pending.None? || h.pending.value.token != token then t else DiscardTx(t, key)
  }

  /** Staging in the tables succeeds exactly when staging the loaded snapshot does, with its result. */
  lemma StageRefines(t: Tables, key: Key, revision: nat, token: Token, payload: Payload,
                     publication: Option<Reservation>, checkpoint: bool)
    requires AllOk(t)
    ensures var r, s := IndexedStage(t, key, revision, token, payload, publication, checkpoint),
                        Staged(Loaded(t, key), revision, token, payload, publication, checkpoint);
      && (r.Ok? <==> s.Ok?)
      && (r.Ok? ==> Replaced(t, r.value, key, s.value))
  {
    assert KeyOk(t, key);
    StageDecisionsAgree(t, key, revision, token, payload, publication, checkpoint);
    var r := IndexedStage(t, key, revision, token, payload, publication, checkpoint);
    if r.Ok? {
      StageSimulates(t, key, revision, token, payload, publication, checkpoint);
      forall k: Key | k != key ensures SameKey(t, r.value, k) {
        StageTouchesKey(t, key, token, payload, publication, checkpoint, k);
      }
      OnlyKeyReplaced(t, r.value, key, View(r.value, key));
    }
  }

  lemma StageDecisionsAgree(t: Tables, key: Key, revision: nat, token: Token, payload: Payload,
                            publication: Option<Reservation>, checkpoint: bool)
    requires KeyOk(t, key)
    ensures IndexedStage(t, key, revision, token, payload, publication, checkpoint).Ok?
            <==> Staged(View(t, key), revision, token, payload, publication, checkpoint).Ok?
  {
    Summary(t, key);
    StageAgrees(HeadOf(t, key), View(t, key), revision, token, payload, publication, checkpoint);
  }

  /** What the head says about the snapshot behind it. */
  predicate Summarizes(h: Head, s: Snapshot) {
    && h.revision == s.revision && |h.revisions| == |s.entries| && h.bytes == TotalLength(s.entries)
    && h.publications == Index(s.publications)
    && (h.pending.Some? <==> s.pending.Some?)
    && (h.pending.Some? ==>
          && h.pending.value.token == s.pending.value.token
          && h.pending.value.checkpoint == s.pending.value.checkpoint
          && h.pending.value.bytes == s.pending.value.payload.length
          && h.pending.value.publicationBytes ==
             if s.pending.value.publication.Some? then s.pending.value.publication.value.bytes else 0)
  }

  lemma Summary(t: Tables, key: Key)
    requires KeyOk(t, key)
    ensures Summarizes(HeadOf(t, key), View(t, key))
    ensures key in t.pending <==> View(t, key).pending.Some?
    ensures key in t.pending ==>
              View(t, key).pending.value
              == Pending(t.pending[key].token, t.pending[key].payload, HeadOf(t, key).pending.value.checkpoint, t.pending[key].publication)
  {}

  lemma StageAgrees(h: Head, s: Snapshot, revision: nat, token: Token, payload: Payload,
                    publication: Option<Reservation>, checkpoint: bool)
    requires Summarizes(h, s)
    ensures StageAllowed(h, revision, payload, publication, checkpoint)
            <==> Staged(s, revision, token, payload, publication, checkpoint).Ok?
  {}

  lemma CommitAgrees(h: Head, row: PendingRow, s: Snapshot, revision: nat, token: Token, checkpoint: bool, entry: Entry,
                     publication: Option<Publication>)
    requires Summarizes(h, s) && s.pending.Some? && StoreOk(s)
    requires s.pending.value == Pending(row.token, row.payload, h.pending.value.checkpoint, row.publication)
    ensures CommitAllowed(h, row, revision, token, checkpoint, entry, publication)
            <==> Committed(s, revision, token, checkpoint, entry, publication).Ok?
  {
    if EntryLength(entry) == s.pending.value.payload.length + ACCEPTED_OVERHEAD { CommitNeverOverflows(s, entry); }
  }

  lemma StageTouchesKey(t: Tables, key: Key, token: Token, payload: Payload,
                        publication: Option<Reservation>, checkpoint: bool, k: Key)
    requires k != key
    ensures SameKey(t, StageTx(t, key, token, payload, publication, checkpoint), k)
  {}

  lemma SentTouchesKey(t: Tables, key: Key, id: Frame, k: Key)
    requires k != key
    ensures SameKey(t, SentTx(t, key, id), k)
  {}

  lemma CommitTouchesKey(t: Tables, key: Key, revision: nat, checkpoint: bool, entry: Entry,
                         publication: Option<Publication>, k: Key)
    requires k != key
    ensures SameKey(t, CommitTx(t, key, revision, checkpoint, entry, publication), k)
  {}

  /** Committing in the tables succeeds exactly when committing the loaded snapshot does. */
  lemma CommitRefines(t: Tables, key: Key, revision: nat, token: Token, checkpoint: bool, entry: Entry,
                      publication: Option<Publication>)
    requires AllOk(t)
    ensures var r, s := IndexedCommit(t, key, revision, token, checkpoint, entry, publication),
                        Committed(Loaded(t, key), revision, token, checkpoint, entry, publication);
      && (r.Ok? <==> s.Ok?)
      && (r.Ok? ==> Replaced(t, r.value, key, s.value))
  {
    assert KeyOk(t, key);
    CommitDecisionsAgree(t, key, revision, token, checkpoint, entry, publication);
    var r := IndexedCommit(t, key, revision, token, checkpoint, entry, publication);
    if r.Ok? {
      CommitSimulates(t, key, revision, token, checkpoint, entry, publication);
      forall k: Key | k != key ensures SameKey(t, r.value, k) {
        CommitTouchesKey(t, key, revision, checkpoint, entry, publication, k);
      }
      OnlyKeyReplaced(t, r.value, key, View(r.value, key));
    }
  }

  lemma CommitDecisionsAgree(t: Tables, key: Key, revision: nat, token: Token, checkpoint: bool, entry: Entry,
                             publication: Option<Publication>)
    requires KeyOk(t, key)
    ensures IndexedCommit(t, key, revision, token, checkpoint, entry, publication).Ok?
            <==> Committed(View(t, key), revision, token, checkpoint, entry, publication).Ok?
  {
    Summary(t, key);
    if key in t.pending {
      CommitAgrees(HeadOf(t, key), t.pending[key], View(t, key), revision, token, checkpoint, entry, publication);
    }
  }

  lemma DiscardTouchesKey(t: Tables, key: Key, k: Key)
    requires k != key
    ensures SameKey(t, DiscardTx(t, key), k)
  {}

  lemma DiscardRefines(t: Tables, key: Key, token: Token)
    requires AllOk(t)
    ensures Replaced(t, IndexedDiscard(t, key, token), key, Discarded(Loaded(t, key), token))
  {
    assert KeyOk(t, key);
    Summary(t, key);
    var h := HeadOf(t, key);
    if h.pending.Some? && h.pending.value.token == token {
      DiscardSimulates(t, key, token);
      forall k: Key | k != key ensures SameKey(t, DiscardTx(t, key), k) { DiscardTouchesKey(t, key, k); }
      OnlyKeyReplaced(t, DiscardTx(t, key), key, Discarded(View(t, key), token));
    }
  }

  lemma SentRefines(t: Tables, key: Key, id: Frame)
    requires AllOk(t)
    ensures Replaced(t, SentTx(t, key, id), key, Sent(Loaded(t, key), id))
  {
    assert KeyOk(t, key);
    SentSimulates(t, key, id);
    forall k: Key | k != key ensures SameKey(t, SentTx(t, key, id), k) { SentTouchesKey(t, key, id, k); }
    OnlyKeyReplaced(t, SentTx(t, key, id), key, Sent(View(t, key), id));
  }

  // ---------------------------------------------------------------- every history

  datatype StoreOp =
    | DoStage(key: Key, revision: nat, token: Token, payload: Payload, reservation: Option<Reservation>, checkpoint: bool)
    | DoCommit(key: Key, revision: nat, token: Token, checkpoint: bool, entry: Entry, publication: Option<Publication>)
    | DoDiscard(key: Key, token: Token)
    | DoSent(key: Key, id: Frame)

  type Documents = map<Key, Snapshot>

  function Lookup(d: Documents, key: Key): Snapshot { if key in d then d[key] else EmptySnapshot }

  /** One operation on the snapshot map; a rejected operation changes nothing. */
  function MemoryStep(d: Documents, op: StoreOp): Documents {
    match op
    case DoStage(key, revision, token, payload, reservation, checkpoint) =>
      var r := Staged(Lookup(d, key), revision, token, payload, reservation, checkpoint);
      if r.Ok? then d[key := r.value] else d
    case DoCommit(key, revision, token, checkpoint, entry, publication) =>
      var r := Committed(Lookup(d, key), revision, token, checkpoint, entry, publication);
      if r.Ok? then d[key := r.value] else d
    case DoDiscard(key, token) => d[key := Discarded(Lookup(d, key), token)]
    case DoSent(key, id) => d[key := Sent(Lookup(d, key), id)]
  }

  /** The same operation on the tables; a rejected transaction aborts. */
  function TableStep(t: Tables, op: StoreOp): Tables {
    match op
    case DoStage(key, revision, token, payload, reservation, checkpoint) =>
      var r := IndexedStage(t, key, revision, token, payload, reservation, checkpoint);
      if r.Ok? then r.value else t
    case DoCommit(key, revision, token, checkpoint, entry, publication) =>
      var r := IndexedCommit(t, key, revision, token, checkpoint, entry, publication);
      if r.Ok? then r.value else t
    case DoDiscard(key, token) => IndexedDiscard(t, key, token)
    case DoSent(key, id) => SentTx(t, key, id)
  }

  function MemoryRun(ops: seq<StoreOp>): Documents {
    if ops == [] then map[] else MemoryStep(MemoryRun(ops[..|ops| - 1]), ops[|ops| - 1])
  }

  function TableRun(ops: seq<StoreOp>): Tables {
    if ops == [] then Tables(map[], map[], map[], map[])
    else TableStep(TableRun(ops[..|ops| - 1]), ops[|ops| - 1])
  }

  /** Same loaded snapshot for every document. */
  ghost predicate Simulates(t: Tables, d: Documents) {
    AllOk(t) && forall key: Key :: Loaded(t, key) == Lookup(d, key)
  }

  lemma StepSimulates(t: Tables, d: Documents, op: StoreOp)
    requires Simulates(t, d)
    ensures Simulates(TableStep(t, op), MemoryStep(d, op))
  {
    match op
    case DoStage(key, revision, token, payload, reservation, checkpoint) =>
      StageRefines(t, key, revision, token, payload, reservation, checkpoint);
    case DoCommit(key, revision, token, checkpoint, entry, publication) =>
      CommitRefines(t, key, revision, token, checkpoint, entry, publication);
    case DoDiscard(key, token) => DiscardRefines(t, key, token);
    case DoSent(key, id) => SentRefines(t, key, id);
  }

  /** Over every history of both stores the tables load exactly the snapshots of the map, the head
      counts exactly the retained bytes, and no row is left that the head does not name. */
  lemma {:induction false} StoresAgree(ops: seq<StoreOp>)
    ensures Simulates(TableRun(ops), MemoryRun(ops))
    ensures forall key: Key ::
      && StoreOk(Lookup(MemoryRun(ops), key))
      && HeadOf(TableRun(ops), key).bytes == TotalLength(Lookup(MemoryRun(ops), key).entries)
      && NoOrphans(TableRun(ops), key)
  {
    if ops == [] {
      forall key: Key ensures KeyOk(TableRun(ops), key) { EmptyKeyOk(key); }
    } else {
      StoresAgree(ops[..|ops| - 1]);
      StepSimulates(TableRun(ops[..|ops| - 1]), MemoryRun(ops[..|ops| - 1]), ops[|ops| - 1]);
    }
    forall key: Key ensures StoreOk(Lookup(MemoryRun(ops), key))
      && HeadOf(TableRun(ops), key).bytes == TotalLength(Lookup(MemoryRun(ops), key).entries)
      && NoOrphans(TableRun(ops), key)
    {
      assert KeyOk(TableRun(ops), key);
    }
  }

  lemma EmptyKeyOk(key: Key)
    ensures KeyOk(Tables(map[], map[], map[], map[]), key)
    ensures View(Tables(map[], map[], map[], map[]), key) == EmptySnapshot
  {}
}
