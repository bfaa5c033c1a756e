/** The two stores as objects whose methods update their tables in place. */
module JournalStoreObjects {
  import opened Common
  import opened DocumentTypes
  import opened JournalStoreSpec
  import opened JournalStores

  /** Reference store: one map from document key to snapshot. */
  class InMemoryStore {
    var documents: Documents

    constructor ()
      ensures documents == map[]
    {
      documents := map[];
    }

    method Stage(key: Key, revision: nat, token: Token, payload: Payload,
                 reservation: Option<Reservation>, checkpoint: bool) returns (ok: bool)
      modifies this
      ensures documents == MemoryStep(old(documents), DoStage(key, revision, token, payload, reservation, checkpoint))
      ensures ok == Staged(Lookup(old(documents), key), revision, token, payload, reservation, checkpoint).Ok?
    {
      var r := Staged(Lookup(documents, key), revision, token, payload, reservation, checkpoint);
      ok := r.Ok?;
      if ok { documents := documents[key := r.value]; }
    }

    method Commit(key: Key, revision: nat, token: Token, checkpoint: bool, entry: Entry,
                  publication: Option<Publication>) returns (ok: bool)
      modifies this
      ensures documents == MemoryStep(old(documents), DoCommit(key, revision, token, checkpoint, entry, publication))
      ensures ok == Committed(Lookup(old(documents), key), revision, token, checkpoint, entry, publication).Ok?
    {
      var r := Committed(Lookup(documents, key), revision, token, checkpoint, entry, publication);
      ok := r.Ok?;
      if ok { documents := documents[key := r.value]; }
    }

    method Discard(key: Key, token: Token)
      modifies this
      ensures documents == MemoryStep(old(documents), DoDiscard(key, token))
    {
      documents := documents[key := Discarded(Lookup(documents, key), token)];
    }

    method PublicationSent(key: Key, id: Frame)
      requires StoreOk(Lookup(documents, key))
      modifies this
      ensures documents == MemoryStep(old(documents), DoSent(key, id))
    {
      var s := Lookup(documents, key);
      var _, _, retained := PlanPublication(Index(s.publications), id, 0, false);
      SelectKept(s.publications, id);
      documents := documents[key := s.(publications := Select(s.publications, retained))];
    }
  }

  /** The database: heads, accepted rows, one pending row and outbox rows per document. */
  class IndexedStore {
    var heads: map<Key, Head>
    var entries: EntryTable
    var pending: map<Key, PendingRow>
    var publications: PublicationTable

    ghost function State(): Tables
      reads this
    {
      Tables(heads, entries, pending, publications)
    }

    constructor ()
      ensures AllOk(State())
      ensures forall key: Key :: Loaded(State(), key) == EmptySnapshot
    {
      heads, entries, pending, publications := map[], map[], map[], map[];
      new;
      forall key: Key ensures KeyOk(State(), key) && Loaded(State(), key) == EmptySnapshot { EmptyKeyOk(key); }
    }

    method ReadHead(key: Key) returns (h: Head)
      ensures h == HeadOf(State(), key)
    {
      h := if key in heads then heads[key] else NoHead;
    }

    /** Copy the accepted rows, charging each against the declared byte count. */
    method ReadEntries(key: Key, h: Head) returns (ok: bool, rows: seq<Entry>)
      requires EntriesPresent(entries, key, h.revisions)
      ensures var all := EntryRows(entries, key, h.revisions);
        (h.bytes == TotalLength(all) && forall i :: 0 <= i < |all| ==> 1 <= EntryLength(all[i])) ==>
          ok && rows == all
    {
      ghost var all := EntryRows(entries, key, h.revisions);
      rows := [];
      var copied := 0;
      for i := 0 to |h.revisions|
        invariant rows == all[..i] && copied == TotalLength(rows)
      {
        var row := entries[(key, h.revisions[i])];
        TotalLengthAppend(rows, row);
        assert all[..i + 1] == rows + [row];
        PrefixLength(all, i + 1);
        if EntryLength(row) < 1 || copied + EntryLength(row) > h.bytes {
          return false, rows;
        }
        rows, copied := rows + [row], copied + EntryLength(row);
      }
      assert all[..|all|] == all;
      ok := copied == h.bytes;
    }

    /** Copy the outbox rows, each of which must match its index row. */
    method ReadPublications(key: Key, h: Head) returns (ok: bool, rows: seq<Publication>)
      requires PublicationsPresent(publications, key, h.publications)
      ensures var all := PublicationRows(publications, key, h.publications);
        h.publications == Index(all) ==> ok && rows == all
    {
      ghost var all := PublicationRows(publications, key, h.publications);
      rows := [];
      for i := 0 to |h.publications|
        invariant rows == all[..i]
      {
        var row := publications[(key, h.publications[i].id)];
        assert h.publications == Index(all) ==> h.publications[i] == Index(all)[i];
        if row.id != h.publications[i].id || row.bytes != h.publications[i].bytes {
          return false, rows;
        }
        rows := rows + [row];
      }
      ok := true;
    }

    /** A consistent database always loads, and loads the snapshot its rows stand for. */
    method Load(key: Key) returns (r: Result<Snapshot>)
      requires AllOk(State())
      ensures r == Ok(Loaded(State(), key))
    {
      assert KeyOk(State(), key);
      var h := ReadHead(key);
      var readable, rows := ReadEntries(key, h);
      if !readable { return Err("journal byte index"); }
      var indexed, queue := ReadPublications(key, h);
      if !indexed { return Err("publication index"); }
      var staged: Option<Pending> := None;
      if h.pending.Some? {
        var row := pending[key];
        if row.token != h.pending.value.token || row.payload.length != h.pending.value.bytes {
          return Err("pending index");
        }
        staged := Some(Pending(row.token, row.payload, h.pending.value.checkpoint, row.publication));
      }
      r := Ok(Snapshot(h.revision, rows, queue, staged));
    }

    method Stage(key: Key, revision: nat, token: Token, payload: Payload,
                 reservation: Option<Reservation>, checkpoint: bool) returns (ok: bool)
      requires AllOk(State())
      modifies this
      ensures var r := Staged(old(Loaded(State(), key)), revision, token, payload, reservation, checkpoint);
        && ok == r.Ok?
        && (ok ==> Replaced(old(State()), State(), key, r.value))
      ensures !ok ==> State() == old(State())
    {
      assert KeyOk(State(), key);
      StageRefines(State(), key, revision, token, payload, reservation, checkpoint);
      var h := ReadHead(key);
      if revision > MAX_SAFE_INTEGER || payload.length < 1 || payload.length > MAX_JOURNAL_BYTES
         || (reservation.Some? && !ValidReservation(reservation.value)) {
        return false;
      }
      var decision := ClassifyStage(h.revision, revision, h.pending.Some?, checkpoint, |h.revisions|,
                                    h.bytes, payload.length);
      if decision != Accept { return false; }
      if reservation.Some? {
        var plan, _, _ := PlanPublication(h.publications, reservation.value.id, reservation.value.bytes, true);
        if plan != PlanAccept { return false; }
      }
      pending := pending[key := PendingRow(token, payload, reservation)];
      heads := heads[key := h.(pending := Some(PendingIndex(
        token, payload.length, checkpoint, if reservation.Some? then reservation.value.bytes else 0)))];
      ok := true;
    }

    /** The checks of a commit and the outbox index it would write. */
    method CheckCommit(key: Key, h: Head, revision: nat, token: Token, checkpoint: bool, entry: Entry,
                       publication: Option<Publication>) returns (ok: bool, queue: seq<IndexRow>)
      requires h == HeadOf(State(), key)
      requires h.pending.Some? ==> key in pending
      requires IndexBytes(h.publications) <= MAX_PUBLICATION_BYTES
      ensures ok == IndexedCommit(State(), key, revision, token, checkpoint, entry, publication).Ok?
      ensures ok ==>
                queue == h.publications + (if publication.Some? then [IndexRow(publication.value.id, publication.value.bytes)] else [])
    {
      queue := h.publications;
      if key !in pending || !CommitMatches(h, pending[key], revision, token, checkpoint, entry, publication) {
        return false, queue;
      }
      if publication.Some? {
        var plan, planned, _ := PlanPublication(h.publications, publication.value.id, publication.value.bytes, true);
        if plan != PlanAccept { return false, queue; }
        NotQueuedKeepsAll(h.publications, publication.value.id);
        queue := planned;
      }
      ok := true;
    }

    method Commit(key: Key, revision: nat, token: Token, checkpoint: bool, entry: Entry,
                  publication: Option<Publication>) returns (ok: bool)
      requires AllOk(State())
      modifies this
      ensures var r := Committed(old(Loaded(State(), key)), revision, token, checkpoint, entry, publication);
        && ok == r.Ok?
        && (ok ==> Replaced(old(State()), State(), key, r.value))
      ensures !ok ==> State() == old(State())
    {
      CommitRefines(State(), key, revision, token, checkpoint, entry, publication);
      var h := ReadHead(key);
      assert KeyOk(State(), key);
      var queue;
      ok, queue := CheckCommit(key, h, revision, token, checkpoint, entry, publication);
      if !ok { return; }
      WriteCommit(key, h, revision, checkpoint, entry, publication, queue);
    }

    method WriteCommit(key: Key, h: Head, revision: nat, checkpoint: bool, entry: Entry,
                       publication: Option<Publication>, queue: seq<IndexRow>)
      requires h == HeadOf(State(), key)
      requires queue == h.publications
                + (if publication.Some? then [IndexRow(publication.value.id, publication.value.bytes)] else [])
      modifies this
      ensures State() == CommitTx(old(State()), key, revision, checkpoint, entry, publication)
    {
      var next := revision + 1;
      entries := entries[(key, next) := entry];
      if checkpoint { entries := entries - (set r | r in h.revisions :: (key, r)); }
      if publication.Some? {
        publications := publications[(key, publication.value.id) := publication.value];
      }
      pending := pending - {key};
      heads := heads[key := Head(
        next,
        if checkpoint then [next] else h.revisions + [next],
        if checkpoint then EntryLength(entry) else h.bytes + EntryLength(entry),
        queue,
        None)];
    }

    method Discard(key: Key, token: Token)
      requires AllOk(State())
      modifies this
      ensures Replaced(old(State()), State(), key, Discarded(old(Loaded(State(), key)), token))
    {
      DiscardRefines(State(), key, token);
      var h := ReadHead(key);
      if h.pending.None? || h.pending.value.token != token { return; }
      pending := pending - {key};
      heads := heads[key := h.(pending := None)];
    }

    method PublicationSent(key: Key, id: Frame)
      requires AllOk(State())
      modifies this
      ensures Replaced(old(State()), State(), key, Sent(old(Loaded(State(), key)), id))
    {
      assert KeyOk(State(), key);
      SentRefines(State(), key, id);
      var h := ReadHead(key);
      var _, next, _ := PlanPublication(h.publications, id, 0, false);
      publications := publications - {(key, id)};
      heads := heads[key := h.(publications := next)];
      assert next == IndexWithout(h.publications, id);
    }
  }

  lemma {:induction false} PrefixLength(entries: seq<Entry>, n: nat)
    requires n <= |entries|
    ensures TotalLength(entries[..n]) <= TotalLength(entries)
    decreases |entries| - n
  {
    if n < |entries| {
      assert entries[..n + 1][..n] == entries[..n];
      PrefixLength(entries, n + 1);
    } else {
      assert entries[..n] == entries;
    }
  }
}
