/** Values shared by the durable document model.

    Digests are symbolic: the SHA-256 of a value is a constructor applied to that value, so digests
    are injective and no digest equals the 32 zero bytes. AES-GCM output under the device key is a
    constructor too; which of those values the device has produced so far is part of the run state.
  */
module DocumentTypes {
  import opened Common

  type Member = nat
  type Token = nat
  type Change = nat

  /** The authenticated group state an operation runs under. */
  datatype Context = Context(group: nat, epoch: nat, controlHead: nat)

  /** Role 3 is the controller, role 2 may write, role 1 may read. */
  type Roster = map<Member, nat>

  datatype AuthorityHead = NoAuthority | AuthorityDigest(record: AuthorityRecord)
  datatype AuthorityRecord = AuthorityRecord(
    documentId: string, sequence: nat, parent: AuthorityHead, context: Context, roster: Roster)

  /** The unsigned bytes of one content frame, and their digest. */
  datatype ContentHash = ZeroHash | ContentDigest(content: Content)
  datatype Content = Content(
    authorityHead: AuthorityHead, context: Context, member: Member, sequence: nat,
    parent: ContentHash, changes: set<Change>)
  datatype Receipt = Receipt(sequence: nat, hash: ContentHash)
  type Receipts = map<Member, Receipt>

  /** A signed and encrypted content frame; its digest is its publication id. */
  datatype Frame = Frame(content: Content, nonce: nat, length: nat)

  datatype Binding = Binding(token: Token, revision: nat)
  datatype Item = Item(
    context: Context, authorityHead: AuthorityHead, changes: set<Change>, receipts: Receipts,
    bindings: seq<Binding>)

  /** A pending entry: cleartext header, ciphertext bound to that header, encoded length. */
  datatype Body =
    | Sealed(revision: nat, checkpoint: bool, parent: Commitment, item: Item, nonce: nat)
    | Unreadable(bytes: nat)
  datatype Payload = Payload(revision: nat, marker: nat, parent: Commitment, body: Body, length: nat)

  /** An accepted entry is a pending entry followed by its acceptance tag. */
  datatype Tag = Acceptance(revision: nat, payload: Payload, nonce: nat) | Unverified(bytes: nat)
  datatype Entry = Entry(payload: Payload, tag: Tag) | Malformed(bytes: nat, size: nat)
  datatype Commitment = Zero | Digest(entry: Entry)
  datatype Anchor = Anchor(revision: nat, commitment: Commitment)

  /** A stored outbox record: publication id, cleartext header, ciphertext. */
  datatype PublicationCipher =
    | PublicationSealed(revision: nat, id: Frame, token: Token, frame: Frame)
    | PublicationUnreadable(bytes: nat)
  datatype Publication = Publication(
    id: Frame, revision: nat, token: Token, cipher: PublicationCipher, bytes: nat)
  datatype Reservation = Reservation(id: Frame, bytes: nat)

  datatype Pending = Pending(
    token: Token, payload: Payload, checkpoint: bool, publication: Option<Reservation>)
  datatype Snapshot = Snapshot(
    revision: nat, entries: seq<Entry>, publications: seq<Publication>, pending: Option<Pending>)

  const MAX_SNAPSHOT: nat := 64 * 1024 * 1024
  const MAX_ENTRY: nat := MAX_SNAPSHOT + 17 * 1024 * 1024
  const ACCEPTED_OVERHEAD: nat := 32
  const PUBLICATION_OVERHEAD: nat := 72
  const MAX_STORED_PUBLICATION: nat := 1024 * 1024 + PUBLICATION_OVERHEAD
  const MAX_JOURNAL_ENTRIES: nat := 128
  const MAX_JOURNAL_BYTES: nat := 128 * 1024 * 1024
  const MAX_PUBLICATIONS: nat := 16
  const MAX_PUBLICATION_BYTES: nat := 16 * 1024 * 1024

  function EntryLength(e: Entry): nat {
    match e
    case Entry(payload, _) => payload.length + ACCEPTED_OVERHEAD
    case Malformed(_, size) => size
  }

  function TotalLength(entries: seq<Entry>): nat {
    if entries == [] then 0
    else TotalLength(entries[..|entries| - 1]) + EntryLength(entries[|entries| - 1])
  }

  function PublicationBytes(publications: seq<Publication>): nat {
    if publications == [] then 0
    else PublicationBytes(publications[..|publications| - 1]) + publications[|publications| - 1].bytes
  }
}
