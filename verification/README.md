# Verified model of the durable document core

Peerborne lets a group edit a shared document without a trusted server. Each device keeps an
encrypted write-ahead log of the document, numbers and chains the frames it authors, checks remote
frames against a signed role history, and must survive a crash at any point without ever signing two
different frames for one slot. This project models that core, and the smaller state machines around
it, in Dafny 4.11 and proves what they promise.

`dafny verify dfyconfig.toml` checks everything.

## Layout

| files | what they model |
|---|---|
| `Common`, `Types`, `ReplayJournal`, `JournalFormat`, `DocumentState` | shared values; entries, commitments and anchors; walking a store and deciding recovery; receipts, admission and replay |
| `JournalStoreSpec`, `JournalStores`, `JournalStoreObjects` | the snapshot machine, the indexed multi-table store and the proof that they agree |
| `AuthorityHistory`, `AuthorityLog` | which role records may follow which; the signed log as an object |
| `DocumentRun` | one device as a step system: every awaited effect is a step, a crash fits between any two, the store may be replaced by anything the device key did not have to sign |
| `AcceptedChain`, `ChainRecovery`, `DocumentSafety`, `DocumentTheorems` | what every run keeps with the store in anybody's hands |
| `HonestJournal`, `HonestSteps`, `CrashSafety`, `DocumentProgress` | what runs with an untouched store add: recovery always succeeds, nothing is lost, admitted operations complete |
| `PublicationQueue`, `Publishing` | exactly when changes, frames and role transitions are staged, and what they leave when completed, aborted or interrupted |
| `DocumentGroup`, `GroupRecovery` | any number of instances of one member over one store and one anchor: safety with the store in anybody's hands, recovery with an untouched one |
| `JournalObjects` | journal and document as classes, their loops proved against the same functions |
| `OperationGate` | the admission gate and its budgets over every interleaving |
| `AclHistory`, `AclValidation` | causal frontiers of membership writes and delivery-order independence |
| `Keychain`, `OperationIndex` | keychain merge; the incremental index of object creations |
| `EntryPayload`, `AclChain` | the hash-linked ACL chain and its signed bytes |
| `ChangeTree`, `ChangeTreeWalk` | the bounded walk over an object graph |
| `TreeMath`, `WelcomeCodec` | the Welcome codec over a left-balanced tree |
| `GatewayBounds`, `GatewayVisits`, `GatewayLimits`, `GatewayBursts`, `TopicRegistry` | the relay's limiter and topic registry |

## Modelling decisions

- Digests are constructors applied to the digested value, so they are injective and never the 32 zero
  bytes. `AclChain` keeps the hash as a parameter and assumes collision freedom only where a theorem
  says so.
- AES-GCM output under the device key is a constructor. Each run records every value the device
  sealed, and a replaced store may contain anything except a value that would open under the key
  without having been sealed. Publication tokens and marker nonces are fresh.
- Signatures name the signing key and the signed value; anything else does not verify.
- Byte codecs are injective constructors with explicit lengths, except where the bytes are the point
  (`EntryPayload`).
- A CRDT document is the set of changes it has integrated. What the Automerge engine makes of a set
  of changes is an input of the keychain and index models. The index is compared with a rebuild for
  documents in which each object is created by one change, as the engine numbers objects; the session
  itself takes any changes. `OperationIndex.AcceptIsRebuildIff` shows what an overlay needs exactly:
  that it redefines no object, because it is checked only against itself.
- Each store transaction and each anchor compare-and-swap is one atomic step. A step that looks at both
  store and anchor looks at them together. With a store in anybody's hands this loses nothing. With an
  untouched store, entries and anchor that a reopening accepts were there together at some moment while
  it read them, since the anchor only climbs and the store leads it by at most one entry; a reopening
  that other instances overtake may be refused and then has to be repeated. A journal or document that
  the source marks as failed is modelled as closed until reopened.
- The authority log of a reopened document is any valid history that contains the authority heads of
  the restored entries; it may advance while an operation is in flight, and the gate step then refuses.
- ACL histories are complete and listed after their dependencies, as the engine lists them; the set of
  ancestors is a set of indices where the source uses a bit set. Receipts are a map where the source
  lists them.
- What the code does not promise is stated as it is: the relay's ten-second window lets through more than
  twice its limit where a record of an address ends (`GatewayBursts.TwiceHoldsIff`,
  `GatewayBursts.DemoAdmitsSeven`), and a frame that contradicts an older frame of its author is ignored and
  not noticed (`DocumentTheorems.OlderFrameIsIgnored`).
- The relay limiter reads its clock once per call and never backwards; tokens are real numbers.
- Commits of prepared keychain and index changes are the atomic `commit()`; at most one claim is held.

## Model

| member | source | states |
|---|---|---|
| `DocumentTheorems.NoSelfEquivocation` | packages/core/src/coordinated-document.ts:432-436 | In every run of change, receive, role transition, crash, reopen and store replacement, every frame this member ever released is recorded by an accepted entry behind the anchor, and two released frames with one group context and one sequence have the same content hash |
| `DocumentTheorems.AcceptedHistoryIsAppendOnly` | packages/core/src/document-replay-journal.ts:494-522 | Whatever the store does, the accepted history behind the anchor only grows: the older history stays a prefix of the newer one, and no release is taken back |
| `DocumentTheorems.EveryContextIsOneChain` | packages/core/src/coordinated-document.ts:404-412 | In every state of every run and for every context and author, each recorded frame ends a gap-free hash chain 1..n of frames that were each applied exactly once, and every earlier recorded frame of that author and context is on it |
| `DocumentTheorems.RecordedIsChained` | packages/core/src/coordinated-document.ts:567-576 | A frame recorded anywhere behind a commitment is chained in its own context down to sequence 1, and the whole chain is recorded, whichever contexts came later |
| `DocumentTheorems.ExactlyOnceInOrder` | packages/core/src/coordinated-document.ts:404-412 | For the live receipts of a quiet state: an author's receipt is the end of such a chain, and the frames on it are exactly the recorded ones of the current context |
| `DocumentTheorems.NoReceiptNoFrame` | packages/core/src/coordinated-document.ts:567-576 | A member without a receipt has no recorded frame in the current context |
| `DocumentTheorems.ReplayChangesNothing` | packages/core/src/coordinated-document.ts:404-412 | Delivering an already recorded frame again leaves the whole state as it is, in every reachable quiet state |
| `DocumentTheorems.OutOfOrderIsRefused` | packages/core/src/coordinated-document.ts:404-412 | In every quiet state of every run, a frame is refused that skips a sequence number, does not continue its author's newest recorded frame, or differs from that newest frame at its sequence, measured against the accepted chain |
| `DocumentTheorems.EveryFrameIsClassified` | packages/core/src/coordinated-document.ts:404-425 | In every quiet state a frame is refused unless it is by a member with role 2 or 3 under the current head and context; otherwise it is out of order against the accepted chain and refused, or the next of its chain and handed to the journal, or neither and ignored, and it is ignored and staged in no other case |
| `DocumentTheorems.OnlyWritersAreRecorded` | packages/core/src/coordinated-document.ts:366-381 | In every state of every run the author of each recorded frame has role 2 or 3 in the role record the frame was written under |
| `DocumentTheorems.ReadersAreRefused` | packages/core/src/coordinated-document.ts:366-428 | In every quiet state a frame under another head or context, or by a member without role 2 or 3, is refused, and such a member cannot change the document either |
| `DocumentTheorems.ChainDecidesAdmission` | packages/core/src/coordinated-document.ts:404-412 | What the accepted chain records decides the admission made from the receipts, in both directions |
| `DocumentTheorems.OlderFrameIsIgnored` | packages/core/src/coordinated-document.ts:404-425 | A frame below its author's newest recorded one is ignored whatever it says: a contradiction of an older frame is neither applied nor noticed |
| `DocumentTheorems.ReceiptIsNewest` | packages/core/src/coordinated-document.ts:404-412 | The receipt admission looks at is the newest recorded frame of that author and context |
| `DocumentTheorems.RecoveryRebuildsTheLiveDocument` | packages/core/src/coordinated-document.ts:619-674 | Two quiet states of a run at the same anchor have the same receipts and document, whatever crashes lie between them |
| `DocumentTheorems.DocumentIsUnion` | packages/core/src/coordinated-document.ts:567-576 | The document behind a commitment holds the initial changes and those of the recorded frames, and nothing else |
| `DocumentTheorems.AppliedAtMostOnce` | packages/core/src/coordinated-document.ts:567-576 | A chain records a frame once if it records it at all |
| `DocumentTheorems.ReceiptChainApplied` | packages/core/src/coordinated-document.ts:567-576 | Every frame on a receipt's hash chain was applied |
| `CrashSafety.RestoreAlwaysSucceeds` | packages/core/src/document-replay-journal.ts:401-522 | In runs without store replacement, at every point `restore` succeeds, the store is at the anchor's revision or exactly one above, the returned items are those of the entries since the last checkpoint, and every one of them was sealed by this device |
| `CrashSafety.StagedNeverSurfaces` | packages/core/src/document-replay-journal.ts:523-535 | In every reachable state with a staged row, also after its acceptance marker was sealed, that row is not among the entries a restore returns |
| `CrashSafety.EveryCrashRecovers` | packages/core/src/document-replay-journal.ts:401-550 | From every reachable state, crash and one recovery sequence end with anchor and head equal, nothing staged, no committed entry or queued publication lost, and the document the accepted chain stands for |
| `CrashSafety.ReopenSucceeds` | packages/core/src/document-replay-journal.ts:401-550 | The same for any state with the two invariants and any authority log that contains the head the journal ends at |
| `CrashSafety.CommitNeverFails` | packages/core/src/document-replay-journal.ts:679-768 | Once an operation was admitted and sealed, the store transaction or the anchor move can always proceed: staging reserved the room |
| `CrashSafety.OutboxStaysBound` | packages/core/src/document-replay-journal.ts:825-910 | In every honest state each queued publication's token is bound at its revision by an entry the store still retains, and the queue reads back in full and in order |
| `CrashSafety.CommittedFrameStaysQueued` | packages/core/src/document-replay-journal.ts:740-750 | A publication bound by any accepted entry is still queued or was marked sent, across checkpoints and crashes |
| `CrashSafety.AbortedFrameIsNeverReturned` | packages/core/src/document-replay-journal.ts:800-823 | A frame returned from the queue is recorded on the accepted chain, even when the store was replaced |
| `CrashSafety.LedgerHasRoom` | packages/core/src/document-replay-journal.ts:577-625 | The token ledger never reaches its limit of 144 before a checkpoint is due |
| `Publishing.ChangePublishes` | packages/core/src/coordinated-document.ts:552-603 | A staged local change can always be completed. The frame is by this member, carries exactly the changes and is its next one; it is recorded behind the anchor and returned; the document grew by exactly the changes; and the queue gained exactly one record for it, bound by a new token of the accepted chain, if publications are persisted, and none otherwise |
| `Publishing.InterruptedChangeIsReleased` | packages/core/src/document-replay-journal.ts:740-768 | A crash at any moment after the store commit of a persisted change: once the document is reopened and its pending publications are read, the frame is handed out |
| `Publishing.EveryQueuedFrameIsReleased` | packages/core/src/document-replay-journal.ts:800-823 | From every state of every honest run, reopening and reading the pending publications hands out every queued frame |
| `Publishing.ReceivedFrameApplies` | packages/core/src/coordinated-document.ts:567-603 | A staged remote frame can always be completed; it is then recorded, the document grew by exactly its changes, and nothing is returned or queued |
| `Publishing.RoleTransitionApplies` | packages/core/src/coordinated-document.ts:677-764 | A staged role transition can always be completed; the document is unchanged, in the new context and without receipts, and one checkpoint replaces the retained entries |
| `Publishing.AppliedUnderCurrentAuthority` | packages/core/src/coordinated-document.ts:560-566 | In every run an operation is applied only while the authority head it was prepared under is still the current one |
| `Publishing.AbortedChangeLeavesNothing` | packages/core/src/coordinated-document.ts:604-616 | A change that is not admitted leaves store, document, fields, anchor and releases as they were |
| `Publishing.AbortedRoleTransitionStops` | packages/core/src/coordinated-document.ts:677-764 | A role transition that is not admitted stops the document and leaves store, anchor and releases as they were |
| `Publishing.StoreIsAnybodys` | packages/core/src/document-replay-journal.ts:401-493 | The store may be replaced by anything that holds no entry or record which would verify under the device key without the device having made it |
| `Publishing.AbortedReceiveLeavesNothing` | packages/core/src/coordinated-document.ts:604-616 | A remote frame that is not admitted leaves the whole state as it was |
| `Publishing.AuthorityMovesIff` | packages/core/src/document-authority-log.ts:391-465 | The authority of an open document moves on exactly by a record that is next in number on the newest one, of the same document and group, of a newer epoch, under an unused control head and with a valid roster |
| `Publishing.OutboxSteps` | packages/core/src/document-replay-journal.ts:800-910 | Pending publications are handed out only while the head is the anchor, and reporting one sent takes exactly that record off store and fields |
| `PublicationQueue.ChangeStagesIff` | packages/core/src/document-replay-journal.ts:552-678 | A local change is staged exactly when the member may write, has sequence numbers left and there is room, and it carries exactly the given changes |
| `PublicationQueue.ReceivedFrameStagesIff` | packages/core/src/document-replay-journal.ts:552-678 | In every quiet state of every honest run a received frame is staged exactly when it is by a writer, is the next of its chain, and revision, entry length, retained entries and queue have room |
| `PublicationQueue.RoleTransitionStagesIff` | packages/core/src/coordinated-document.ts:677-764 | A role transition is staged exactly when the record may follow and there is room for a checkpoint |
| `PublicationQueue.JournalAdmitsIff` | packages/core/src/document-replay-journal.ts:552-640 | Before it stages anything the journal asks for a revision to spare, for a checkpoint once 127 entries or 110 MiB are retained, for at most 16 distinct bound tokens at a checkpoint, and for a new token and room among 144 when it publishes |
| `PublicationQueue.DeltasHaveRoom` | packages/core/src/document-replay-journal.ts:372-382 | Below the mark at which a checkpoint is asked for there is room for any delta of nearly 18 MiB |
| `PublicationQueue.RunLists` | packages/core/src/document-replay-journal.ts:740-750 | In every state of every honest run the fields of an open document list exactly the queued records |
| `HonestSteps.HonestStep` | packages/core/src/document-replay-journal.ts:552-798 | Every step other than a store replacement keeps the journal recoverable: chain, queue bindings, no lost publication, fields mirroring the store |
| `HonestSteps.HonestRun` | packages/core/src/document-replay-journal.ts:401-798 | Both invariants hold in every state of every run without store replacement |
| `HonestSteps.CrashTip` | packages/core/src/document-replay-journal.ts:508-522 | Wherever a crash lands, the store ends at the anchor or one accepted entry above it |
| `HonestJournal.HonestRestores` | packages/core/src/document-replay-journal.ts:494-522 | A store whose tip is the anchor or one entry above it is accepted by `restore` |
| `HonestJournal.CheckpointRecords` | packages/core/src/document-replay-journal.ts:589-625 | The bindings a checkpoint carries rebuild exactly the retained ledger from nothing |
| `HonestJournal.QueueReads` | packages/core/src/document-replay-journal.ts:866-908 | A queue of distinct sealed records bound in the ledger reads back in full |
| `DocumentSafety.SharedStep` | packages/core/src/coordinated-document.ts:300-616 | Every step, including a store replaced by anything the device key did not sign, keeps the safety invariant, even for an instance whose anchor others have moved |
| `DocumentSafety.SafeStep` | packages/core/src/coordinated-document.ts:300-616 | A document alone with its anchor also keeps standing at it |
| `DocumentGroup.GroupNeverEquivocates` | packages/core/src/document-replay-journal.ts:508-522 | For any number of instances of one member interleaving over one store and anchor, with crashes and a store in anybody's hands: every released frame is recorded behind the shared anchor, and two released frames with one context and sequence have the same content hash |
| `DocumentGroup.GroupHistoryIsAppendOnly` | packages/core/src/document-replay-journal.ts:720-735 | However the instances interleave, the history behind the shared anchor only grows and no release is taken back |
| `DocumentGroup.GroupStep` | packages/core/src/document-replay-journal.ts:508-522 | A step of one instance keeps what every instance relies on |
| `DocumentGroup.PhaseKept` | packages/core/src/document-replay-journal.ts:552-798 | An instance that does not act stays as it should be, wherever the others take device and anchor |
| `GroupRecovery.AnyInstanceRecovers` | packages/core/src/document-replay-journal.ts:401-550 | With a store nobody replaces, in every state of every interleaving of any number of instances, any one of them can crash and reopen: anchor and head meet, nothing staged is left, no committed entry or queued publication is lost, and the document is the one the accepted chain stands for |
| `GroupRecovery.GroupRestoreSucceeds` | packages/core/src/document-replay-journal.ts:401-522 | In every such state `restore` succeeds on a store at the anchor or one sealed entry above it, and returns the items since the last checkpoint |
| `GroupRecovery.GroupOutboxStaysBound` | packages/core/src/document-replay-journal.ts:825-910 | In every such state the queue reads back in full, each of its records is bound by a retained entry, and each publication an accepted entry bound is queued until some instance marked it sent |
| `GroupRecovery.GroupStagedNeverSurfaces` | packages/core/src/document-replay-journal.ts:523-535 | What any instance has only staged is not among the entries a restore returns |
| `GroupRecovery.GroupStepStands` | packages/core/src/document-replay-journal.ts:552-798 | A step of one instance keeps the shared journal recoverable and every other instance on its chain |
| `GroupRecovery.CommitsAtAnchor` | packages/core/src/document-replay-journal.ts:679-735 | The store takes an instance's entry only while its head, the anchor and the store agree, so an instance that fell behind cannot commit |
| `GroupRecovery.HalfDoneKept` | packages/core/src/document-replay-journal.ts:508-522 | An anchor move a restoring instance has in hand stays correct until another instance makes it impossible |
| `DocumentSafety.SafeRun` | packages/core/src/coordinated-document.ts:300-674 | The safety invariant holds in every state of every run |
| `DocumentSafety.RestoredOk` | packages/core/src/document-replay-journal.ts:422-493 | Whatever an unforged store holds, a restore that succeeds rebuilds receipts, document and ledger of a chain of sealed entries |
| `DocumentSafety.SealedChain` | packages/core/src/document-replay-journal.ts:679-712 | Sealing an admitted operation extends the chain by one well-formed entry |
| `DocumentProgress.AppliedOperationCompletes` | packages/core/src/document-replay-journal.ts:679-768 | With an untouched store, an operation the gate has applied always becomes durable and hands out its frame: no later effect can refuse it |
| `DocumentProgress.NewDocumentCanPublish` | packages/core/src/coordinated-document.ts:300-616 | Under any role history that lets the member write, a new document opens and stages a change; completing it returns the member's first frame, which carries exactly the change, and leaves exactly its record in the queue |
| `DocumentProgress.CompleteIsJournalCommit` | packages/core/src/document-replay-journal.ts:679-768 | Uninterrupted, the commit steps do to store, anchor and fields what the journal's commit method does |
| `DocumentSafety.BindingsStaged` | packages/core/src/document-replay-journal.ts:580-625 | At a checkpoint every queued token stays bound and only the operation's own token may join |
| `DocumentSafety.ContextIsNew` | packages/core/src/coordinated-document.ts:677-764 | The context of a role transition was never the document's context before |
| `DocumentSafety.QueuedFramesAreAccepted` | packages/core/src/document-replay-journal.ts:866-908 | Reading an unforged queue returns only own frames recorded on the accepted chain |
| `AcceptedChain.ChainNeverEquivocates` | packages/core/src/coordinated-document.ts:404-436 | One accepted chain never holds two different frames of one author with one context and sequence |
| `AcceptedChain.FrameIsCovered` | packages/core/src/coordinated-document.ts:567-576 | A recorded frame of the current context lies on its author's receipt chain, and its authority head is extended by the newest one |
| `AcceptedChain.KnownState` | packages/core/src/coordinated-document.ts:619-674 | The state behind any sealed commitment has chained receipts of roster members in the context of its authority head |
| `ChainRecovery.RecoverRebuilds` | packages/core/src/coordinated-document.ts:629-668 | Replaying the entries since the last checkpoint rebuilds the state of the whole chain |
| `ChainRecovery.WalkedLedger` | packages/core/src/document-replay-journal.ts:466-487 | The ledger a walk rebuilds binds only tokens of frames accepted on that chain |
| `JournalFormat.RestoreIff` | packages/core/src/document-replay-journal.ts:401-522 | `restore` accepts a store exactly if it is a bounded verified chain that ends at the anchor or at one entry whose parent the anchor is; it finishes the anchor move exactly in the second case and discards exactly what was staged |
| `JournalFormat.WalkIff` | packages/core/src/document-replay-journal.ts:422-493 | Verification accepts an entry list exactly if every entry is sealed, agrees with its header, keeps the codec's bounds and stands on the one before, only the first may be a checkpoint, and the tokens it binds are all different and at most 144 |
| `JournalFormat.RecordAllIff` | packages/core/src/document-replay-journal.ts:466-487 | Bindings join a ledger exactly when their tokens are new and distinct, their revisions fit and 144 are not exceeded |
| `JournalFormat.ReadPublicationsIff` | packages/core/src/document-replay-journal.ts:866-908 | A queue reads back exactly if it keeps its bounds, every record is sealed for itself, no frame and no token occurs twice, and the ledger binds each token at the record's revision; the frames come in order |
| `ReplayJournal.RestoreIsAnchored` | packages/core/src/document-replay-journal.ts:494-522 | Every store `restore` accepts ends at the anchored commitment, or at one verified entry whose parent is that commitment, and the whole entry list is determined by its last commitment |
| `ReplayJournal.RestoreIsUnique` | packages/core/src/document-replay-journal.ts:435-468 | Two stores restored to one commitment hold the same entries, items and ledger |
| `ReplayJournal.RollbackIsRefused` | packages/core/src/document-replay-journal.ts:494-522 | An older store, a store two or more entries ahead, or one with another entry at the anchored revision is refused |
| `ReplayJournal.WalkIsSinceCheckpoint` | packages/core/src/document-replay-journal.ts:435-468 | A walk that succeeds walked exactly the entries since the last checkpoint behind its last entry |
| `DocumentState.RecoverIff` | packages/core/src/coordinated-document.ts:629-668 | Recovery accepts journal records exactly if each delta continues its authors' receipts by one and at most 256 authors have one; it then gives what applying them all gives |
| `DocumentState.FrameItemReplays` | packages/core/src/coordinated-document.ts:525-540 | Replaying the journal item of a frame, delta or checkpoint, gives the state the live commit gave |
| `DocumentState.RoleItemReplays` | packages/core/src/coordinated-document.ts:736-739 | Replaying the checkpoint of a role transition gives the state the live transition gave |
| `DocumentState.FrameExtendsChain` | packages/core/src/coordinated-document.ts:404-412 | Applying an admitted frame extends its author's chain by one and keeps all chains |
| `DocumentState.ChainIsFunctional` | packages/core/src/coordinated-document.ts:404-412 | A hash chain holds one frame per sequence number |
| `DocumentState.ChainHasNoGap` | packages/core/src/coordinated-document.ts:404-412 | Each sequence number up to the receipt's occurs on the chain |
| `JournalObjects.Journal.Restore` | packages/core/src/document-replay-journal.ts:401-550 | The restoring method: fails leaving fields, anchor and store alone, or installs exactly what the walk decided and drops the pending row |
| `JournalObjects.Journal.Prepare` | packages/core/src/document-replay-journal.ts:552-678 | Staging succeeds exactly under the journal's checks and the store's, with the stated payload, bindings and candidate ledger; a full journal or queue leaves it usable |
| `JournalObjects.Journal.Commit` | packages/core/src/document-replay-journal.ts:679-768 | Commit writes the sealed entry, moves the anchor and installs the fields together, or fails keeping the fields |
| `JournalObjects.Journal.Discard` | packages/core/src/document-replay-journal.ts:769-788 | Discarding removes the pending row and nothing else |
| `JournalObjects.Journal.PendingPublications` | packages/core/src/document-replay-journal.ts:800-823 | Returns the authenticated queue while the anchor is current |
| `JournalObjects.Journal.PublicationSent` | packages/core/src/document-replay-journal.ts:957-963 | Marking a frame sent removes it from store and queue map |
| `JournalObjects.Examine` | packages/core/src/document-replay-journal.ts:401-522 | The loop over a loaded store decides exactly as the restore function |
| `JournalObjects.WalkEntries` | packages/core/src/document-replay-journal.ts:422-493 | The verification loop equals the recursive walk |
| `JournalObjects.RecordBindings` | packages/core/src/document-replay-journal.ts:468-487 | The binding loop equals the recursive fold |
| `JournalObjects.ReadOutboxRecords` | packages/core/src/document-replay-journal.ts:835-910 | The two queue loops equal the recursive queue reader |
| `JournalObjects.Document.Recover` | packages/core/src/coordinated-document.ts:629-668 | The recovery loop equals the recursive replay, failing exactly when a record is not admitted |
| `JournalObjects.Document.Accept` | packages/core/src/coordinated-document.ts:567-576 | The commit of a frame changes receipts, context and document as the step system says |
| `JournalObjects.Document.ChangeRoles` | packages/core/src/coordinated-document.ts:736-739 | A role transition clears the receipts and sets the context |
| `JournalStores.StoresAgree` | packages/core/src/document-journal-store.ts:778-963 | Over every sequence of stage, commit, discard and sent, the four tables load the same snapshots as the plain snapshot machine, with a head that matches the rows |
| `JournalStores.StageRefines` | packages/core/src/document-journal-store.ts:778-838 | Staging in the tables succeeds exactly when staging the snapshot does, with its result |
| `JournalStores.CommitRefines` | packages/core/src/document-journal-store.ts:839-934 | Committing in the tables, which never reads an accepted row, succeeds exactly when committing the snapshot does, with its result |
| `JournalStores.DiscardRefines` | packages/core/src/document-journal-store.ts:935-945 | Discarding refines the snapshot discard |
| `JournalStores.SentRefines` | packages/core/src/document-journal-store.ts:946-963 | Removing a sent row refines the snapshot removal |
| `JournalStores.PlanPublication` | packages/core/src/policy/journal-store.ts:13-75 | The queue planning loop accepts exactly when the queue admits the record and returns the filtered index and kept positions |
| `JournalStoreSpec.StagedIff` | packages/core/src/policy/journal-store.ts:78-102 | Staging succeeds exactly at the current revision below 2^53-1 with nothing staged, when the accepted length fits 128 MiB, a delta finds fewer than 128 entries and fits with them, and the publication is new, one of at most 16 and within 16 MiB; it sets the pending row and nothing else |
| `JournalStoreSpec.StageRefusalIs` | packages/core/src/policy/journal-store.ts:78-102 | Refused for a conflict and refused for want of room, each exactly |
| `JournalStoreSpec.CommittedIff` | packages/core/src/document-journal-store.ts:260-312 | A commit succeeds exactly at the current revision for the staged token, mode, length and publication, within the bounds of entries and queue |
| `JournalStoreSpec.CommittedValue` | packages/core/src/document-journal-store.ts:290-312 | It appends the entry, or at a checkpoint replaces all others, and appends the publication |
| `JournalStoreSpec.CommitNeverOverflows` | packages/core/src/document-journal-store.ts:213-262 | Because staging charges the accepted length, committing a staged entry never exceeds the bounds |
| `JournalStoreSpec.CommittedKeepsStore` | packages/core/src/document-journal-store.ts:260-312 | A commit keeps the store bounds and distinct queue ids |
| `JournalStoreObjects.InMemoryStore.Stage` | packages/core/src/document-journal-store.ts:349-376 | Staging replaces one document's snapshot by the staged one or reports failure and changes nothing |
| `JournalStoreObjects.InMemoryStore.Commit` | packages/core/src/document-journal-store.ts:377-406 | Committing replaces one document's snapshot by the committed one or reports failure and changes nothing |
| `JournalStoreObjects.InMemoryStore.PublicationSent` | packages/core/src/document-journal-store.ts:407-423 | Selecting the planned positions removes exactly the rows with the sent id |
| `JournalStoreObjects.IndexedStore.Stage` | packages/core/src/document-journal-store.ts:778-838 | The indexed store's staging replaces exactly one document's snapshot by the staged one |
| `JournalStoreObjects.IndexedStore.Commit` | packages/core/src/document-journal-store.ts:839-934 | The indexed store's commit replaces exactly one document's snapshot by the committed one |
| `JournalStoreObjects.IndexedStore.ReadEntries` | packages/core/src/document-journal-store.ts:554-640 | Copying the rows succeeds on rows that match the head's byte count and returns them in order |
| `AuthorityHistory.ExtendsIffPrefix` | packages/core/src/document-authority-log.ts:232-238 | One head extends another exactly when the other's records are a prefix of its own |
| `AuthorityHistory.ExtendsIffRecord` | packages/core/src/document-authority-log.ts:232-238 | A head is extended exactly when its record is one of the records |
| `AuthorityHistory.EpochsIncrease` | packages/core/src/document-authority-log.ts:428-465 | Epochs and sequence numbers rise strictly along a history |
| `AuthorityHistory.ContextIdentifiesHead` | packages/core/src/document-authority-log.ts:428-465 | Two heads of one history with one group context are the same |
| `AuthorityHistory.ControllersPersist` | packages/core/src/document-authority-log.ts:495-515 | A bound control head keeps its controller in every later history |
| `AuthorityLog.Restore` | packages/core/src/document-authority-log.ts:278-333 | Restoring succeeds exactly on one valid signed history from the pinned genesis whose first record names the group and controller of a control authority that is not bound yet; it then holds those records and the authority is bound to it, and otherwise nothing changes |
| `AuthorityLog.AcceptableIff` | packages/core/src/document-authority-log.ts:278-333 | A list of records is one valid signed history exactly if the first is the pinned genesis signed by its own controller, every other follows the one before in number, document, group and newer epoch under an unused control head, signed by the controller of the one before, all rosters are valid, and 1024 records and 16 MiB are not exceeded |
| `AuthorityHistory.MayFollowIff` | packages/core/src/document-authority-log.ts:428-465 | Which record may follow a history, spelled out over its records |
| `AuthorityLog.Log.ValidateNext` | packages/core/src/document-authority-log.ts:428-465 | The field checks decide exactly whether the record may follow the head |
| `AuthorityLog.Log.ApplyUpdate` | packages/core/src/document-authority-log.ts:391-426 | An update is installed exactly when the longer history would restore and it names the authenticated context; otherwise nothing changes |
| `AuthorityLog.Log.Install` | packages/core/src/document-authority-log.ts:495-515 | Installing keeps every field determined by the record list |
| `AuthorityLog.Log.ExtendsHead` | packages/core/src/document-authority-log.ts:232-238 | Answers yes exactly for digests of the log's own records |
| `AuthorityLog.Log.ControllerAtHead` | packages/core/src/document-authority-log.ts:345-347 | Returns the controller bound to a control head |
| `AuthorityLog.SharedHeadMeansPrefix` | packages/core/src/document-authority-log.ts:232-238 | If one log answers for another's head, the other's unsigned records are a prefix of its own and both have one genesis; and conversely |
| `AuthorityLog.LogNeverRepeats` | packages/core/src/document-authority-log.ts:428-465 | Epochs rise strictly and no control head is used twice in a log |
| `AuthorityLog.LeaseIsExact` | packages/core/src/document-authority-log.ts:349-363 | A lease issued at some point of a log's growth reads as current exactly while nothing was installed since, and then still grants the log's current roles |
| `AuthorityLog.LeaseAcrossUpdates` | packages/core/src/document-authority-log.ts:349-363 | Captured before any number of updates, a lease is current afterwards exactly when none of them was installed |
| `AuthorityLog.RestoreExported` | packages/core/src/document-authority-log.ts:278-333 | Restoring what a log exports, for a control authority of its group and first controller, always succeeds and reproduces records, head, revision, controllers and verified heads |
| `AuthorityLog.RecordsDetermineLog` | packages/core/src/document-authority-log.ts:243-245 | All fields of a log are determined by its records |
| `AuthorityLog.ControllersAreForever` | packages/core/src/document-authority-log.ts:495-515 | Each control head stays bound to its record's controller however the log grows |
| `AuthorityLog.ReadRecords` | packages/core/src/document-authority-log.ts:284-324 | The records verify exactly when they are one valid signed history from the pinned genesis |
| `AuthorityLog.UpdateBound` | packages/core/src/document-authority-log.ts:391-426 | Whatever updates reach a bound log, every record stays in the group of its control authority and the first still names its controller |
| `AuthorityLog.OneGroup` | packages/core/src/document-authority-log.ts:428-465 | A history never leaves the group it starts with |
| `AuthorityLog.BoundControllers` | packages/core/src/document-authority-log.ts:345-347 | The controller a history answers with for a control head is the controller of the record that names it |
| `AuthorityLog.ControlAuthority.Authorize` | packages/core/src/document-authority-log.ts:538-554 | Group authorization accepts exactly the actor to whom a record of the bound history gave control at the previous control head, or the initial controller creating the group |
| `AuthorityLog.ControlAuthority.Bind` | packages/core/src/document-authority-log.ts:556-572 | A control authority binds once, and only to a log whose first record names its own group and controller |
| `OperationGate.FinalizerRunsOnceAndChecked` | packages/core/src/group-document-operation.ts:270-355 | In every interleaving a finalizer runs at most once, only in a step that found the context matching, the authorization current and the operation active |
| `OperationGate.FinalizerRunsIff` | packages/core/src/group-document-operation.ts:314-345 | The finalizer runs exactly in the finish of a prepared operation that nobody cancelled, in its context and authorized; the operation is then committed, and the gate poisons exactly when the finalizer threw or returned something |
| `OperationGate.AuthorizedFinishCommits` | packages/core/src/group-document-operation.ts:314-345 | In every interleaving such a finish leaves exactly one commit of the operation in the log |
| `OperationGate.UndisturbedCommits` | packages/core/src/group-document-operation.ts:240-369 | An operation that is taken and not disturbed goes through capture, preparation and finish, commits once, and gives back all it was charged |
| `OperationGate.StartedIff` | packages/core/src/group-document-operation.ts:217-255 | An input is taken exactly within the input limit and both budgets, and is then charged to both |
| `OperationGate.BodyGoesOnIff` | packages/core/src/group-document-operation.ts:270-313 | Capture leads to preparation and preparation to the commit hook exactly when nothing failed, nobody cancelled and nothing is retained |
| `OperationGate.CancelledIff` | packages/core/src/group-document-operation.ts:249-262 | An operation is cancelled exactly by a cancel, or by a fired signal at its next check, before it committed |
| `OperationGate.RetainedIs` | packages/core/src/group-document-operation.ts:356-369 | What holds the input: the preparation and the observed work until they settle, and what a misbehaving authorization or finalizer leaves pending |
| `OperationGate.EventReachesIff` | packages/core/src/group-document-operation.ts:270-355 | In which stage each event can reach an operation |
| `OperationGate.CancelledNeverCommits` | packages/core/src/group-document-operation.ts:249-262 | A cancelled operation stays cancelled and never commits |
| `OperationGate.BudgetsAreExact` | packages/core/src/group-document-operation.ts:217-255 | Local and shared budgets always equal the charges of the operations that still hold their input, each released at most once and not before its retained work settled |
| `OperationGate.DrainedCanRelease` | packages/core/src/group-document-operation.ts:356-369 | A finished body whose retained work settled can always release: the counters never underflow |
| `OperationGate.AllSettledMeansFree` | packages/core/src/group-document-operation.ts:356-373 | When every operation has finished nothing stays charged |
| `OperationGate.ReactKeeps` | packages/core/src/group-document-operation.ts:270-355 | One event, also a preparation that fails while its settlement is outstanding, keeps an operation well formed; the finalizer only follows the checks of that same event |
| `OperationGate.Budget.Reserve` | packages/core/src/group-document-operation.ts:73-96 | A reservation succeeds exactly within both limits |
| `OperationGate.Budget.Release` | packages/core/src/group-document-operation.ts:89-95 | A ticket gives its charge back once |
| `AclHistory.HomogeneousIffOrderIndependent` | packages/automerge/src/peerborne-automerge.ts:588-659 | All causally maximal writes to each key agree exactly when every causal delivery order of the changes folds to the same member set |
| `AclValidation.HistoryValidIff` | packages/automerge/src/peerborne-automerge.ts:564-670 | A history is valid exactly if nothing overwrites the users root, it is created at most once, and if it is, by the canonical seed, with only canonical keys set to true or deleted and no key with mixed surviving writes |
| `AclHistory.WrittenIs` | packages/automerge/src/peerborne-automerge.ts:610-625 | A change writes a key if some operation does; its last one decides and only a deletion removes |
| `AclHistory.DeliverIs` | packages/automerge/src/peerborne-automerge.ts:610-625 | After a change a key is a member exactly if its last write was no deletion, or it was one and the change does not write it |
| `AclHistory.HomogeneousIsOrderIndependent` | packages/automerge/src/peerborne-automerge.ts:650-659 | Agreeing frontiers make every causal delivery order give the same members |
| `AclHistory.OrderIndependentIsHomogeneous` | packages/automerge/src/peerborne-automerge.ts:650-659 | A mixed frontier has delivery orders that disagree |
| `AclHistory.PostponedDelivers` | packages/automerge/src/peerborne-automerge.ts:588-600 | Holding a change and its descendants back is a causal delivery of the same changes |
| `AclHistory.LeadsIsIntrinsic` | packages/automerge/src/peerborne-automerge.ts:588-596 | Causality does not depend on the order in which the changes are listed |
| `AclValidation.FrontierIsMaximal` | packages/automerge/src/peerborne-automerge.ts:627-635 | The kept writes of a key are exactly its causally maximal ones, each with its effect |
| `AclValidation.UniformIffHomogeneous` | packages/automerge/src/peerborne-automerge.ts:650-659 | The mixed-frontier test is exactly agreement of the maximal writes |
| `AclValidation.ValidateHistory` | packages/automerge/src/peerborne-automerge.ts:564-670 | The validation loops accept a history exactly when it has one canonical users root, only valid membership writes and no mixed frontier |
| `AclValidation.CollectAncestry` | packages/automerge/src/peerborne-automerge.ts:590-597 | The union over recorded dependency sets is exactly the set of ancestors |
| `AclValidation.UpdateFrontiers` | packages/automerge/src/peerborne-automerge.ts:627-635 | One change replaces the frontier of every key it writes and no other |
| `AclValidation.AcceptedIsOrderIndependent` | packages/automerge/src/peerborne-automerge.ts:588-659 | Every accepted history with a users root gives one member set in any causal delivery order |
| `AclValidation.RejectedIsOrderDependent` | packages/automerge/src/peerborne-automerge.ts:650-659 | A history with a mixed frontier has two delivery orders with different members |
| `AclChain.Chain.Ingest` | packages/core/src/acl-chain.ts:633-943 | An entry is accepted exactly when the longer chain is valid and the caller named its signer; a rejected entry changes nothing |
| `AclChain.ChainIffEveryEntryAllowed` | packages/core/src/acl-chain.ts:633-943 | A list of entries is a chain exactly if each is numbered by position, linked to the hash before it, within its bounds, and signed over its own bytes by a bootstrap key if it is the first and by a writer of the state before it otherwise |
| `AclChain.ChainHasStates` | packages/core/src/acl-chain.ts:633-943 | Every chain has such states: its changes apply in order from the empty state |
| `AclChain.ChecksDecide` | packages/core/src/acl-chain.ts:633-943 | The field checks with authorization and the state change decide exactly whether the longer chain is valid |
| `AclChain.CheckFields` | packages/core/src/acl-chain.ts:648-840 | The stateless checks pass exactly for a well-shaped entry at the right position, linked, bounded and signed by the named key, and otherwise give the first reason that applies |
| `AclChain.Chain.AuthorAndAppend` | packages/core/src/acl-chain.ts:566-598 | The built and signed entry joins exactly when the longer chain is valid |
| `AclChain.Chain.Replay` | packages/core/src/acl-chain.ts:971-1029 | Replay succeeds exactly on a valid chain with resolvable signers and then holds it; a failing replay keeps exactly the valid prefix before the reported index |
| `AclChain.EveryEntryFits` | packages/core/src/acl-chain.ts:633-943 | Entry i has sequence i, links to the hash of entry i-1, verifies, and was signed by a key the state before it authorized |
| `AclChain.PayloadIsInjective` | packages/core/src/acl-chain.ts:372-438 | Entries admitted by the shape check with the same signed bytes are the same entry |
| `AclChain.RejectedShapesCollide` | packages/core/src/acl-chain.ts:372-395 | A sequence past 32 bits or an empty parent hash always shares its signed bytes with another entry |
| `AclChain.HeadCommitsToChain` | packages/core/src/acl-chain.ts:268-317 | Under a collision-free hash two chains with one head hold the same signed bodies |
| `AclChain.PayloadLength` | packages/core/src/acl-chain.ts:807-817 | After the field bounds the bound on the whole payload cannot be exceeded |
| `EntryPayload.PayloadsAgreeIffNormal` | packages/core/src/acl-chain.ts:268-317 | Two entries share their signed bytes exactly when they agree after 32- and 64-bit wrapping and reading an empty parent as none |
| `EntryPayload.EncodePayload` | packages/core/src/acl-chain.ts:268-317 | Filling the buffer field by field produces the canonical bytes |
| `ChangeTreeWalk.Collect` | packages/core/src/change-tree-walk.ts:104-230 | The explicit-stack walk terminates on every object graph and equals the budgeted recursive visit; the active set is always the open root path |
| `ChangeTreeWalk.CollectMeaning` | packages/core/src/change-tree-walk.ts:104-232 | The walk succeeds exactly when a tree of at most 32768 nodes and 131072 edges shows what lies below the root; it returns its pre-order and a snapshot that reads back as it |
| `ChangeTreeWalk.OpenIsRootPath` | packages/core/src/change-tree-walk.ts:108-125 | The nodes entered and not yet left are a path of distinct nodes from the root |
| `ChangeTreeWalk.EntersVisitAll` | packages/core/src/change-tree-walk.ts:213-228 | Children pushed last to first are visited first to last |
| `ChangeTree.VisitIsPreOrder` | packages/core/src/change-tree-walk.ts:126-212 | The budgeted visit succeeds exactly when the unfolding fits the budgets and then has recorded and copied it |
| `ChangeTree.UnfoldIff` | packages/core/src/change-tree-walk.ts:126-212 | A node unfolds to a tree exactly if the tree shows what lies below it: objects of valid kind within 512 levels, no object below itself, canonical ids, nothing below stop nodes or deferred children |
| `ChangeTree.LayoutCopies` | packages/core/src/change-tree-walk.ts:164-205 | The snapshot objects read back from the root are the tree |
| `Keychain.StandaloneIff` | packages/automerge/src/peerborne-automerge.ts:1745-1780 | A full history merges exactly when one key list continues the other or it shows only the current key; the longer list is kept, and of two histories of one list the one that comes first |
| `Keychain.AppendIff` | packages/automerge/src/peerborne-automerge.ts:1698-1744 | An announced append is taken exactly when it shows the announced key alone and either follows the current key with an unused id within 1000 keys, or is already the current one behind its predecessor |
| `Keychain.AnnouncedAppendConverges` | packages/automerge/src/peerborne-automerge.ts:1698-1744 | What one replica appends and announces another with the same keys appends too, and hearing it again changes nothing |
| `Keychain.PrepareIs` | packages/automerge/src/peerborne-automerge.ts:1665-1790 | A preparation takes the announced append, else a full history, else what the changes add to the base |
| `Keychain.AddKeyStagesIff` | packages/automerge/src/peerborne-automerge.ts:1571-1590 | A local key is staged exactly when its id is new and fewer than 1000 keys exist, at the end |
| `Keychain.CommitsIff` | packages/automerge/src/peerborne-automerge.ts:1599-1619 | A preparation commits exactly while nothing was committed since it was made; it installs what was prepared and is used up |
| `Keychain.HistoriesOrder` | packages/automerge/src/peerborne-automerge.ts:1265-1285 | Histories are ordered by their first different change, changes by their first different byte, a prefix first |
| `Keychain.ExchangeConverges` | packages/automerge/src/peerborne-automerge.ts:1745-1780 | Two replicas exchanging prefix-comparable full histories end with the same one |
| `Keychain.MergeIsAssociative` | packages/automerge/src/peerborne-automerge.ts:1745-1780 | Three replicas with pairwise comparable histories agree whatever the order of merges |
| `Keychain.MergeIsIdempotent` | packages/automerge/src/peerborne-automerge.ts:1745-1780 | Merging a history again, or one's own, changes nothing |
| `Keychain.KeysOnlyAppend` | packages/automerge/src/peerborne-automerge.ts:1571-1619 | Over any interleaving of preparations and commits the key list only grows at its end and never holds one id twice |
| `Keychain.StaleNeverCommits` | packages/automerge/src/peerborne-automerge.ts:1599-1606 | A preparation made before another commit never commits, and none commits twice |
| `Keychain.PreparedOnlyAppends` | packages/automerge/src/peerborne-automerge.ts:1657-1785 | Whatever a preparation publishes is canonical and extends the base |
| `Keychain.CompareHistoriesLoop` | packages/automerge/src/peerborne-automerge.ts:1273-1285 | The history comparison loop is the lexicographic order |
| `Keychain.HistoriesAntisymmetric` | packages/automerge/src/peerborne-automerge.ts:1273-1285 | Comparison is antisymmetric and zero exactly on equal histories |
| `Keychain.HistoriesTransitive` | packages/automerge/src/peerborne-automerge.ts:1273-1285 | Comparison is transitive |
| `OperationIndex.RetainedIndexIsRebuild` | packages/automerge/src/peerborne-automerge.ts:103-161 | Whatever was committed, discarded or failed before, a rebuild from the visible document succeeds and equals the retained index, for every document in which each object was created once and every listing of its changes |
| `OperationIndex.RebuildSucceeds` | packages/automerge/src/operation-targets.ts:34-67 | A bounded index of such a document is what a rebuild gives, in whatever order its changes are listed |
| `OperationIndex.Session.Stage` | packages/automerge/src/peerborne-automerge.ts:103-150 | A preparation succeeds exactly on an open session without a plan in flight and, when inspecting, with an index or a history to build it from, room for the new creations and a path for every new operation; it keeps the index invariant and stages the document, the overlay and the paths |
| `OperationIndex.Session.Commit` | packages/automerge/src/peerborne-automerge.ts:144-151 | Committing shows the staged document and installs the extended index or drops it |
| `OperationIndex.AcceptIsRebuildIff` | packages/automerge/src/operation-targets.ts:86-127 | Accepting an overlay gives the index of the longer history exactly when it redefines no object |
| `OperationIndex.RebuildIndexes` | packages/automerge/src/operation-targets.ts:34-67 | A rebuild that succeeds indexes exactly the creations of the listed changes, in any order |
| `OperationIndex.FindTarget` | packages/automerge/src/operation-targets.ts:94-113 | The parent-climbing loop gives the creation path from the root, cut at the first sequence container |
| `OperationIndex.TargetIff` | packages/automerge/src/operation-targets.ts:94-113 | An operation has a path exactly if its object is at most 64 creations below the root, what is staged counting before what is retained |
| `OperationIndex.AddOpIff` | packages/automerge/src/operation-targets.ts:34-67 | A creation joins the index exactly within the number and object limits, if the object is new or was created just so |
| `OperationIndex.CutPathShape` | packages/automerge/src/operation-targets.ts:106-113 | A path names the map containers above the operation and ends at the first sequence or at the key itself |
| `OperationIndex.CollectPaths` | packages/automerge/src/operation-targets.ts:114-121 | All operations are located or none is reported |
| `GatewayLimits.AdmissionsAreBounded` | relay-server/src/gateway-limits.ts:44-94 | On a clock that never goes back, a span shorter than a minute holds at most twice the per-minute limit of admissions, over all addresses and per address |
| `GatewayLimits.SessionTrafficIsBounded` | relay-server/src/gateway-limits.ts:96-118 | Bytes passed in one session over any stretch of calls are at most burst plus rate times the time between them |
| `GatewayLimits.TotalTrafficIsBounded` | relay-server/src/gateway-limits.ts:96-118 | All bytes that ever passed stay below the total budget and the connection caps hold |
| `GatewayLimits.ExhaustionIsPermanent` | relay-server/src/gateway-limits.ts:57-107 | After exhaustion nobody is admitted and nothing passes any more |
| `GatewayLimits.Limiter.Admit` | relay-server/src/gateway-limits.ts:57-94 | Admits exactly when the gateway is not exhausted, the global and the address windows, the address table and both connection caps have room, and records the attempt in each window it reached |
| `GatewayLimits.Limiter.Consume` | relay-server/src/gateway-limits.ts:96-118 | Bytes pass exactly when they fit the total, the session and the refilled bucket; they are charged either way, and what does not fit the total closes the gateway |
| `GatewayBounds.SpanHoldsTwiceTheLimit` | relay-server/src/gateway-limits.ts:44-51 | Global windows a minute apart cannot put more than two into less than a minute |
| `GatewayLimits.AdmittedIff` | relay-server/src/gateway-limits.ts:57-94 | An attempt is admitted exactly while the gateway is open, the global, the minute and the ten-second window have an attempt left, a new address finds room in the table, and both session limits have room |
| `GatewayLimits.AttemptLeaves` | relay-server/src/gateway-limits.ts:57-94 | An attempt is counted in every window it reached, admitted or not, and leaves a session full of tokens exactly if it was admitted |
| `GatewayLimits.PassesIff` | relay-server/src/gateway-limits.ts:96-118 | Bytes pass exactly for a live session on an open gateway, below the total, within the session's limit and within its refilled bucket |
| `GatewayLimits.TrafficLeaves` | relay-server/src/gateway-limits.ts:96-118 | Traffic is charged to total, session and bucket whether or not it passes; reaching the total closes the gateway and exceeding it charges nothing |
| `GatewayBursts.BurstsAreBounded` | relay-server/src/gateway-limits.ts:57-94 | A span shorter than ten seconds never holds more admissions of one address than `BurstBound`, so never more than three times the ten-second limit, and no more than twice it unless the address was forgotten and seen again inside the span |
| `GatewayBursts.BurstBoundIsReached` | relay-server/src/gateway-limits.ts:57-94 | Where `BurstBound` exceeds twice the limit it is reached: a run with exactly that many admissions of one address in 6.1 seconds, for every such pair of limits |
| `GatewayBursts.TwiceHoldsIff` | relay-server/src/gateway-limits.ts:57-94 | Twice the ten-second limit holds over every run if that limit is at most 1 or the per-minute limit at most two above it, and, when the other limits leave room, only then |
| `GatewayBursts.DemoAdmitsSeven` | relay-server/src/gateway-limits.ts:3-16 | Under the shipped limits of 3 per ten seconds and 6 per minute an address can be admitted 7 times in 6.1 seconds, which is the exact bound |
| `GatewayVisits.TenSecondsHold` | relay-server/src/gateway-limits.ts:44-76 | From the log of one address: at most two burst windows of one record and the first of the next meet in less than ten seconds, less the visits their counters have already seen |
| `GatewayVisits.TenSecondsOfOneRecord` | relay-server/src/gateway-limits.ts:44-76 | Within one record of an address, twice the ten-second limit holds |
| `GatewayVisits.MinuteHoldsTwiceTheLimit` | relay-server/src/gateway-limits.ts:44-76 | Less than a minute meets at most two records of an address |
| `GatewayBounds.PassedIsBounded` | relay-server/src/gateway-limits.ts:108-118 | The token bucket bound from the log of transfers |
| `TopicRegistry.Registry.SubscriptionChanged` | relay-server/src/auto-topic-registry.ts:55-88 | A subscription is linked exactly when the peer has room and the topic is tracked or may be, the peer gets the first answer that applies, and a removal takes exactly that link |
| `TopicRegistry.DecisionIs` | relay-server/src/topic-policy.ts:72-115 | The policy subscribes exactly to a topic that is not tracked, not internal, named by the allowlist or lying in a namespace it names, and within the cap, and otherwise gives the first reason that applies |
| `TopicRegistry.Registry.PeerDisconnected` | relay-server/src/auto-topic-registry.ts:90-104 | Exactly the peer's links go, and the topics nobody else wants are reported |
| `TopicRegistry.Registry.ReconcileTopic` | relay-server/src/auto-topic-registry.ts:110-132 | A tracked topic goes to exactly the reported peers that had it or have room |
| `TopicRegistry.Registry.RemovePeerFromTopic` | relay-server/src/auto-topic-registry.ts:155-173 | One link leaves both maps and the last peer takes the topic with it |
| `TopicRegistry.Drive` | relay-server/src/auto-topic-registry.ts:55-195 | Over every event sequence the maps stay exact inverses within the caps, and folding the emitted actions gives exactly the tracked topics |
| `TopicRegistry.ReconcileIsOk` | relay-server/src/auto-topic-registry.ts:175-195 | Replacing a topic's peers keeps the maps exact and within the caps |
| `TopicRegistry.AddIsExact` | relay-server/src/auto-topic-registry.ts:144-149 | Recording a link keeps the maps exact inverses |
| `WelcomeCodec.Decode` | packages/core/src/beekem-welcome-wire.ts:220-383 | The decoder accepts exactly the messages within the header's bounds whose leaf, path keys and nodes mention every tree index once, whose path keys are for nodes above the leaf in rising order up to the root, and whose other nodes above the leaf are blank; it returns them unchanged |
| `WelcomeCodec.Encode` | packages/core/src/beekem-welcome-wire.ts:90-208 | Encoding fills exactly the omitted slots with blanks and succeeds exactly when the result decodes |
| `WelcomeCodec.RoundTrip` | packages/core/src/beekem-welcome-wire.ts:184-383 | Decoding what was encoded gives the Welcome with its omitted slots blank, and a complete Welcome unchanged |
| `WelcomeCodec.CountIsCover` | packages/core/src/beekem-welcome-wire.ts:365-371 | Distinct indices below the width cover the tree exactly when there are as many as nodes |
| `WelcomeCodec.AcceptedCoversTree` | packages/core/src/beekem-welcome-wire.ts:365-371 | In an accepted Welcome every tree node has exactly one slot |
| `WelcomeCodec.FilledCovers` | packages/core/src/beekem-welcome-wire.ts:184-195 | Filling keeps what was there, adds only blanks at unmentioned indices and completes the cover |
| `WelcomeCodec.InOrderIff` | packages/core/src/beekem-welcome-wire.ts:281-300 | Following the direct path upwards is climbing among the nodes above the leaf |
| `WelcomeCodec.PathKeysClimb` | packages/core/src/beekem-welcome-wire.ts:281-330 | Path keys lie on the direct path in its order, each strictly above the one before, the last being the root's |
| `TreeMath.DirectPathClimbs` | packages/core/src/policy/tree-index.ts:168-183 | The direct path climbs strictly, stays in the tree and ends at the root |
| `TreeMath.DirectPathIsAncestors` | packages/core/src/policy/tree-index.ts:168-183 | The direct path holds every node of the tree above the given one, and nothing else |
| `TreeMath.RootIsAbove` | packages/core/src/policy/tree-index.ts:49-58 | The root is a node of the tree above every other |
| `TreeMath.LevelCountsTwos` | packages/core/src/policy/tree-index.ts:20-31 | The level of a node is the number of twos in its index plus one |
| `TreeMath.ParentOfAt` | packages/core/src/policy/tree-index.ts:109-118 | One parent step goes to the next level at half the position |
| `JournalStoreObjects.IndexedStore.Load` | packages/core/src/document-journal-store.ts:538-681 | Loading any document of a well-formed database succeeds with exactly the snapshot the tables stand for |
| `JournalStoreObjects.IndexedStore.Discard` | packages/core/src/document-journal-store.ts:935-945 | Discarding replaces exactly one document's snapshot by the discarded one |
| `JournalStoreObjects.IndexedStore.PublicationSent` | packages/core/src/document-journal-store.ts:946-963 | Marking a publication sent replaces exactly one document's snapshot by the one without it |
| `JournalStoreObjects.InMemoryStore.Discard` | packages/core/src/document-journal-store.ts:424-430 | Discarding drops the pending row when the token matches |
| `AuthorityLog.Log.Capture` | packages/core/src/document-authority-log.ts:349-363 | A lease is given exactly for the group state the newest record names, the only record of the history with that state, and grants that record's roles |
| `GatewayLimits.Limiter.Release` | relay-server/src/gateway-limits.ts:120-122 | Releasing removes the session and nothing else |
| `OperationIndex.Session.Discard` | packages/automerge/src/peerborne-automerge.ts:152-156 | Discarding leaves document and index as they are |
| `OperationIndex.Session.Close` | packages/automerge/src/peerborne-automerge.ts:197-200 | Closing discards the plan in flight and leaves document and index as they are |
| `TopicRegistry.Registry.RecordPeerTopic` | relay-server/src/auto-topic-registry.ts:144-149 | Recording a link that is accepted adds it to both maps and keeps the caps |
| `Keychain.CompareBytesLoop` | packages/automerge/src/peerborne-automerge.ts:1265-1271 | The byte comparison loop is the lexicographic order |
| `AclValidation.CollectWrites` | packages/automerge/src/peerborne-automerge.ts:597-625 | The operations of a change are valid or refused, and the last write to each key is kept |
| `OperationIndex.Climb` | packages/automerge/src/operation-targets.ts:94-105 | Climbing the parents succeeds exactly on an object whose creation chain reaches the root within the limit |
| `WelcomeCodec.ReadPathKeys` | packages/core/src/beekem-welcome-wire.ts:284-325 | Reading the path keys covers distinct nodes above the leaf in rising order, or the message is malformed |
| `WelcomeCodec.ReadNodes` | packages/core/src/beekem-welcome-wire.ts:330-363 | Reading the nodes covers the remaining distinct indices, blank where the direct path omitted a key, or the message is malformed |

## Left out

- Real cryptography, key derivation and the byte layout of journal entries, content frames, authority records and publications.
- The Automerge engine: applying, cloning, saving and merging documents, and the validation of keychain change bytes.
- Field-level write paths of members, and the persisted copies of authority records inside journal items.
- A document without a journal, and the in-memory publication list it keeps.
- Remote frame signatures: a received frame is any content the current roster would allow its author to write.
- Operations queued while another is in flight: an instance's queue runs one at a time, so each instance has one operation slot.
- Recovery among several live instances is proved for a reopening that the others do not interrupt.
- A commit hook that calls its callback after its own promise has settled; the coordinator's hook never does.
- `AutomergeACL` accounting, pending changes and prepared commits; only the validation of its history is modelled.
- The single-use phase machine of prepared document changes: settled by reading its four branches.
- Aggregate decode budgets of the Welcome codec, and base64 encoding.
- Two outstanding claims on one prepared keychain change, which the source leaves to its callers.
- IndexedDB, libp2p and HTTP plumbing, user interface and configuration.
