# Live collaboration, modelled and proved

This project models the collaborative-editing core of LiveBin in Dafny and proves what it is for: concurrent
edits converge, the room is an authority that no sequence of operations can put into an inconsistent state, what
is stored is what is held in memory, every peer gets every change once and in order, and a client that folds what
it gets holds the server's documents.

`dafny verify dfyconfig.toml` checks everything.

## How the model is laid out

| modules | what they model |
|---|---|
| `Scripts`, `Utf16`, `ChangeSets`, `Mapping`, `Convergence`, `Merges`, `Surrogates`, `Positions` | change sets over UTF-16 code units: apply, map, positions; convergence as a canonical merge; which units that merge contains in which order; what Go's repair of lone surrogates does to it |
| `Encoding`, `Histories`, `Replay` | the persisted form of a change set, one document with its retained edits, rebasing, pruning, replaying a log |
| `Sequences`, `Validation`, `Authority`, `AuthorityInvariant`, `Stores`, `StoreSafety`, `Durability`, `Rooms`, `Replies`, `Loading`, `Recovery`, `Backups`, `Runs` | the room as a state machine with its invariant, the SQLite transactions as atomic steps and what they keep whatever they are given, the room's own methods against both, what it answers and why, replaying logs and recovering from tables behind them, rollback on the heap, whole runs |
| `Clients`, `Bridges`, `Scars`, `Reconnection`, `Lagging`, `Authors` | the browser's fold of server events, bridging a reconnecting client, also from a room loaded behind its log, the author of a stale edit |
| `Publication`, `Delivery`, `Interleavings`, `Streams`, `Mirrors` | the reference-counted room lock, peers and their queues under every interleaving of threads, in-order delivery, and end to end from queue to client copy |
| `Resync`, `Retries`, `Presence`, `Admissions`, `PresenceRooms`, `Snapshots`, `RateLimits` | the browser's resync controller and that it gets on, participants and slots, who is let in and who is forgotten, the snapshot diff, the token buckets |

Code that mutates is modelled by classes and loops (`Mapping.SectionIter`, `Stores.Store`, `Rooms.Room`,
`Clients.ClientRoom`, `Publication.Registry`, `Delivery.LivePeer`, `Resync.Controller`,
`PresenceRooms.PresenceRoom`, `RateLimits.Registry`), each method proved against a function or relation on values.
The theorems about runs are then proved of those functions and relations, and so are theorems that say what they mean
without them: `Merges`, `Replies`, `StoreSafety`, `Retries`, `Admissions`, `Positions.PositionSplits` and
`RateLimits.AdmittedExactly` describe results by plain state, in both directions.

### Where the code does not keep a promise outright

- The server stores Go strings, so applying an edit that leaves half of a surrogate pair turns the half into
  U+FFFD. Two edits then need not converge: `Surrogates.StoredDiverges` is such a pair, and
  `Surrogates.StoredConverges` says for all edits when they do. Over raw code units they always do
  (`Convergence.Converges`).
- For the same reason a browser, which applies raw units, can differ from the server after folding a bridge.
  `Reconnection.BridgeSound` says exactly when: some unit that the server repaired has not been deleted again;
  `Mirrors.QueueMirrorsRoom` and `Authors.AuthorConverges` say the same of live events and of an edit's author.
  `Scars.HalfLeavesScar` is a smallest example.
- `diffLiveDocuments` hands its insertion to CodeMirror, which reads carriage returns as line breaks:
  `Snapshots.DiffExactly` says when the diff is exact, `Snapshots.ReturnIsLost` is a text it loses.
- The room accepts operation ids with surrounding white space and the store refuses them, so such an operation
  always ends in a persistence error: `Durability.EditCommits` and `Durability.MetadataCommits` give the exact
  condition, `Durability.PaddedIdNeverCommits` an input.
- A room that is loaded by replaying tab changes does not retain them and yet claims to reach back behind them.
  Such a room bridges every honest client soundly if and only if, when it was loaded, the revision of the tab list's
  snapshot was the metadata revision (`Lagging.LoadedBridgesExactly`, and `Recovery.LoadRoom` for the room's
  invariant); a client it does not ask to resync is bridged soundly if and only if it already knew the current
  metadata revision (`Lagging.LaggingBridge`). `Lagging.RenamingIsMissed` is a client that keeps a tab's old name.
- The limiter admits more than its rate promises when entries are evicted sooner than the rate's window:
  `RateLimits.AdmissionBound` needs `staleAfter >= Window`, and `RateLimits.EarlyEvictionOverspends` breaks the
  bound for every rate for which that fails.

## Model

| member | source | states |
|---|---|---|
| Merges.MergeContents | internal/livecollab/changes.go:219-302 | by the origin of its units, the canonical merge holds exactly the document units neither side deletes and exactly each side's insertions, all in order |
| Merges.MergeInOrder | internal/livecollab/changes.go:234-248 | its units stand by their offset in the common document; at one offset insertions before the document's unit, the one that replaces fewer units first, and of equally wide ones the first side's |
| Merges.MergedContents | internal/livecollab/changes.go:219-302 | the same for every two change sets and every document: the union of the deletions is deleted, every inserted text is kept once, and everything stands in that order |
| Merges.MergedOnly | internal/livecollab/changes.go:219-302 | and no other text has these contents in this order |
| Merges.MappedContents | internal/livecollab/changes.go:219-279 | so applying a mapped change set after the other gives exactly that text, the mapped side first on ties if and only if it maps before |
| Merges.Colliding | internal/livecollab/changes.go:236-248 | two replacements at one offset, for every text, offset, widths and inserted texts: both texts stand there, the narrower replacement's first, and on equal widths the mapped one's first if and only if it maps before |
| Scripts.FirstMappedIsMerge | internal/livecollab/changes.go:219-302 | an edit rewritten to follow another, played after it, gives the canonical merge |
| Scripts.SecondMappedIsMerge | internal/livecollab/changes.go:219-302 | the other order gives the same merge |
| Mapping.Concatenated | internal/livecollab/changes.go:191-213 | the apply loop yields, for any document of the right length, the kept units and inserted texts in section order, before Go re-decodes them |
| Mapping.Apply | internal/livecollab/changes.go:191-214 | applying fails exactly on another length and otherwise yields the repaired text |
| Mapping.SectionIter.Next | internal/livecollab/changes.go:318-326 | the iterator moves to the next section and keeps what is left of the change set |
| Mapping.SectionIter.Forward | internal/livecollab/changes.go:346-353 | consuming part of a section leaves exactly the rest of it |
| Mapping.ResultSet.AddSection | internal/livecollab/changes.go:281-302 | joining or appending a section adds exactly its edits and keeps the set well-formed |
| Mapping.Map | internal/livecollab/changes.go:219-279 | mapping terminates and never fails on sets of equal old length, and its result has exactly the edits of the rewritten script, of which `Merges.MappedContents` says what they make; other lengths are refused |
| Convergence.MappedFits | internal/livecollab/changes.go:219-353 | a mapped set's old length is the other set's new length, so it always applies to the other's output |
| Convergence.Converges | internal/livecollab/changes.go:219-302 | for all edits and documents, both orders of two concurrent edits give the same code units, the canonical merge |
| Convergence.RebaseConverges | internal/live/hub.go:849-857 | an edit rebased over any number of accepted edits gives the text of an author who applied it first and then received each of them mapped over it |
| Surrogates.StoredConverges | internal/livecollab/changes.go:213-213 | with the server's repair after each step, the two orders agree if and only if the edits agree on every surrogate pair of the merged text |
| Surrogates.WholePairsConverge | internal/livecollab/changes.go:213-213 | edits of which neither splits a pair meet that condition, so they converge as stored |
| Surrogates.StoredDiverges | internal/livecollab/changes.go:213-213 | two concrete edits whose stored texts differ by order |
| Positions.MapPos | internal/livecollab/changes.go:363-392 | position mapping fails exactly outside the old document, and otherwise yields the position with exactly those units before it that stem from old units before the position or were inserted before it |
| Positions.PositionSplits | internal/livecollab/changes.go:363-392 | of text inserted at the position, or in place of a range around it, the right side has all before it and the left side none |
| Positions.SourcesOfApplied | internal/livecollab/changes.go:191-212 | every unit of the new document is the old unit or the inserted one that is said to be there |
| Positions.SidesApart | internal/livecollab/changes.go:363-392 | the two sides of a position are apart by exactly the text inserted there |
| Positions.LeftBehindRetained | internal/livecollab/changes.go:363-392 | behind a retained unit the left side is one past that unit's place in the new document |
| Positions.SelectionKeeps | internal/livecollab/changes.go:394-414 | a mapped selection, either way round, covers exactly what is left of the selected text and what was inserted strictly inside it |
| Positions.PositionMonotone | internal/livecollab/changes.go:363-392 | mapping keeps the order of positions for a fixed side |
| Positions.PositionSides | internal/livecollab/changes.go:363-392 | the left side never maps beyond the right side |
| Positions.RetainedUnit | internal/livecollab/changes.go:191-212 | every retained unit stands, before re-decoding, where its position maps to |
| Positions.RetainedStored | internal/livecollab/changes.go:191-214 | in the stored text it stands there too, or U+FFFD if it lost the other half of its pair |
| Positions.MapRange | internal/livecollab/changes.go:394-414 | a caret sticks to the left, a range shrinks to what is left of it, and the result is in bounds; out-of-bounds selections are refused |
| Positions.MapSelection | internal/live/hub.go:1761-1770 | the room's mapping: the same with carets sticking to the right |
| Positions.PlaceSelection | internal/live/hub.go:1048-1074 | a presence selection is accepted exactly when its revision is retained and it was inside that revision's text, and is then mapped through every later edit into the current text |
| Encoding.JoinedLines | internal/live/hub.go:1677-1691 | joining the lines of a text gives the text back |
| Encoding.LinesSplit | internal/live/hub.go:1677-1691 | and no line holds a newline |
| Encoding.Encode | internal/live/hub.go:1677-1691 | the encoder emits a number per unchanged section and the old length with the inserted lines per change |
| Encoding.Parse | internal/livecollab/changes.go:99-156 | the parser accepts exactly well-formed parts and yields the change set they describe |
| Encoding.RoundTrip | internal/livecollab/changes.go:99-156 | parsing an encoded change set gives it back, for every change set |
| Encoding.ParsesExactly | internal/livecollab/changes.go:99-156 | whoever wrote them, exactly lists of non-negative lengths and of arrays of one with strings or nulls parse, and their lengths add up to the document's |
| Encoding.PartParses | internal/livecollab/changes.go:118-156 | what one part means: a stretch, nothing for an empty one, or a replacement by its lines, a null being an empty line |
| Histories.FindLength | internal/live/hub.go:1432-1442 | every retained revision, and no other, has a length |
| Histories.Rebase | internal/live/hub.go:849-857 | rebasing from any retained revision never fails and fits the current text |
| Histories.PruneHistory | internal/live/hub.go:1565-1579 | pruning keeps the newest revisions within both bounds, with one more it would exceed a bound, and the byte counter stays exact |
| Histories.ExtendedCoherent | internal/live/hub.go:1504-1515 | one more accepted edit keeps consecutive revisions, chained lengths and the byte sum |
| Replay.ApplyPersisted | internal/live/hub.go:1736-1759 | one persisted change takes the document to its next revision or fails |
| Replay.ReplayDocument | internal/live/hub.go:529-549 | a log that persists live edits after a snapshot rebuilds the live text, the revision and a coherent, bounded history of the newest edits; any other log fails or leaves a coherent, bounded document at the declared revision |
| AuthorityInvariant.NextDocumentFits | internal/live/hub.go:1504-1515 | the next revision keeps the history invariant and the recorded texts it leads through |
| AuthorityInvariant.EditKeepsValid | internal/live/hub.go:797-892 | accepting an edit that fits keeps the whole invariant of the room |
| AuthorityInvariant.RestructureKeepsStructure | internal/live/hub.go:929-1014 | create, update, delete and reorder keep the order a repetition-free list of all documents, within tabs and bytes |
| AuthorityInvariant.ViewRestructured | internal/live/hub.go:929-1014 | the tab list of the changed room is the old tab list changed the way clients change theirs |
| AuthorityInvariant.MetadataKeepsValid | internal/live/hub.go:894-1033 | accepting a metadata change keeps the whole invariant |
| Stores.Store.CommitChange | internal/storage/sqlite/live.go:250-369 | the transaction succeeds exactly when every check holds, those on rows, labels and ids included, then has its whole effect, and otherwise none |
| Stores.Store.LoadChangesSince | internal/storage/sqlite/live.go:549-620 | fails exactly on an unknown stream or a gap, and otherwise yields exactly the stream's later changes in order |
| Stores.OrderedRows | internal/storage/sqlite/live.go:110-137 | the document rows, each once, by position |
| Stores.Store.SaveSnapshot | internal/storage/sqlite/live.go:175-244 | replaces all rows by a snapshot of the same revisions, or nothing |
| Stores.Store.AppendChanges | internal/storage/sqlite/live.go:453-547 | appends a list of document and metadata changes to their logs, each as the next revision of a stream that exists, all of them or none, without touching any snapshot |
| Stores.SyncDocuments | internal/storage/sqlite/live.go:401-451 | synchronising makes the document rows exactly the snapshot's |
| StoreSafety.CommitKeepsTables | internal/storage/sqlite/live.go:250-369 | whatever snapshot, change and operation it is given, a transaction that succeeds leaves rows with acceptable labels and revisions, every remembered operation once, and no change ahead of the metadata revision |
| StoreSafety.SaveKeepsTables | internal/storage/sqlite/live.go:175-244 | so does saving a snapshot |
| StoreSafety.SaveMovesNothing | internal/storage/sqlite/live.go:175-244 | and takes no document and no tab list to another revision |
| StoreSafety.AppendsKeepTables | internal/storage/sqlite/live.go:453-547 | and appending changes |
| StoreSafety.CommittedOnce | internal/storage/sqlite/live.go:250-324 | once a change is committed, no other commit of that revision, and none of that operation, succeeds |
| StoreSafety.CommitWrites | internal/storage/sqlite/live.go:285-364 | what a commit writes: its change without those it compacts, its operation without the oldest, all rows or the edited document's |
| Durability.NewRoomIsValid | internal/storage/sqlite/live.go:19-40 | a room created with some first documents satisfies the invariant, and the tables it is created with agree with it |
| Durability.EditRows | internal/storage/sqlite/live.go:285-324 | for an edit, updating the one document row gives the same rows as rewriting all of them |
| Durability.EditCommits | internal/storage/sqlite/live.go:909-914 | of the edits the room accepts, the store accepts exactly those whose operation and client ids have no surrounding white space |
| Durability.PaddedIdNeverCommits | internal/storage/sqlite/live.go:909-914 | an operation id with a leading space passes the room's test and never commits |
| Durability.EditStaysInAgreement | internal/live/hub.go:1451-1502 | after an edit, memory and store agree on documents, order, revisions, ledger and log |
| Durability.MetadataCommits | internal/storage/sqlite/live.go:325-343 | the same for the metadata changes the room accepts |
| Durability.MetadataStaysInAgreement | internal/live/hub.go:1451-1502 | after a metadata change, memory and store agree |
| Durability.LedgerFollows | internal/storage/sqlite/live.go:355-364 | pruning the operation table keeps the rows of exactly the remembered operations |
| Rooms.ValidateDocumentOrder | internal/live/validation.go:125-140 | exactly the repetition-free lists of valid ids within the limit pass |
| Loading.RecordRoundTrip | internal/live/hub.go:468-516 | every record of a valid ledger, written to the operation table, is read back the same |
| Loading.DecodesExactly | internal/live/hub.go:468-516 | exactly rows with proper ids, revisions, streams and well-formed parts decode, to what they say |
| Loading.LoadOperations | internal/live/hub.go:449-466 | loading the ledger fails exactly on a row that does not decode or repeats an id, and otherwise yields the rows' records in order |
| Loading.LoadDocument | internal/live/hub.go:529-549 | one document from its row and the store's log: its live text, revision and a coherent, bounded history that the log holds |
| Loading.ReplayDocuments | internal/live/hub.go:529-549 | the same for all documents |
| Loading.ReplayMetadata | internal/live/hub.go:518-528 | the persisted tab changes are replayed in order, stopping at the first that fails |
| Loading.PersistedIsRestructured | internal/live/hub.go:1693-1734 | replaying an accepted tab change does to documents and order what accepting it did |
| Recovery.AgreeingRecovers | internal/live/hub.go:398-447 | tables that agree with a room are ones it can be recovered from |
| Recovery.AppendedEditRecovers | internal/storage/sqlite/live.go:453-547 | appending an edit to the log keeps the tables recoverable, to the edited room |
| Recovery.AppendedStructureRecovers | internal/storage/sqlite/live.go:453-547 | so does appending a tab change, to the restructured room |
| Recovery.StructureReplays | internal/live/hub.go:518-528 | replaying the tab changes persisted since the tab list's snapshot succeeds, and after each of them order, names and languages are those the live room had then |
| Recovery.LoadRoom | internal/live/hub.go:398-447 | from any tables whose rows, of documents and of the tab list, are at revisions their logs lead on from, loading yields a room with the live texts, names, languages, order, revisions and ledger that agrees with the repaired store; it fails only if the repair cannot be saved; the room satisfies the invariant if and only if no tab change had to be replayed |
| Rooms.Room.ContentSizeWith | internal/live/hub.go:1413-1430 | the size with one text exchanged is the sum over the documents |
| Rooms.Room.Remember | internal/live/hub.go:1548-1563 | the ledger takes the record and drops exactly the oldest beyond its bound |
| Rooms.Room.Screen | internal/live/hub.go:797-848 | the checks before rebasing, in their order, decide as specified; `Replies.EditRefusals` says what for |
| Rooms.Room.RebaseAndApply | internal/live/hub.go:849-862 | a screened edit can always be rebased and applied |
| Rooms.Room.CommitEdit | internal/live/hub.go:866-892 | the exact reply: refused for its payload, refused by the store, or accepted; a refusal leaves memory and store as they were, acceptance advances both together |
| Rooms.Room.SubmitDocument | internal/live/hub.go:797-892 | an edit fails a listed check, is answered from the ledger, or is refused if and only if its rebased form does not fit, its payload is too large or the store does not commit it; otherwise that form becomes the next revision; invariant and agreement with the store always hold |
| Rooms.Room.Propose | internal/live/hub.go:894-1014 | the checks of a metadata operation and the change it asks for |
| Rooms.Room.RecordMetadata | internal/live/hub.go:1517-1541 | the metadata history takes the change or is dropped whole when compacted |
| Rooms.Room.PersistMetadata | internal/live/hub.go:1451-1502 | a failed commit of a metadata change puts documents, order and revision back exactly |
| Backups.HeapRoom.TryEdit | internal/live/hub.go:1581-1596 | on the heap: an edit overwritten in a shared document object leaves no trace if it does not commit |
| Backups.HeapRoom.TryDelete | internal/live/hub.go:1581-1596 | nor does a deletion that closed up the order array in place |
| Rooms.Room.CommitMetadata | internal/live/hub.go:1016-1033 | the exact reply, and all or nothing, for metadata changes |
| Rooms.Room.ApplyMetadata | internal/live/hub.go:894-1033 | a metadata operation fails a listed check, is answered from the ledger, or is refused if and only if its payload is too large or the store does not commit it; otherwise memory and store advance by one metadata revision |
| Replies.EditRefusals | internal/live/hub.go:797-847 | each refusal before rebasing exactly under its condition on the room's state; an edit is told to resync if and only if its base is older than the retained revisions, and being stale is no reason to refuse it |
| Replies.EditsInOrder | internal/live/hub.go:849-892 | a new edit of any retained revision, made for that revision's text, is rebased and refused only if its rebased form does not fit the room or the message limit or the store does not take it, each reason exactly |
| Replies.StaleEditAccepted | internal/live/hub.go:827-892 | so a permitted stale edit with proper ids is accepted as the document's next revision |
| Replies.LateRefusals | internal/live/hub.go:836-892 | and no other reason is ever given |
| Replies.EditLeaves | internal/live/hub.go:863-892 | an accepted edit leaves the stored text of its rebased form, everything else as it was, and a history longer by one unless that exceeds a bound |
| Replies.MetadataRefusals | internal/live/hub.go:894-930 | the refusals of metadata operations that do not depend on the request, each exactly under its condition |
| Replies.CreateReplies | internal/live/hub.go:932-963 | a document is created unless the room is full, its labels or text are not acceptable or no id is left, each reason exactly |
| Replies.UpdateReplies | internal/live/hub.go:964-977 | a document is renamed unless it is gone or the labels are not acceptable |
| Replies.DeleteReplies | internal/live/hub.go:978-1003 | a document is deleted unless it is gone or the last one |
| Replies.ReorderReplies | internal/live/hub.go:1004-1014 | an order is accepted if and only if it was made for the current metadata revision and lists exactly the room's documents, once each |
| Replies.CreateLeaves | internal/live/hub.go:948-963 | the created document has the requested labels and content, revision 0 and the last place; every other document is untouched |
| Replies.UpdateLeaves | internal/live/hub.go:964-977 | the document asked for has the requested name and language; every other document, every text and the order are untouched |
| Replies.DeleteLeaves | internal/live/hub.go:978-1003 | the document asked for is gone, from the order too; every other document is untouched |
| Replies.ReorderLeaves | internal/live/hub.go:1004-1014 | the order is the requested one; every document is untouched |
| Replies.ChangeRetained | internal/live/hub.go:1517-1546 | an accepted change is the next metadata revision and is retained unless the history would exceed a bound |
| Runs.RunKeepsValid | internal/live/hub.go:797-1033 | the invariant holds in every state of every run |
| Runs.LedgerIsNewest | internal/live/hub.go:1548-1563 | along every run the ledger is exactly the newest accepted operations, in order |
| Runs.RememberedOnce | internal/live/hub.go:811-819 | a remembered operation id never changes the room again; a permitted equal request gets the recorded answer and any other is refused as a duplicate |
| Runs.RunReconciles | web/src/live-reconciliation.ts:26-43 | every later state of a run passes the client's test against every earlier one |
| Runs.ReconcilingNeverLowers | web/src/live-reconciliation.ts:26-43 | a snapshot that passes lowers no revision of a document it lists and drops documents only with a newer metadata revision |
| Clients.ClientRoom.ApplyDocumentEvent | web/src/live-room.tsx:380-436 | unknown documents and seen revisions are skipped, gaps refused, and the next revision applied |
| Clients.ClientRoom.ApplyMetadataEvent | web/src/live-room.tsx:438-538 | older metadata events are skipped, gaps refused, reorders that do not place every document refused and otherwise sorted by last place, the rest folded |
| Clients.EditsLeaveNoGap | web/src/live-room.tsx:380-436 | edits that a client folds without refusal leave no gap: it was given every revision it went through and ends no earlier than any edit it was given |
| Clients.StructuresLeaveNoGap | web/src/live-room.tsx:438-462 | so it is with the events of the tab list |
| Clients.LastPlacesOrder | web/src/live-room.tsx:498-516 | an order with repetitions names each of its ids once, by the last place it has |
| Clients.SortedExactly | web/src/live-room.tsx:498-516 | sorting by place keeps every document of an id in the order, and their order among themselves |
| Clients.SortedInOrder | web/src/live-room.tsx:498-516 | and puts those of earlier places first |
| Clients.RenameDocuments | web/src/live-room.tsx:486-492 | exactly the documents with the id get the name and language |
| Bridges.BridgeRoom | internal/live/hub.go:1162-1219 | the bridge is resync outside the retained revisions and otherwise the retained tab changes and the retained edits of each document in order |
| Bridges.MetadataSince | internal/live/hub.go:1176-1190 | the tab changes after a revision, with documents created since known at 0 and deletions noted |
| Bridges.AllEditsSince | internal/live/hub.go:1202-1217 | the retained edits after each known revision, document by document |
| Scars.ReceivedExactly | internal/livecollab/changes.go:213-213 | a receiver of raw edits has the server's text if and only if every repaired unit was deleted again |
| Scars.WholePairsHeal | internal/livecollab/changes.go:213-213 | edits that split no surrogate pair leave no scar |
| Scars.HalfLeavesScar | internal/livecollab/changes.go:213-213 | deleting half of a pair leaves one |
| Reconnection.StructureFolds | web/src/live-room.tsx:438-538 | folding a recorded tab change takes the tabs of one revision to those of the next and keeps each document's text and revision |
| Reconnection.BridgeSound | internal/live/hub.go:1162-1219 | a client that held the server's state folds the bridge without refusal into the current order, names, languages and revisions, with each text the server's but for its scars; the copy is the server's state if and only if no scar is left |
| Reconnection.MirroredDocument | web/src/live-room.tsx:380-436 | a mirrored document has the server's text if and only if its own scars are healed |
| Reconnection.ExactMirror | web/src/live-room.tsx:380-538 | a mirror is the server's state if and only if all of them are |
| Lagging.LaggingBridge | internal/live/hub.go:1162-1219 | a room loaded behind its metadata log bridges an honest client it does not ask to resync into a mirror if and only if the client knew the current metadata revision |
| Lagging.BridgesSoundlyExactly | internal/live/hub.go:1167-1201 | such a room bridges all honest clients soundly if and only if its compacted mark is at its metadata revision |
| Lagging.LoadedBridgesExactly | internal/live/hub.go:398-447 | for a loaded room that is so if and only if the tab list's snapshot was at the metadata revision |
| Lagging.RenamedRoomRecovers | internal/live/hub.go:518-528 | concrete tables, one tab renamed since the snapshot, from which loading yields a room that lags |
| Lagging.RenamingIsMissed | internal/live/hub.go:1693-1734 | a client that saw the old name is bridged from that room without being told the new one |
| Reconnection.ResyncOnlyWhenCompacted | internal/live/hub.go:1167-1201 | an honest client is told to resync if and only if a change it needs is no longer retained |
| Authors.AuthorConverges | internal/live/hub.go:849-862 | the author of a stale edit ends with the text the server stores for its rebased form if and only if no repair since the base revision left a scar |
| Authors.AcceptedConverges | internal/live/hub.go:849-862 | so it is for the author of every edit the room accepts |
| Publication.Registry.Enter | internal/httpapi/live_publication.go:25-32 | entering finds or creates the slug's entry and counts the thread |
| Publication.Registry.Take | internal/httpapi/live_publication.go:34-34 | taking the free mutex makes the thread its holder |
| Publication.Registry.Give | internal/httpapi/live_publication.go:35-36 | giving the mutex back |
| Publication.Registry.Leave | internal/httpapi/live_publication.go:37-42 | leaving uncounts the thread and removes an entry nobody uses |
| Publication.MutualExclusion | internal/httpapi/live_publication.go:24-44 | in every interleaving at most one thread holds a slug's lock |
| Publication.EntryIffUsed | internal/httpapi/live_publication.go:24-44 | an entry exists exactly while some thread holds, awaits or is leaving it |
| Delivery.LivePeer.Enqueue | internal/httpapi/live.go:551-563 | a frame within the limit is queued if the channel of a peer that is not done has room; a peer is stopped if and only if the frame is oversized or the channel full |
| Delivery.LivePeer.Stop | internal/httpapi/live.go:579-584 | stopping happens once and closes done |
| Delivery.LivePeer.Write | internal/httpapi/live.go:640-664 | the socket writer takes the oldest frame still queued |
| Delivery.WorkKeeps | internal/httpapi/live.go:744-791 | every step of a join or submit under the lock keeps each peer's queue its bridge followed by the log |
| Delivery.FreeKeeps | internal/httpapi/live.go:551-584 | so does every notice, stop, removal and socket write from outside the lock |
| Interleavings.NextFits | internal/httpapi/live.go:925-956 | every step of every thread keeps the invariant; only the lock's holder has work under way |
| Interleavings.QueueIsBridgeThenLog | internal/httpapi/live.go:744-791 | in every interleaving, an unstopped peer's changes are its bridge followed by the accepted changes since it joined, each once and in order, and all of them when no publication is under way |
| Interleavings.StoppedOnlyWhen | internal/httpapi/live.go:551-584 | in every interleaving, publishing and joining stop a peer only with a frame beyond the limit or a full channel; anything else that stops it closes its connection |
| Interleavings.EverythingDelivered | internal/httpapi/live.go:925-956 | so a peer whose writer keeps up with frames within the limit and whose connection nobody closes is not stopped, and when no publication or join is under way its queue holds its bridge and every accepted change since |
| Streams.AcceptsAdvances | internal/live/hub.go:797-1033 | an accepted change is the next revision of its document or of the tab list, and moves no other |
| Streams.BridgeInOrder | internal/live/hub.go:1162-1219 | the bridge takes every document from the join point to its current revision without a gap |
| Streams.DeliveredInOrder | internal/httpapi/live.go:925-956 | in every interleaving, until a peer is stopped, the changes queued to it for a document or the tab list have consecutive revisions from its join point |
| Streams.NoGap | internal/httpapi/live.go:551-563 | in such a queue the n-th change of a document has the n-th revision after the join point |
| Mirrors.EventMirrored | web/src/live-room.tsx:380-538 | a client that mirrors the room folds the next published change into a mirror of the changed room |
| Mirrors.RetryFolds | internal/httpapi/live.go:925-956 | a remembered answer that is repeated to its submitter changes nothing in a copy that mirrors the room: seen edits are skipped, the newest tab change is folded again to no effect |
| Mirrors.QueueMirrorsRoom | internal/httpapi/live.go:744-791 | end to end: folding the changes queued to an unstopped, bridged peer gives the room's tabs, order and revisions, each text but for its scars, and the room's very state if and only if every scar was deleted again |
| Resync.Controller.Start | web/src/live-resync.ts:75-87 | starting opens a session or restarts its request |
| Resync.Controller.BufferEvent | web/src/live-resync.ts:89-100 | events are buffered while active; an overflow begins a new request |
| Resync.Controller.Stop | web/src/live-resync.ts:102-108 | stopping drops everything |
| Resync.Controller.Begin | web/src/live-resync.ts:110-123 | a request begins with an empty buffer and a new generation, within budget, or the session fails |
| Resync.Controller.OnResponse | web/src/live-resync.ts:124-157 | only the pending request's response has an effect |
| Resync.Controller.OnSnapshot | web/src/live-resync.ts:124-149 | the buffered events are offered in order until one is refused |
| Resync.Controller.Retry | web/src/live-resync.ts:160-174 | a retry is scheduled with back-off while attempts and time remain |
| Resync.Controller.OnRetryTimer | web/src/live-resync.ts:170-173 | a due retry begins the next request |
| Resync.Controller.OnDeadline | web/src/live-resync.ts:80-83 | the deadline fails a session that is still active |
| Resync.HandledKeeps | web/src/live-resync.ts:75-212 | every input keeps the controller's invariant and a proper trace |
| Resync.HandOver | web/src/live-resync.ts:123-149 | after any inputs, a session that succeeded had offered exactly the events received since its last request began, once each, in order, after that request's snapshot |
| Resync.Bounds | web/src/live-resync.ts:176-181 | requests stay within attempts and time, the buffer within its limit, and only the newest request is ever judged |
| Resync.EndsOnce | web/src/live-resync.ts:183-189 | a session ends at most once |
| Resync.StaleIgnored | web/src/live-resync.ts:191-198 | any other response changes nothing |
| Retries.StartRequests | web/src/live-resync.ts:75-123 | starting sends a request at once if attempts and time remain, and fails the session if not |
| Retries.ArrivalBuffers | web/src/live-resync.ts:89-100 | an event is buffered while there is room; the one too many starts the request over |
| Retries.ResponseLeads | web/src/live-resync.ts:123-174 | a reconciled snapshot after which every buffered event is accepted ends the session in success; a terminal one fails it; anything else is tried again if and only if attempts and time remain for the delay |
| Retries.RetryRequests | web/src/live-resync.ts:170-181 | a retry that comes due sends the next request if it still may |
| Retries.DelayDoubles | web/src/live-resync.ts:160-166 | delays start at the base and double up to the maximum |
| Retries.NeverStuck | web/src/live-resync.ts:75-212 | after any inputs, a session under way waits for its request or its next retry, and for its deadline, unless its request was aborted |
| Presence.CreatorNeverRefused | internal/live/hub.go:741-761 | with a creator hash and no creator present, a creator's join is never refused for lack of room |
| Presence.CreatorEntersUnlessFull | internal/live/hub.go:585-591 | a newcomer with the creator's capability is refused for lack of room if and only if every writer slot is taken |
| Presence.SlotReserved | internal/live/hub.go:741-761 | without a creator a writer slot is free |
| Presence.RunKeeps | internal/live/hub.go:554-631 | after any actions, participants, sessions and names are mutually inverse, writers, viewers and participants within their limits, and in an open room exactly connectionless participants have a loss time |
| Presence.AfterKeeps | internal/live/hub.go:554-646 | every single action keeps that |
| Presence.RemovedOnlyWhenLost | internal/live/hub.go:1290-1333 | a participant disappears only without a live connection and more than the grace period after its loss |
| Presence.JoinIssues | internal/live/hub.go:554-646 | the session a join returns may act at once, with a generation its participant has used |
| Presence.ReplacedNeverActs | internal/live/hub.go:1273-1288 | along every run, once the connection of a session that a join returned is gone or replaced, that session never acts again while the participant's record lives |
| Admissions.SweptExactly | internal/live/hub.go:1290-1333 | a sweep forgets exactly those not heard of within the timeout whose grace period is over, and takes from the others exactly their silent connections |
| Admissions.ActiveStays | internal/live/hub.go:1273-1288 | a connection that acted within the timeout survives a sweep |
| Admissions.ExpiryCloses | internal/live/hub.go:1221-1242 | a sweep after expiry closes the room and takes every connection |
| Admissions.NewcomerJoins | internal/live/hub.go:585-628 | a newcomer is let in if and only if there is a slot and a name for it: for the creator a writer slot, for anyone else a writer slot not kept back, first, or a viewer's |
| Admissions.ReturningJoins | internal/live/hub.go:562-583 | who is still known joins again unless that connection is there, all are taken, or a viewer who turns out the creator finds no writer slot; each refusal exactly |
| Admissions.RenameLeaves | internal/live/hub.go:1083-1102 | a name nobody else has replaces the old one, any other leaves everything |
| Admissions.DisconnectLeaves | internal/live/hub.go:1116-1134 | exactly that connection goes, and the last one leaves its time |
| PresenceRooms.PresenceRoom.JoinRoom | internal/live/hub.go:554-631 | the join code does what the specification of joining says and keeps the invariant |
| PresenceRooms.PresenceRoom.AccessClassForJoin | internal/live/hub.go:741-761 | the access class by the slots taken, one writer slot kept back for a creator |
| PresenceRooms.PresenceRoom.CountSlots | internal/live/hub.go:721-739 | the number of participants of the given access |
| PresenceRooms.PresenceRoom.ExpireConnections | internal/live/hub.go:1310-1333 | silent connections go, and a last loss is recorded at the latest timeout |
| PresenceRooms.PresenceRoom.PruneDisconnected | internal/live/hub.go:1290-1308 | exactly the participants lost beyond the grace period go, with their sessions and names |
| PresenceRooms.PresenceRoom.EnsureConnection | internal/live/hub.go:1273-1288 | only a current connection of an open room acts, and is seen |
| PresenceRooms.PresenceRoom.RenameParticipant | internal/live/hub.go:1083-1102 | a free name replaces the old one, a taken one changes nothing |
| PresenceRooms.PresenceRoom.DisconnectSession | internal/live/hub.go:1116-1134 | the connection goes, the last one with its loss time |
| PresenceRooms.PresenceRoom.SweepRoom | internal/live/hub.go:1221-1242 | an expired room closes, an open one drops silent connections and lost participants |
| Snapshots.DiffLiveDocuments | web/src/live-collab.ts:94-120 | the diff replaces one range between shared ends that could not be longer |
| Snapshots.DiffExactly | web/src/live-collab.ts:94-120 | applying the diff gives the other text if and only if the part that differs holds no carriage return |
| Snapshots.ReturnIsLost | web/src/live-collab.ts:112-119 | a text with a carriage return that the diff does not reproduce |
| Snapshots.LiveSnapshotUpdates | web/src/live-collab.ts:148-163 | as many updates as revisions skipped: the change, then empty ones |
| Snapshots.UpdatesCompose | web/src/live-collab.ts:148-163 | the updates apply one after another with the change's own effect |
| Snapshots.SnapshotUpdates | web/src/live-collab.ts:94-163 | a snapshot some revisions ahead takes the text to the snapshot's text in that many updates |
| RateLimits.Registry.Evict | internal/ratelimit/limiter.go:140-165 | stale entries go, and a full table loses entries, buckets first, until one more fits |
| RateLimits.Registry.Allow | internal/ratelimit/limiter.go:75-106 | a request is admitted exactly when its refilled bucket covers its cost, which it then pays |
| RateLimits.Registry.CountMiss | internal/ratelimit/limiter.go:110-123 | a miss lengthens the streak, and costs double from the fifth on |
| RateLimits.StreakCounts | internal/ratelimit/limiter.go:110-130 | along every run, while it is not evicted, a streak counts the misses since the last success, and a miss costs double exactly from the fifth on |
| RateLimits.RunKeeps | internal/ratelimit/limiter.go:73-165 | along every run the table stays within its bound and buckets within their rate |
| RateLimits.AdmissionBound | internal/ratelimit/limiter.go:73-106 | in any stretch of any run a key is admitted at most its count plus the count's share of the time passed, if entries are kept for the window and the key is not crowded out |
| RateLimits.AdmittedExactly | internal/ratelimit/limiter.go:73-106 | under the same conditions a request is admitted if and only if, with its cost, no stretch of the run that ends with it exceeds the count and the count's share of the time; other categories are always admitted |
| RateLimits.EarlyEvictionOverspends | internal/ratelimit/limiter.go:140-151 | for every rate with a longer window the bound is broken |
| RateLimits.EvictionUnobservable | internal/ratelimit/limiter.go:140-151 | if entries are kept for every window and nothing is crowded out, every request is answered as without eviction |

## Left out

- JSON lexing: the parser starts from the list of numbers and arrays; a number written as a quoted string is not distinguished.
- Encoded sizes: payload, message and metadata sizes are functions of the deployment, not counted from bytes.
- Fingerprints: an operation's fingerprint is the operation itself, so equal fingerprints are equal requests.
- Timestamps, colours, nickname generation, watch-only mode, layout presets and the `content_size` column.
- Room identity: one room object per slug; a join that races with eviction of its room is not modelled (internal/live/hub.go:78-80, 145-146).
- Granularity: a critical section of the room's, the hub's or the registry's own mutex is one step; threads interleave between them.
- Reloading during delivery: while peers are connected the room stays loaded.
- Rooms.Room.ApplyMetadata: assumes that generated ids never repeat a deleted document's id; the code checks current documents only (internal/live/hub.go:1444-1448).
- Metadata replay: the theorems about runs start from a room that satisfies the invariant, so from one loaded without replaying tab changes or created; the bridge of any other loaded room is the subject of `Lagging`.
- Recovery.LoadRoom: an order in the metadata log is taken to repeat no id, as no accepted order does, and a document created in that log to have no edits yet, as the store appends none to a document without a row; the `content_size` column is not read.
- Stores.Store.CommitChange: reads `available` as the outcome of everything outside its tables (expiry, the room row, layout and creator hash, fingerprint format, database errors).
- Clients.ClientRoom.ApplyDocumentEvent: models the synced content and revision of a client without unconfirmed edits; `@codemirror/collab` and local edits in the editor are not part of this model.
- Resync.Controller.OnResponse: callbacks do not call back into the controller.
- Streams.DeliveredInOrder: frames that repeat a recorded answer to its submitter are not counted as changes; `Mirrors.RetryFolds` says that they change nothing.
- Presence.ReplacedNeverActs: a record that was forgotten and created again counts generations from one again, so a session of the old record is not excluded then.
- RateLimits.Registry.Allow: arithmetic is over real numbers, and the `Retry-After` value, which is rounded to whole seconds, is not modelled.
- Presence effects of edits and deletions: cursors and current tabs of other participants.
- `CompactChanges`, `live-connection.ts`, HTTP handlers, cookies, passwords, SQL text, migrations, the paste service and React components.
