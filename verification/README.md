# Matrix Rust SDK: a verified model of its linked chunks, bindings and build tooling

The centre of this project is the **linked chunk**, the structure in which the SDK keeps
the events of a room: a doubly linked list of chunks, each holding items or a gap, changed
through raw pointers, loaded lazily from a store, and observed through a stream of updates
by a relational store, by vectors that replay diffs, and by a tracker of the order of
events. The model covers that whole chain, from nodes in memory to what an observer sees,
and proves that no run of operations makes any part of it disagree with another.

| file | what it models |
|---|---|
| `LinkedChunkModel`, `LinkedChunkOps` | chunks, updates, what every operation does and which updates it emits, and what an update means |
| `LinkedChunkContents`, `LinkedChunkShape` | what every operation means to a user, who sees one sequence of items and gaps; where it is cut into chunks, and what the user is told |
| `LinkedChunkTruth` | the updates describe exactly what was done |
| `LinkedChunkPointers`, `LinkedChunkMemory` | the operations on nodes that are allocated, linked by pointers and freed by hand |
| `VectorDiffs`, `AsVector`, `AsVectorReaders` | updates turned into vector diffs and into positions |
| `UpdatesBuffer` | one buffer of updates with many readers |
| `Tables`, `Relational`, `RelationalLinks`, `RelationalItems`, `RelationalTruth`, `RelationalIsolation`, `RelationalStale`, `RelationalLoad`, `RelationalStore` | the relational store, what it holds, how it is loaded, when linked chunks in one store disturb each other, and what a replacement leaves behind |
| `ChunkMetadata` | the metadata of all chunks, checked against their links and put in order |
| `LazyLoader`, `LazyLoaderMemory`, `EventCache`, `CacheBuffer` | chunks loaded from and dropped to the store, on lists and on nodes; the whole cache as one state machine, and the buffer that its readers share |
| `BenchScripts`, `TimelineGenerator` | the scripts of the benchmarks |
| `Replication` | vector diffs sent to foreign listeners with 32-bit indices |
| `SwiftImports`, `Modulemap`, `Archive` | the text and archive transformations of the Apple build |
| `ChunkIterator`, `ClientDelegate`, `NotificationHandlers`, `RoomSettings`, `VerificationListeners` | small concurrent state machines, with every interleaving of their steps |
| `Migration`, `ClientBuilder`, `PushConditions`, `JoinRules` | the crypto store migration, the builder behind shared pointers, and conversions |

Foreign pieces appear as parameters: what parses, what the store can save, the Unicode
classes of characters, the JSON codec, the element conversions of the bindings. A panic of
the original is a value of the model (`None`, `Panicked`, `panicked`), never a precondition.

## What was found not to hold

- A replacement in the relational store looks its row up by position only. It panics, or
  renames an event of another linked chunk, exactly under the conditions of
  `RelationalIsolation.ReplacePanicsIff` and `ReplaceIsolatedIff`; `ReplacementPanics` and
  `ReplacementReachesOtherRoom` are concrete cases with two rooms.
- A replacement by an event with another identifier leaves the old event's position behind
  (`ReplaceKeepsOrderIff`). Until the linked chunk is cleared, or an item removed or items
  detached at that position, the old event cannot be pushed again
  (`RelationalStale.ReplacedIsRefusedIff`; `ReplacedEventIsRefused` is a concrete case).
- The order tracker that a shrink replaces stays a reader of the shared buffer, with which
  nobody reads again. So updates that everybody else has read are kept exactly if there was
  a shrink (`CacheBuffer.RunThenTidy`; `ShrinkLeavesUpdates` is a concrete case); from then
  on the buffer is never empty, since a clear leaves itself to be read.
- Every check on a new first chunk passes for one whose identifier is taken
  (`LazyLoaderMemory.TakenIdentifierIsAccepted`); `InsertFirst` says exactly when
  identifiers stay distinct.
- Narrowing indices with a wrapping cast makes a listener's copy wrong exactly when an index
  does not fit 32 bits (`Replication.MirrorsIff`, `WrappingDiverges`).
- Progress of a migration is reported in increasing order exactly when there are no sessions,
  because the counter is passed by value (`Migration.FullStepsAre`, `SessionStepsAre`).
- Two racing calls to set the client's delegate both succeed, and afterwards every
  authentication error is reported twice (`ClientDelegate.RacingCallsReportTwice`). There is
  one loop for each call that begins before the first write (`LoopsIff`), and each reports
  every error (`EachLoopReportsAll`); no error is ever reported twice exactly if one call
  alone begins before the first write (`ReportedOnce`, `ReportedTwiceIff`).
- Handlers stay registered after the last drop exactly when one was set while another was
  live (`NotificationHandlers.NothingLeftIff`, `SecondSetKeepsFirst`).
- Overlapping setters of a room's settings lose an update exactly when the other field has
  changed since it was read (`RoomSettings.LostUpdateIff`, `SequentialIff`,
  `OverlapLosesUpdate`).
- An object that shows a private symbol is left out of the merge exactly if the name of its
  crate has a colon (`Archive.LocalizePrivateSymbols`, `ColonIsNotMerged`).
- A push condition keeps its meaning exactly when its integer is within ±(2^53−1)
  (`PushConditions.MeaningKeptIff`).
- No custom join rule survives the way to the bindings and back: only its name is kept, and
  the way back reads it as JSON (`JoinRules.RoundTrip`, `CustomRuleIsRefused`).

## Model

| member | source | states |
|---|---|---|
| LinkedChunkOps.SpillAdds | crates/matrix-sdk-common/src/linked_chunk/mod.rs:1538-1613 | pushing on a chunk adds exactly the items, however they spill over new chunks |
| LinkedChunkOps.SpillIds | crates/matrix-sdk-common/src/linked_chunk/mod.rs:1538-1613 | the chunk keeps its identifier, new ones are numbered consecutively, and none exceeds the capacity |
| LinkedChunkShape.SpillFills | crates/matrix-sdk-common/src/linked_chunk/mod.rs:1538-1613 | nothing in the chunk moves, a new one is begun only when there is no space left, none is empty, and each chunk and each part of the items is announced once |
| LinkedChunkOps.SpillLeads | crates/matrix-sdk-common/src/linked_chunk/mod.rs:1538-1613 | the updates of a push lead, one by one, from the list before it to the list after it |
| LinkedChunkContents.SpillContents | crates/matrix-sdk-common/src/linked_chunk/mod.rs:1538-1613 | the same for the sequence of items and gaps |
| LinkedChunkContents.PushMeansIt | crates/matrix-sdk-common/src/linked_chunk/mod.rs:423-448 | items are appended to the sequence, wherever chunks begin |
| LinkedChunkContents.PushGapMeansIt | crates/matrix-sdk-common/src/linked_chunk/mod.rs:451-463 | a gap is appended |
| LinkedChunkContents.InsertItemsMeansIt | crates/matrix-sdk-common/src/linked_chunk/mod.rs:468-549 | items go exactly where the position points; it fails, without effect, exactly for positions that are none |
| LinkedChunkContents.RemoveItemMeansIt | crates/matrix-sdk-common/src/linked_chunk/mod.rs:558-618 | the item at the position, and only it, is gone, also when its chunk goes with it, and it is what is returned |
| LinkedChunkContents.ReplaceItemMeansIt | crates/matrix-sdk-common/src/linked_chunk/mod.rs:624-660 | the item at the position, and only it, is replaced |
| LinkedChunkContents.InsertGapMeansIt | crates/matrix-sdk-common/src/linked_chunk/mod.rs:665-773 | a gap goes exactly where the position points, whether or not a chunk has to be split for it |
| LinkedChunkContents.RemoveEmptyMeansIt | crates/matrix-sdk-common/src/linked_chunk/mod.rs:784-831 | removing an empty chunk changes nothing but for the gap it may be; all other chunks are refused |
| LinkedChunkContents.ReplaceGapMeansIt | crates/matrix-sdk-common/src/linked_chunk/mod.rs:840-920 | a gap becomes exactly the items; items chunks are refused |
| LinkedChunkContents.StepMeansIt | crates/matrix-sdk-common/src/linked_chunk/mod.rs:403-920 | every operation does to the sequence of items and gaps what it means, or fails and changes nothing, exactly when its meaning is undefined |
| LinkedChunkShape.StepCounts | crates/matrix-sdk-common/src/linked_chunk/mod.rs:403-920 | whatever the operation, the chunks it announces are numbered one after the other, none twice and none left out |
| LinkedChunkShape.StepShaped | crates/matrix-sdk-common/src/linked_chunk/mod.rs:403-920 | every operation touches one chunk only, which becomes what it should: filled up, cut, replaced or removed; the reply is the item removed, the start of the chunk after, or the first chunk with the new items; a refusal names what is wrong |
| LinkedChunkTruth.InitTold | crates/matrix-sdk-common/src/linked_chunk/mod.rs:201-217 | the lazily created first chunk is announced and invisible |
| LinkedChunkTruth.StepTold | crates/matrix-sdk-common/src/linked_chunk/updates.rs:36-117 | the updates of every operation, on any list of chunks of which any beginning may not be loaded, lead exactly from the full list before it to the one after it, and identifiers stay unique and within capacity |
| LinkedChunkPointers.NextInserted | crates/matrix-sdk-common/src/linked_chunk/mod.rs:1619-1660 | linking a node after another keeps the heap a doubly linked list of exactly its nodes, with the chunk inserted there |
| LinkedChunkPointers.BeforeInserted | crates/matrix-sdk-common/src/linked_chunk/mod.rs:1666-1712 | the same before another node; the link to a chunk that is not loaded moves to the new first node |
| LinkedChunkPointers.NodeUnlinked | crates/matrix-sdk-common/src/linked_chunk/mod.rs:1718-1738 | unlinking leaves a doubly linked list of exactly the other nodes, and hands on the link to a chunk that is not loaded |
| LinkedChunkMemory.StepKeepsValid | crates/matrix-sdk-common/src/linked_chunk/mod.rs:1206-1248 | every operation keeps identifiers unique and known to the generator |
| LinkedChunkMemory.LinkedChunk.constructor | crates/matrix-sdk-common/src/linked_chunk/mod.rs:391-400 | a new linked chunk has no node |
| LinkedChunkMemory.LinkedChunk.EnsureFirst | crates/matrix-sdk-common/src/linked_chunk/mod.rs:201-233 | the first node is allocated when first needed, and announced |
| LinkedChunkMemory.LinkedChunk.Latest | crates/matrix-sdk-common/src/linked_chunk/mod.rs:250-269 | the pointer to the last node, or failing that the first, is the last node |
| LinkedChunkMemory.LinkedChunk.Find | crates/matrix-sdk-common/src/linked_chunk/mod.rs:285-295 | walking back from the last node finds the chunk with an identifier, or none exists |
| LinkedChunkMemory.LinkedChunk.InsertNext | crates/matrix-sdk-common/src/linked_chunk/mod.rs:1619-1660 | pointer updates, identifier and emitted update of linking after a node |
| LinkedChunkMemory.LinkedChunk.InsertBefore | crates/matrix-sdk-common/src/linked_chunk/mod.rs:1666-1712 | pointer updates, identifier and emitted update of linking before a node |
| LinkedChunkMemory.LinkedChunk.Unlink | crates/matrix-sdk-common/src/linked_chunk/mod.rs:1718-1738 | the node is out of the list, still allocated, and its own pointers can still be read |
| LinkedChunkMemory.LinkedChunk.PushItems | crates/matrix-sdk-common/src/linked_chunk/mod.rs:1538-1613 | the recursion over nodes computes the specified spill and returns the last node used |
| LinkedChunkMemory.LinkedChunk.PushItemsBack | crates/matrix-sdk-common/src/linked_chunk/mod.rs:423-448 | nodes, ends, updates and reply are those of the specified operation |
| LinkedChunkMemory.LinkedChunk.PushGapBack | crates/matrix-sdk-common/src/linked_chunk/mod.rs:451-463 | as above |
| LinkedChunkMemory.LinkedChunk.InsertItemsAt | crates/matrix-sdk-common/src/linked_chunk/mod.rs:468-549 | as above |
| LinkedChunkMemory.LinkedChunk.RemoveItemAt | crates/matrix-sdk-common/src/linked_chunk/mod.rs:558-618 | as above; an emptied node is unlinked and freed, unless it is the first |
| LinkedChunkMemory.LinkedChunk.ReplaceItemAt | crates/matrix-sdk-common/src/linked_chunk/mod.rs:624-660 | as above |
| LinkedChunkMemory.LinkedChunk.InsertGapAt | crates/matrix-sdk-common/src/linked_chunk/mod.rs:665-773 | as above |
| LinkedChunkMemory.LinkedChunk.RemoveEmptyChunkAt | crates/matrix-sdk-common/src/linked_chunk/mod.rs:784-831 | as above; the node is freed and both ends are set right |
| LinkedChunkMemory.LinkedChunk.ReplaceGapAt | crates/matrix-sdk-common/src/linked_chunk/mod.rs:840-920 | as above |
| LinkedChunkMemory.LinkedChunk.Operate | crates/matrix-sdk-common/src/linked_chunk/mod.rs:403-920 | any operation on nodes does exactly what is specified, keeps pointers and ends right and frees what it unlinks; and so does what it means, to the sequence, to the chunks it is cut into, and to the caller |
| LinkedChunkMemory.LinkedChunk.FreeAll | crates/matrix-sdk-common/src/linked_chunk/mod.rs:299-319 | freeing from the last node to the first frees every node, and none twice |
| LinkedChunkMemory.LinkedChunk.Clear | crates/matrix-sdk-common/src/linked_chunk/mod.rs:403-417 | nothing is left allocated, the list is new, and the only pending update is to clear |
| AsVector.SpillShows | crates/matrix-sdk-common/src/linked_chunk/as_vector.rs:209-480 | the diffs of a push, detached items and muted reattachment included, turn the vector before into the one after |
| AsVector.StepSeen | crates/matrix-sdk-common/src/linked_chunk/as_vector.rs:209-480 | after every operation the mapped diffs apply without panic, turn the items before it into the items after it, and leave the mapper with the lengths of the chunks |
| AsVector.MapPanicsIff | crates/matrix-sdk-common/src/linked_chunk/as_vector.rs:209-480 | mapping an update panics exactly if a chunk it names is not there, or not where it says, or has no item to remove |
| AsVector.PushedBackIsAppended | crates/matrix-sdk-common/src/linked_chunk/as_vector.rs:209-480 | items pushed on the last chunk are one append |
| AsVectorReaders.UpdateToVectorDiff.constructor | crates/matrix-sdk-common/src/linked_chunk/as_vector.rs:118-131 | the mapper starts with the length of every chunk |
| AsVectorReaders.UpdateToVectorDiff.MapToOffset | crates/matrix-sdk-common/src/linked_chunk/as_vector.rs:482-516 | the offset of a position is the number of items in earlier chunks plus its index |
| AsVectorReaders.UpdateToVectorDiff.MapUpdate | crates/matrix-sdk-common/src/linked_chunk/as_vector.rs:209-480 | one round of the loop computes the specified mapping |
| AsVectorReaders.UpdateToVectorDiff.Map | crates/matrix-sdk-common/src/linked_chunk/as_vector.rs:209-480 | the loop computes the mapping of the whole sequence, or stops where it panics |
| AsVectorReaders.Ordering | crates/matrix-sdk-common/src/linked_chunk/order_tracker.rs:135-164 | the loop finds the order of a position, or that its chunk is unknown |
| AsVectorReaders.OrderIsIndex | crates/matrix-sdk-common/src/linked_chunk/order_tracker.rs:135-164 | the order of an event is its index among all events |
| AsVectorReaders.OrderIsLexicographic | crates/matrix-sdk-common/src/linked_chunk/order_tracker.rs:135-164 | orders compare as positions do: by chunk, then by index |
| UpdatesBuffer.UpdatesInner.Push | crates/matrix-sdk-common/src/linked_chunk/updates.rs:284-291 | every reader gets the update at the end of what it still has to read |
| UpdatesBuffer.UpdatesInner.ClearPending | crates/matrix-sdk-common/src/linked_chunk/updates.rs:294-304 | no reader has anything left to read |
| UpdatesBuffer.UpdatesInner.NewReaderToken | crates/matrix-sdk-common/src/linked_chunk/updates.rs:192-203 | a new reader gets a token nobody has |
| UpdatesBuffer.UpdatesInner.TakeWithToken | crates/matrix-sdk-common/src/linked_chunk/updates.rs:324-338 | a reader gets exactly what it has not read, once; all others are left alone |
| UpdatesBuffer.UpdatesInner.GarbageCollect | crates/matrix-sdk-common/src/linked_chunk/updates.rs:357-369 | what any reader still has to read is unchanged, and nothing that all have read is kept |
| UpdatesBuffer.UpdatesInner.IsReaderUpToDate | crates/matrix-sdk-common/src/linked_chunk/updates.rs:342-344 | true exactly if the reader has nothing left to read |
| UpdatesBuffer.UpdatesInner.DropReader | crates/matrix-sdk-common/src/linked_chunk/updates.rs:424-437 | the reader is gone, the others are left alone |
| RelationalTruth.UpdateKept | crates/matrix-sdk-common/src/linked_chunk/relational.rs:168-396 | an update that fits the list of chunks turns a store that holds it into one that holds the result |
| RelationalTruth.UpdatesKept | crates/matrix-sdk-common/src/linked_chunk/relational.rs:168-396 | so does any sequence of updates, without error or panic |
| RelationalTruth.EmptyHolds | crates/matrix-sdk-common/src/linked_chunk/relational.rs:139-146 | a new store holds nothing |
| RelationalTruth.StepStored | crates/matrix-sdk-common/src/linked_chunk/relational.rs:168-396 | the updates of any operation on a linked chunk, also a partially loaded one, bring its store up to date |
| RelationalTruth.NewChunkRefusedIff | crates/matrix-sdk-common/src/linked_chunk/relational.rs:398-442 | a new chunk is refused exactly if a neighbour it names is not there, previous one first; when only the next one is missing, the previous one already points to it, and nothing else has changed |
| RelationalTruth.PushRefusedIff | crates/matrix-sdk-common/src/linked_chunk/relational.rs:216-258 | an event is refused exactly if the linked chunk has it, or else if there is one at the position; a refused event leaves everything as it was |
| RelationalTruth.RemovePanicsIff | crates/matrix-sdk-common/src/linked_chunk/relational.rs:283-341 | removing an item or a chunk panics exactly if it is not there |
| RelationalIsolation.UpdateRefreshes | crates/matrix-sdk-common/src/linked_chunk/relational.rs:168-396 | every update but a replacement, successful or not, does nothing to the other linked chunks of the store but refresh the events it brings, wherever they have another version |
| RelationalIsolation.UpdateIsolated | crates/matrix-sdk-common/src/linked_chunk/relational.rs:168-396 | so it leaves those as they were that have no other version of an event it brings |
| RelationalIsolation.PushIsolatedIff | crates/matrix-sdk-common/src/linked_chunk/relational.rs:213-257 | for the push of an event, exactly those |
| RelationalIsolation.UpdatesRefresh | crates/matrix-sdk-common/src/linked_chunk/relational.rs:168-396 | the same for whole sequences of updates, also those that end in an error: the others have the events brought until then refreshed, and nothing else |
| RelationalIsolation.UpdatesIsolated | crates/matrix-sdk-common/src/linked_chunk/relational.rs:168-396 | so they are as they were if they have no other version of any of them |
| RelationalIsolation.ReplacePanicsIff | crates/matrix-sdk-common/src/linked_chunk/relational.rs:259-281 | a replacement panics exactly if the first row at that position, of any linked chunk, is a gap |
| RelationalIsolation.ReplacementPanics | crates/matrix-sdk-common/src/linked_chunk/relational.rs:259-281 | two rooms, stored correctly from an empty store: replacing the item of one by a newer version of itself panics, because the other has a gap there |
| RelationalIsolation.ReplaceRefreshesIff | crates/matrix-sdk-common/src/linked_chunk/relational.rs:259-281 | it does nothing to another linked chunk but refresh the event exactly if the first row there is not of that linked chunk, or names the same event |
| RelationalIsolation.ReplaceIsolatedIff | crates/matrix-sdk-common/src/linked_chunk/relational.rs:259-281 | so if that one has no other version of the event, it is as it was exactly then |
| RelationalIsolation.ReplaceKeepsOrderIff | crates/matrix-sdk-common/src/linked_chunk/relational.rs:259-281 | afterwards the store holds its own linked chunk exactly if the event keeps its identifier |
| RelationalStale.EventsAreKept | crates/matrix-sdk-common/src/linked_chunk/relational.rs:168-396 | whatever the update, and however it ends, no event of any linked chunk is forgotten, also when it loses its position, and none changes but to the newest version that is brought |
| RelationalStale.RecordedFollows | crates/matrix-sdk-common/src/linked_chunk/relational.rs:168-396 | every update, successful or half done, moves, frees or sets the recorded position of every event in exactly one way, and none of another linked chunk |
| RelationalStale.RefusedIffRecorded | crates/matrix-sdk-common/src/linked_chunk/relational.rs:168-396 | after any run of updates of any linked chunks since a replacement, pushing the replaced event is refused exactly if its recorded position, followed through those updates, is still there |
| RelationalStale.ReplacedIsRefusedIff | crates/matrix-sdk-common/src/linked_chunk/relational.rs:168-396 | so, as long as nothing stores it again, it can be pushed exactly if since then its linked chunk was cleared, or an item removed or items detached where its position had moved to |
| RelationalStale.ReplacedEventIsRefused | crates/matrix-sdk-common/src/linked_chunk/relational.rs:216-281 | a room with one event that is replaced by another refuses the old one at every position |
| RelationalIsolation.ReplacementReachesOtherRoom | crates/matrix-sdk-common/src/linked_chunk/relational.rs:259-281 | two rooms with one event each: replacing one room's event makes the other's row name an event it does not have |
| RelationalStore.RelationalLinkedChunk.ApplyUpdates | crates/matrix-sdk-common/src/linked_chunk/relational.rs:168-396 | the loop over updates computes the specified store and reply, with what a failed update leaves behind |
| RelationalStore.RelationalLinkedChunk.InsertChunk | crates/matrix-sdk-common/src/linked_chunk/relational.rs:398-442 | neighbours are relinked and the chunk added, or the unknown neighbour is reported |
| RelationalStore.RelationalLinkedChunk.PushItems | crates/matrix-sdk-common/src/linked_chunk/relational.rs:216-257 | the loop stops at the first event that is already there or position that is taken |
| RelationalStore.RelationalLinkedChunk.ReplaceItem | crates/matrix-sdk-common/src/linked_chunk/relational.rs:259-281 | the specified store, or a panic |
| RelationalStore.RelationalLinkedChunk.RemoveItem | crates/matrix-sdk-common/src/linked_chunk/relational.rs:283-341 | one pass finds the row, frees the last position of its chunk and moves up all items behind it |
| RelationalStore.RelationalLinkedChunk.DetachLastItems | crates/matrix-sdk-common/src/linked_chunk/relational.rs:343-378 | exactly the rows from the position to the end of its chunk are gone, their positions free, their events kept |
| RelationalStore.RelationalLinkedChunk.DropRows | crates/matrix-sdk-common/src/linked_chunk/relational.rs:188-214 | removing collected indices from the last to the first removes exactly the rows meant |
| RelationalLoad.LoadRawIs | crates/matrix-sdk-common/src/linked_chunk/relational.rs:688-783 | loading a chunk from its unordered rows gives exactly that chunk with its neighbours |
| RelationalLoad.MalformedIff | crates/matrix-sdk-common/src/linked_chunk/relational.rs:688-783 | a chunk cannot be loaded exactly if it has a gap and something else |
| RelationalLoad.LargestIdentifier | crates/matrix-sdk-common/src/linked_chunk/relational.rs:590-652 | the largest identifier, from which new ones are generated |
| RelationalLoad.LoadLastChunk | crates/matrix-sdk-common/src/linked_chunk/relational.rs:590-652 | the last chunk of whatever the store holds, or none if it holds nothing |
| RelationalLoad.LoadPreviousChunk | crates/matrix-sdk-common/src/linked_chunk/relational.rs:654-672 | the chunk before a given one, or none if that is the first |
| LazyLoader.LastAcceptedIff | crates/matrix-sdk-common/src/linked_chunk/lazy_loader.rs:24-70 | a last chunk is refused exactly if it is too large or has a next one |
| LazyLoader.LastChunkBuilds | crates/matrix-sdk-common/src/linked_chunk/lazy_loader.rs:24-70 | the last chunk of any list always makes a linked chunk |
| LazyLoader.AcceptedIff | crates/matrix-sdk-common/src/linked_chunk/lazy_loader.rs:73-190 | a chunk is accepted in front exactly if it fits, it and the first chunk name each other, and its own previous one is not loaded; otherwise the error says what is wrong |
| LazyLoader.PreviousChunkInserts | crates/matrix-sdk-common/src/linked_chunk/lazy_loader.rs:73-190 | the chunk before those in memory is always accepted, and becomes the first |
| LazyLoader.FirstChunkSeen | crates/matrix-sdk-common/src/linked_chunk/lazy_loader.rs:193-213 | its updates put its items in front of every vector |
| LazyLoader.ReplacedSeen | crates/matrix-sdk-common/src/linked_chunk/lazy_loader.rs:219-282 | replacing all chunks by one shows exactly its items, whatever a vector showed before |
| LazyLoaderMemory.PrependedIs | crates/matrix-sdk-common/src/linked_chunk/lazy_loader.rs:127-181 | the pointer writes of a new first chunk give a list linked in both directions, with the new chunk in front and its lazy link |
| LazyLoaderMemory.Build | crates/matrix-sdk-common/src/linked_chunk/lazy_loader.rs:24-70 | on nodes in memory, the last chunk makes the specified linked chunk, or is refused as specified |
| LazyLoaderMemory.InsertFirst | crates/matrix-sdk-common/src/linked_chunk/lazy_loader.rs:73-190 | on nodes in memory, a new first chunk is linked and announced, or refused, as specified; identifiers stay distinct exactly if its own is not taken |
| LazyLoaderMemory.TakenIdentifierIsAccepted | crates/matrix-sdk-common/src/linked_chunk/lazy_loader.rs:73-190 | which no check rules out: a chunk that passes all of them, and then two chunks have one identifier |
| LazyLoaderMemory.PreviousIsFresh | crates/matrix-sdk-common/src/linked_chunk/lazy_loader.rs:73-190 | for the chunk before those in memory it never is |
| LazyLoaderMemory.Replace | crates/matrix-sdk-common/src/linked_chunk/lazy_loader.rs:219-282 | all nodes but the new one are freed, each once, or nothing changes |
| LazyLoader.LoadEverything | benchmarks/benches/linked_chunk.rs:210-229 | loading the last chunk and following previous chunks ends, and rebuilds what the store holds; it panics exactly if there is nothing or a chunk has too many items |
| ChunkMetadata.Rewind | crates/matrix-sdk/src/event_cache/persistence.rs:79-134 | the walk back from the last chunk finds the first one exactly if the metadata is that of one linked chunk, in any order; no cycle, gap, wrong link or second component gets through |
| ChunkMetadata.Reorder | crates/matrix-sdk/src/event_cache/persistence.rs:136-161 | swapping along the links puts it in the order of the chunks |
| ChunkMetadata.OrderMetadata | crates/matrix-sdk/src/event_cache/persistence.rs:42-164 | any metadata, well formed or not, is accepted exactly if it is a linked chunk in some order, and then put in that order; an error is true of the metadata |
| ChunkMetadata.OrderIsUnique | crates/matrix-sdk/src/event_cache/persistence.rs:42-164 | of which there is only one |
| ChunkMetadata.MetadataIs | crates/matrix-sdk-common/src/linked_chunk/relational.rs:579-588 | the store has the metadata of exactly the chunks of a linked chunk it holds, with their numbers of items |
| ChunkMetadata.CountMalformedIff | crates/matrix-sdk-common/src/linked_chunk/relational.rs:789-867 | a chunk's metadata cannot be loaded exactly if it has a gap and something else |
| ChunkMetadata.LoadLinkedChunkMetadata | crates/matrix-sdk/src/event_cache/persistence.rs:42-164 | so for such a linked chunk loading never fails and gives the metadata chunk by chunk |
| EventCache.OperateKeeps | crates/matrix-sdk-common/src/linked_chunk/mod.rs:403-920 | any operation is carried out on what is in memory, and store, order tracker and all vectors are able to catch up |
| EventCache.ObserveKeeps | crates/matrix-sdk-common/src/linked_chunk/mod.rs:1117-1125 | so does a new vector, at any time |
| EventCache.ResetKeeps | crates/matrix-sdk-common/src/linked_chunk/mod.rs:403-417 | so they are after clearing, whoever has not read what, and nothing is left |
| EventCache.PropagateKeeps | crates/matrix-sdk/src/event_cache/caches/room/state.rs:976-980 | bringing the store up to date always succeeds, and it then holds the linked chunk, loaded or not |
| EventCache.TakeKeeps | crates/matrix-sdk-common/src/linked_chunk/as_vector.rs:77-85 | a vector that takes its updates never panics and shows exactly the items in memory |
| EventCache.FlushOrderKeeps | crates/matrix-sdk-common/src/linked_chunk/order_tracker.rs:105-119 | the order tracker knows all chunks, loaded or not |
| EventCache.LoadPreviousKeeps | crates/matrix-sdk/src/event_cache/caches/event_linked_chunk.rs:590-603 | loading the previous chunk succeeds and changes neither store nor order |
| EventCache.ShrinkKeeps | crates/matrix-sdk/src/event_cache/caches/event_linked_chunk.rs:560-588 | so does dropping all but the last chunk, with an order tracker rebuilt from the stored metadata; also if nothing is stored |
| EventCache.ForeignKeeps | crates/matrix-sdk-common/src/linked_chunk/relational.rs:168-396 | updates of other linked chunks in the store change nothing, if they bring no other version of an event and no replacement of theirs hits a row of this one |
| EventCache.ActionKeeps | crates/matrix-sdk/src/event_cache/caches/event_linked_chunk.rs:536-603 | nothing that is allowed makes the cache panic or fail, and all of it is carried out |
| EventCache.StoredDistinct | crates/matrix-sdk-common/src/linked_chunk/relational.rs:213-257 | a store that holds a linked chunk has no event in it twice |
| EventCache.Open | crates/matrix-sdk/src/event_cache/caches/room/state.rs:170-222 | from any store that holds the linked chunk, its last chunk is in memory and the tracker knows all; what cannot be loaded is cleared, whatever it was, and the cache starts empty |
| EventCache.OpenedIsInSync | crates/matrix-sdk/src/event_cache/caches/event_linked_chunk.rs:61-80 | such a cache has everything in order |
| EventCache.EveryRun | crates/matrix-sdk/src/event_cache/caches/event_linked_chunk.rs:536-603 | at any point of any run, from whatever linked chunk the store holds at the start: vectors can show exactly the items in memory, the store can be brought to hold exactly the linked chunk, every event's order is its index, everything allowed succeeds, and each action has done what it means: operations to the sequence of items and gaps, loading and dropping to what is in memory alone |
| CacheBuffer.Act | crates/matrix-sdk-common/src/linked_chunk/updates.rs:253-374 | whatever is done to the cache, after it every reader's queue is exactly what the shared buffer has for that reader; only a shrink abandons a reader, and an abandoned one stays and always has something to read |
| CacheBuffer.Propagated | crates/matrix-sdk-common/src/linked_chunk/updates.rs:313-339 | the store takes exactly the updates that it is then brought up to date with |
| CacheBuffer.Took | crates/matrix-sdk-common/src/linked_chunk/updates.rs:313-339 | so does every vector |
| CacheBuffer.Flushed | crates/matrix-sdk-common/src/linked_chunk/updates.rs:313-339 | and the order tracker |
| CacheBuffer.Run | crates/matrix-sdk-common/src/linked_chunk/updates.rs:253-374 | at any point of any run, from whatever linked chunk the store holds at the start; as many readers are abandoned as there were shrinks |
| CacheBuffer.RunThenTidy | crates/matrix-sdk-common/src/linked_chunk/updates.rs:353-374 | after any run, when store, tracker and vectors have read everything and the buffer is tidied, updates are left in it exactly if there was a shrink |
| CacheBuffer.ShrinkLeavesUpdates | crates/matrix-sdk/src/event_cache/caches/event_linked_chunk.rs:560-588 | one shrink is enough for updates to stay in the buffer although store and tracker have read them all |
| BenchScripts.BuildOperations | benchmarks/benches/linked_chunk.rs:65-91 | all events in order, in blocks of 80 but for the last, each followed by its gap; the inner break is never taken |
| BenchScripts.WrittenEvents | benchmarks/benches/linked_chunk.rs:65-91 | the blocks are the events |
| BenchScripts.Write | benchmarks/benches/linked_chunk.rs:172-200 | the linked chunk holds exactly the blocks and gaps, and its updates lead there from nothing |
| BenchScripts.WriteThenRead | benchmarks/benches/linked_chunk.rs:172-229 | what is written, stored and lazily loaded again is the same, chunk by chunk; loading panics exactly if there were no events |
| BenchScripts.ScriptLeads | benchmarks/benches/event_cache.rs:397-417 | new chunks, each linked to its predecessor, with their items pushed, describe any list of chunks |
| BenchScripts.PersistThenLoad | benchmarks/benches/linked_chunk.rs:210-229 | any list of chunks that is persisted that way is loaded again, exactly, unless it is empty or a chunk is too large |
| BenchScripts.BuildUpdates | benchmarks/benches/event_cache.rs:397-417 | the loop of the latest event benchmark builds such a script |
| TimelineGenerator.Generate | benchmarks/benches/timeline.rs:31-77 | one event per index; every reference is to an earlier message; edits and redactions share its sender; no message gets two of a kind, and none that is redacted gets anything else |
| Replication.Mirrors | bindings/matrix-sdk-ffi/src/live_locations_observer.rs:171-195 | a converted diff whose index fits does to the copy what the diff does to the original, for any element conversion |
| Replication.MirrorsIff | bindings/matrix-sdk-ffi/src/room_directory_search.rs:172-198 | with wrapping casts, among distinct items, only then |
| Replication.RoomListConvertsIff | bindings/matrix-sdk-ffi/src/room_list.rs:428-465 | the checked form panics exactly on an index that does not fit |
| Replication.SmallFits | bindings/matrix-sdk-ffi/src/live_locations_observer.rs:171-195 | a vector of less than 2^32 items has no diff that does not fit |
| Replication.SmallAllFit | bindings/matrix-sdk-ffi/src/live_locations_observer.rs:118-132 | nor does any run of diffs over vectors that stay that small |
| Replication.WrappingDiverges | bindings/matrix-sdk-ffi/src/live_locations_observer.rs:171-195 | a vector of 2^32 + 1 items that is truncated to 2^32 empties the copy |
| Replication.GreetingIsSnapshot | bindings/matrix-sdk-ffi/src/live_locations_observer.rs:118-125 | after the first message, if there is one, a listener that started empty has the snapshot |
| Replication.GreetingIsOne | bindings/matrix-sdk-ffi/src/live_locations_observer.rs:118-125 | it is one message for the room directory and for live locations with items, and otherwise none |
| Replication.Subscribe | bindings/matrix-sdk-ffi/src/room_list.rs:268-284 | for every run: after each batch the copy is exactly the converted vector as long as indices fit; the room list panics exactly at the first batch with one that does not; a source that never holds 2^32 items makes every form exact after every batch, without a panic |
| SwiftImports.MatchIff | xtask/src/swift.rs:631-632 | the matcher finds exactly the texts of the regular expression, each with one end |
| SwiftImports.MatchesNeverOverlap | xtask/src/swift.rs:631-652 | two matches in one text never overlap |
| SwiftImports.RewriteKeeps | xtask/src/swift.rs:640-643 | the text between matches is kept, each match becomes the new guard |
| SwiftImports.RewriteIdempotent | xtask/src/swift.rs:640-643 | rewriting again changes nothing, for every text |
| SwiftImports.GuardsLeft | xtask/src/swift.rs:640-643 | every guard left, wherever it is, imports MatrixSDKFFI |
| SwiftImports.UpdateSwiftModuleImports | xtask/src/swift.rs:631-652 | Swift files are rewritten, others left alone, and exactly the changed ones written |
| SwiftImports.UpdateTwice | xtask/src/swift.rs:631-652 | a second pass writes no file |
| Modulemap.LinesOfText | xtask/src/swift.rs:697-716 | joining trimmed lines and splitting them again gives the same lines |
| Modulemap.TextOfLines | xtask/src/swift.rs:697-716 | and the other way, for texts without carriage returns |
| Modulemap.TrimIs | xtask/src/swift.rs:672-704 | only spaces are trimmed, and only at the ends |
| Modulemap.HeadersAre | xtask/src/swift.rs:674-684 | exactly the header lines of the other files are added |
| Modulemap.HeadersInOrder | xtask/src/swift.rs:674-684 | each once, in order of first occurrence |
| Modulemap.ConsolidateModulemapFiles | xtask/src/swift.rs:661-719 | the first file with the extension is the base; its lines, trimmed and renamed, stay, and right after its last header, if it has one, come exactly the headers of the later files, each once, in the order in which they first occur; all other files stay; without a base it panics |
| Modulemap.Rebuild | xtask/src/swift.rs:693-714 | the headers are put right after the last one of the base, or nowhere |
| Modulemap.ResultIs | xtask/src/swift.rs:661-718 | the same of the specified result |
| Modulemap.ConsolidateIdempotent | xtask/src/swift.rs:661-719 | consolidating the result alone reproduces it, character for character |
| Archive.CutAtAscii | xtask/src/swift.rs:560-569 | a byte string is valid UTF-8 exactly if both parts around any ASCII character are |
| Archive.CrateOfIsSafe | xtask/src/swift.rs:560-569 | no slice is off a character boundary, and the result is a string that starts the name |
| Archive.CrateOfIff | xtask/src/swift.rs:560-569 | a name without dash is recovered exactly from itself followed by a dash, 16 hexadecimal digits and a dot |
| Archive.CrateOfIdempotent | xtask/src/swift.rs:560-569 | the crate of a crate is itself |
| Archive.MemberOfLine | xtask/src/swift.rs:543-556 | a line about a member names it, up to its first colon |
| Archive.NamedTouchesIff | xtask/src/swift.rs:543-556 | a line with a private symbol touches its member's crate exactly if that crate has no colon in its name |
| Archive.ColonIsNotMerged | xtask/src/swift.rs:543-556 | a listing of a member named `a:b` with a private symbol that touches no crate of that name |
| Archive.ColonLineIsValid | xtask/src/swift.rs:543-556 | that listing is well formed |
| Archive.PrivateSymbolCrates | xtask/src/swift.rs:534-556 | exactly the crates of members with a line that ends in a private symbol |
| Archive.LocalizePrivateSymbols | xtask/src/swift.rs:456-530 | merged are exactly the objects of those crates, so no crate is torn apart; an object with a private symbol is merged exactly if its crate has no colon; merged and rest are the archive; it fails exactly if nothing is merged |
| Archive.GroupByPlatform | xtask/src/swift.rs:429-441 | every platform gets the libraries of its targets, in order |
| Archive.PathsAre | xtask/src/swift.rs:429-441 | which are the paths of exactly its targets, each once |
| ChunkIterator.LengthCountsDown | bindings/matrix-sdk-ffi/src/chunk_iterator.rs:31-33 | under every interleaving the length counts down by exactly what is handed out meanwhile; it panics exactly while 2^32 items or more are left, so never once it did not |
| ChunkIterator.ChunkIterator.Split | bindings/matrix-sdk-ffi/src/chunk_iterator.rs:41-52 | splitting and swapping takes exactly the first items and leaves the others |
| ChunkIterator.ChunkIterator.Next | bindings/matrix-sdk-ffi/src/chunk_iterator.rs:35-55 | an uninterrupted call returns the next chunk, or nothing exactly if nothing is left |
| ChunkIterator.NothingIsLost | bindings/matrix-sdk-ffi/src/chunk_iterator.rs:35-55 | under every interleaving, the chunks in lock order and the rest are the original list |
| ChunkIterator.CallGetsItsChunk | bindings/matrix-sdk-ffi/src/chunk_iterator.rs:35-55 | whoever asks for something and sees items takes the first of those left by then, as many as asked for or all |
| ChunkIterator.EmptyChunkMeansOvertaken | bindings/matrix-sdk-ffi/src/chunk_iterator.rs:35-55 | a call that saw items and gets none was overtaken by another that took the last ones |
| ChunkIterator.ChunkIsEmptyIff | bindings/matrix-sdk-ffi/src/chunk_iterator.rs:35-55 | and it gets none exactly in that case |
| ClientDelegate.SlotIsKept | bindings/matrix-sdk-ffi/src/client.rs:1273-1320 | once written, the delegate is never replaced |
| ClientDelegate.FirstWriteWins | bindings/matrix-sdk-ffi/src/client.rs:1273-1320 | it is that of the first call to reach the write |
| ClientDelegate.SlotIsWrittenIff | bindings/matrix-sdk-ffi/src/client.rs:1273-1320 | there is a delegate exactly if a call has reached the write |
| ClientDelegate.LaterCallIsRefused | bindings/matrix-sdk-ffi/src/client.rs:1273-1282 | a call that begins after a successful one gets the error and starts nothing |
| ClientDelegate.CallIsAnsweredOnce | bindings/matrix-sdk-ffi/src/client.rs:1273-1320 | a call has begun exactly if it is in progress or has its reply, never both |
| ClientDelegate.ReplyIs | bindings/matrix-sdk-ffi/src/client.rs:1273-1320 | it is the error if a delegate was set when the call began, nothing if it brought none, and otherwise its task |
| ClientDelegate.RepliesAreKept | bindings/matrix-sdk-ffi/src/client.rs:1273-1320 | and the reply never changes |
| ClientDelegate.CallbacksGoToSlot | bindings/matrix-sdk-ffi/src/client.rs:3006-3021 | every authentication error goes to the stored delegate |
| ClientDelegate.ProcessedIff | bindings/matrix-sdk-ffi/src/client.rs:3006-3021 | a handled change is reported exactly if the delegate is set and the token unknown; before that it is dropped |
| ClientDelegate.OnlyProcessReports | bindings/matrix-sdk-ffi/src/client.rs:1284-1298 | nothing else reports or drops |
| ClientDelegate.OneLoop | bindings/matrix-sdk-ffi/src/client.rs:1284-1298 | calls one by one start at most one loop |
| ClientDelegate.OneByOneIsEarly | bindings/matrix-sdk-ffi/src/client.rs:1273-1320 | of calls one by one at most one begins before the first write |
| ClientDelegate.ReportedOnce | bindings/matrix-sdk-ffi/src/client.rs:1284-1320 | if at most one call begins before the first write, what is handed over to be delivered is the broadcast errors in order, some left out, none twice; aborted loops or not |
| ClientDelegate.LoopsIff | bindings/matrix-sdk-ffi/src/client.rs:1273-1320 | once all calls are answered and none is aborted, there are exactly as many loops as calls that began before the first write; so at most one exactly if no two did |
| ClientDelegate.ReportedTwiceIff | bindings/matrix-sdk-ffi/src/client.rs:1273-1320 | then, with a delegate set, no way to go on reports more errors than are broadcast exactly if one call alone began before the first write |
| ClientDelegate.EachLoopReportsAll | bindings/matrix-sdk-ffi/src/client.rs:3006-3021 | and every loop that neither lags nor is aborted reports every error, in order, that comes after the delegate is set |
| ClientDelegate.RacingCallsReportTwice | bindings/matrix-sdk-ffi/src/client.rs:1273-1320 | two racing calls start two, and one error is reported twice to one delegate |
| NotificationHandlers.NotificationSettings.SetDelegate | bindings/matrix-sdk-ffi/src/notification_settings.rs:467-486 | registering, filling and clearing the slot |
| NotificationHandlers.NotificationSettings.Finish | bindings/matrix-sdk-ffi/src/notification_settings.rs:456-463 | a dropped clone unregisters the slot's handler and leaves it in the slot |
| NotificationHandlers.RegisteredAre | bindings/matrix-sdk-ffi/src/notification_settings.rs:436-486 | after any interleaved run, registered are exactly the handlers overwritten while live, the live one, and those about to be put into the slot |
| NotificationHandlers.NothingOverwrittenIff | bindings/matrix-sdk-ffi/src/notification_settings.rs:467-486 | none is overwritten exactly if the slot is always cleared first |
| NotificationHandlers.NothingLeftIff | bindings/matrix-sdk-ffi/src/notification_settings.rs:456-486 | after the last drop nothing is registered exactly in that case |
| NotificationHandlers.AtMostOne | bindings/matrix-sdk-ffi/src/notification_settings.rs:467-486 | until then there is at most one |
| NotificationHandlers.SecondSetKeepsFirst | bindings/matrix-sdk-ffi/src/notification_settings.rs:467-486 | setting twice keeps the first handler for ever |
| PushConditions.SdkRoundTrip | bindings/matrix-sdk-ffi/src/notification_settings.rs:181-235 | from the SDK and back is the identity on what the bindings know; the rest is refused |
| PushConditions.FfiRoundTripIff | bindings/matrix-sdk-ffi/src/notification_settings.rs:102-235 | from the bindings and back is the identity exactly within ±(2^53−1) |
| PushConditions.MeaningKeptIff | bindings/matrix-sdk-ffi/src/notification_settings.rs:113-235 | a condition holds for the same events after conversion exactly if its integer is within that range; else the integer is 0 |
| PushConditions.ActionIs | bindings/matrix-sdk-ffi/src/notification_settings.rs:329-385 | an action becomes the same one on the other side, with its sound or highlight, or the error of its custom tweak |
| PushConditions.SetCustomPushRule | bindings/matrix-sdk-ffi/src/notification_settings.rs:754-775 | the rule is created with all actions and conditions, in order, or not at all: the error is that of the first action that does not convert, or else that of the server |
| Migration.FullStepsAre | bindings/matrix-sdk-crypto-ffi/src/lib.rs:219-333 | as many reports as steps, all in range, increasing exactly without sessions |
| Migration.SessionStepsAre | bindings/matrix-sdk-crypto-ffi/src/lib.rs:378-416 | the same for the later migration of sessions |
| Migration.ReportedIff | bindings/matrix-sdk-crypto-ffi/src/lib.rs:239-241 | the cast to 32 bits is harmless exactly below 2^31 steps, whatever the total |
| Migration.Collect | bindings/matrix-sdk-crypto-ffi/src/lib.rs:453-478 | sessions are decoded in order, each reported, exactly up to the first that fails |
| Migration.CollectSessions | bindings/matrix-sdk-crypto-ffi/src/lib.rs:419-522 | both lists keep length and order, or nothing is collected and a beginning of the numbers is reported |
| Migration.KnownConcat | bindings/matrix-sdk-crypto-ffi/src/lib.rs:302-309 | tracked users are those that parse, in order |
| Migration.MigrateData | bindings/matrix-sdk-crypto-ffi/src/lib.rs:219-348 | it succeeds exactly if every step does; a failing run has reported and written a beginning, whose lengths tell which step failed: nothing is written unless all sessions were decoded, then tracked users, account and changes |
| Migration.MigrateSessionData | bindings/matrix-sdk-crypto-ffi/src/lib.rs:378-416 | all sessions are written, or nothing; a failing run has reported a beginning of the steps |
| ClientBuilder.Arcs.NewArc | bindings/matrix-sdk-ffi/src/client_builder.rs:201-246 | a new pointer, nobody else sees a change |
| ClientBuilder.Arcs.TryUnwrap | bindings/matrix-sdk-ffi/src/helpers.rs:17-19 | the builder is moved out exactly if there is no other holder |
| ClientBuilder.Arcs.UnwrapOrClone | bindings/matrix-sdk-ffi/src/helpers.rs:17-19 | the caller gets the builder's value; every other holder keeps its own |
| ClientBuilder.Arcs.SetArc | bindings/matrix-sdk-ffi/src/client_builder.rs:248-356 | a setter is an update of a plain value, however the builder is shared |
| ClientBuilder.Arcs.Do | bindings/matrix-sdk-ffi/src/client_builder.rs:248-356 | so is everything that can be done to pointers |
| ClientBuilder.PathsExplain | bindings/matrix-sdk-ffi/src/client_builder.rs:248-356 | every operation keeps every builder what its own path of setters makes of a new one |
| ClientBuilder.RunExplained | bindings/matrix-sdk-ffi/src/client_builder.rs:248-356 | so does any run of them |
| ClientBuilder.LastHomeserverWins | bindings/matrix-sdk-ffi/src/client_builder.rs:293-356 | the homeserver is that of the last of the four setters on the path |
| ClientBuilder.NoHomeserver | bindings/matrix-sdk-ffi/src/client_builder.rs:293-356 | or none if there is none |
| ClientBuilder.HomeserverIsLast | bindings/matrix-sdk-ffi/src/client_builder.rs:293-356 | both together, for any path |
| ClientBuilder.FieldIsLast | bindings/matrix-sdk-ffi/src/client_builder.rs:248-356 | every other field is as the last setter for it says, too, or as in a new builder |
| ClientBuilder.Run | bindings/matrix-sdk-ffi/src/client_builder.rs:248-356 | any run of setters, copies and drops on shared pointers gives what it gives on plain values; each holder's builder is that of its own path, each field as set last on it; it stops only at an operation on a pointer that is not there |
| VerificationListeners.ChangesListener | bindings/matrix-sdk-crypto-ffi/src/verification.rs:256-275 | the listener gets the converted states up to the first that is done or cancelled, and nothing after it |
| VerificationListeners.ForwardsIsUnique | bindings/matrix-sdk-crypto-ffi/src/verification.rs:256-275 | that determines the calls, also for streams that never end |
| VerificationListeners.SasIsShown | bindings/matrix-sdk-crypto-ffi/src/verification.rs:62-77 | the listener is shown the kind of the state, the three decimals and the emoji indices in order, and why it was cancelled |
| VerificationListeners.SasConversion | bindings/matrix-sdk-crypto-ffi/src/verification.rs:62-77 | states look the same to the listener exactly if they differ only in protocols, emoji symbols or what was verified; it sees an end exactly when there is one |
| VerificationListeners.QrIsShown | bindings/matrix-sdk-crypto-ffi/src/verification.rs:310-321 | for QR codes the kind of the state, and why it was cancelled |
| VerificationListeners.QrConversion | bindings/matrix-sdk-crypto-ffi/src/verification.rs:310-321 | for QR codes only two states that are done look the same |
| VerificationListeners.RequestIsShown | bindings/matrix-sdk-crypto-ffi/src/verification.rs:743-780 | for requests whether it is requested, ready, done or cancelled, and the methods of either side as its own |
| VerificationListeners.RequestConversion | bindings/matrix-sdk-crypto-ffi/src/verification.rs:743-780 | for requests, created and requested look the same, and so do ready and transitioned with the same methods, and nothing else; only a transitioned request without known methods panics |
| VerificationListeners.SasStops | bindings/matrix-sdk-crypto-ffi/src/verification.rs:210-238 | a stream that follows the flowchart ends the task after at most five states, no two of which look the same |
| VerificationListeners.ListenToSas | bindings/matrix-sdk-crypto-ffi/src/verification.rs:210-275 | both together |
| VerificationListeners.ListenToQr | bindings/matrix-sdk-crypto-ffi/src/verification.rs:439-458 | the QR code listener |
| VerificationListeners.ListenToRequest | bindings/matrix-sdk-crypto-ffi/src/verification.rs:782-804 | the request listener, with what the request knows at each state, and exactly when it panics |
| RoomSettings.OlmMachine.GetRoomSettings | bindings/matrix-sdk-crypto-ffi/src/machine.rs:629-640 | the stored settings, nothing, or the error for a bad room or an unsupported algorithm |
| RoomSettings.OlmMachine.SetRoomAlgorithm | bindings/matrix-sdk-crypto-ffi/src/machine.rs:644-663 | exactly one field of one room changes |
| RoomSettings.OlmMachine.SetRoomOnlyAllowTrustedDevices | bindings/matrix-sdk-crypto-ffi/src/machine.rs:671-690 | exactly one field of one room changes |
| RoomSettings.LastChangeWins | bindings/matrix-sdk-crypto-ffi/src/machine.rs:629-690 | a field is what was set last for that room |
| RoomSettings.UnchangedStays | bindings/matrix-sdk-crypto-ffi/src/machine.rs:629-690 | or what it was, by default or before |
| RoomSettings.ChangesCommute | bindings/matrix-sdk-crypto-ffi/src/machine.rs:644-690 | changes of different fields or rooms commute |
| RoomSettings.NothingInvented | bindings/matrix-sdk-crypto-ffi/src/machine.rs:644-690 | however calls interleave, every field holds what it was at the start or what some call saved |
| RoomSettings.ReadIsOld | bindings/matrix-sdk-crypto-ffi/src/machine.rs:644-690 | a call puts the other field back to what it had read |
| RoomSettings.LostUpdateIff | bindings/matrix-sdk-crypto-ffi/src/machine.rs:644-690 | so a save undoes a change of the other field exactly if that field has changed since the read |
| RoomSettings.SaveIsSequentialIff | bindings/matrix-sdk-crypto-ffi/src/machine.rs:644-690 | a save keeps a run sequential exactly if, of the changes saved since its read, the last to the other field, if any, set what it had read |
| RoomSettings.SequentialIff | bindings/matrix-sdk-crypto-ffi/src/machine.rs:644-690 | a run gives at every point the settings of its saves one after the other exactly if that holds for all its saves |
| RoomSettings.OneByOneIsSequential | bindings/matrix-sdk-crypto-ffi/src/machine.rs:644-690 | calls that do not overlap on a room give the settings of a sequential run |
| RoomSettings.OverlapLosesUpdate | bindings/matrix-sdk-crypto-ffi/src/machine.rs:644-690 | two that do lose one |
| JoinRules.ShownIff | bindings/matrix-sdk-ffi/src/client.rs:3682-3726 | every rule is shown as what it is, unless it is unknown or one of what it allows cannot be shown |
| JoinRules.AllowRulesRoundTrip | bindings/matrix-sdk-ffi/src/client.rs:3663-3726 | an allow list comes back unchanged, in length and order |
| JoinRules.RoundTrip | bindings/matrix-sdk-ffi/src/client.rs:3641-3726 | a rule the bindings can show comes back exactly if it is not a custom one |
| JoinRules.CustomRuleIsRefused | bindings/matrix-sdk-ffi/src/client.rs:3641-3726 | a custom rule that the SDK reads and shows, and does not take back |
| JoinRules.AllOrNothing | bindings/matrix-sdk-ffi/src/client.rs:3641-3679 | one allow rule that does not convert fails the whole rule; otherwise all convert, in order, for both kinds of restricted rules |

## Left out

- The panic when 2^64 chunk identifiers are used up, and linked chunks of capacity 0, which never end a push.
- Updates that are not recorded: a linked chunk built without update history does the same and emits nothing.
- Iterators over chunks and items, memory statistics and the debug output of linked chunks.
- Loading all chunks at once, which only serves tests.
- Wakers and the asynchronous subscriber of the updates buffer; only reading by token is modelled.
- Relational store: `clear`, `clear_room`, saving single items and queries for events. A second row at one position is a panic here, as in debug builds only.
- EventCache.EveryRun: sync and back-pagination decide which operations to do; here any are, as long as no event is pushed twice. Deduplication itself is not modelled.
- The SQLite stores, and the network, login and media wrappers of the bindings.
- Replication.Subscribe: the conversions of rooms and locations are any function of the element.
- The unsafe construction of the room list's result, and filters of room lists.
- Archive.LocalizePrivateSymbols: deletes by name, so it speaks for archives whose member names are distinct; the tools that extract, merge and strip are not modelled, nor is whitespace splitting of symbol listings.
- Modulemap.ConsolidateModulemapFiles: the order in which a directory is read is the order of the files given.
- ClientDelegate.ReportedOnce: reports are handed over in order; each is delivered by a task of its own, so the order in which they arrive is not modelled.
- ClientDelegate: background task errors, which go to each caller's own delegate until it is dropped.
- PushConditions: pattern matching and display names are facts about the event; rule kinds are not modelled, and custom tweaks only as a function that may fail.
- Migration.MigrateData: the contents of account, cross-signing keys and backup key.
- ClientBuilder: six of the builder's fields and their setters; the others are set in the same way. Building a client is not modelled.
- JoinRules.RoundTrip: that allow rules parse to what was written, and that the JSON text of a custom rule is longer than its name, are facts about the codec.
- Large tables between enums of the SDK and the bindings: each is settled by reading one branch.
