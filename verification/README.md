# A verified model of the cberg indexer

cberg keeps a code index for an agent: it cuts files into chunks, keeps them in a table with stable ids, embeds each
chunk and keeps the vectors in an index, watches for changes, and answers queries over a socket. The agent on the other
side compacts its conversations and archives what it drops. This project models that engine in Dafny and proves what it
relies on, for all inputs, runs and interleavings.

The model follows the program's own pieces, one module each:

- `Probing`, `StrMaps`, `U64Maps`: the open-addressing maps, over real arrays, as refinements of finite maps.
- `TableSync`, `TableTheorems`, `ChunkTables`, `Fingerprints`, `Sorting`: the chunk table as a class, its transactional
  diff, and what the diff means.
- `Snapshots`, `SnapshotFiles`, `Restarts`: the table's file format, its atomic save and load, and runs with restarts.
- `Scatter`, `BodyGroups`, `OnnxEmbed`, `EmbedUnique`: the embedding pass. Rows with one body share a vector, windows are
  sorted by length, calls are bounded, and the local model batches by a counting sort.
- `VectorIndexes`, `VectorSync`, `Incremental`, `Homes`: the vector index kept in step with the table through retries,
  rebuilds and file swaps, and incremental re-indexing as a refinement of a full walk.
- `Locks`, `LockRuns`: the lock and readiness protocol as interleaved steps of a watch thread and any number of query
  threads, and what each job comes to.
- `ChunkKeys`, `ChunkLists`, `JsonScan`, `JsonTheorems`, `MarkdownLines`, `Markdown`, `MarkdownTheorems`, `ConfigLines`,
  `ConfigTheorems`, `Windows`: the hand-written chunkers and their keys.
- `Search`, `SearchMerge`: filtered search in one repository and the merge over all.
- `JsonEscape`, `Utf8`, `JsonReplies`, `JsonLists`, `JsonHandlers`: what goes over the socket.
- `Watcher`, `WorkerProtocol`, `RelativePath`: the watcher's dirty set, the embedding worker's framing, relative imports.
- `HistoryFiles`, `History`, `HistoryFit`, `HistoryCheckpoints`: conversation compaction.

How to read it. A loop in the program is a method with a loop, proved against a function; what the function means is a
lemma. Allocation, the disk, the network, the model runtime and the index backend are nondeterministic: any call into them
may fail, some with an effect. Hash functions, digests, tokenizers, the inference, the path glob matcher and token
estimates are arbitrary function parameters. Text is a sequence of characters that stand for bytes.

Predicates of the form `forall n :: Look(n) ==> ...` are facts that proofs carry without looking into them;
`assert Look(0)` opens them.

Where a property one would expect is false, the model keeps the code and states exactly when the property holds:

- The modified list of a sync is exact only if no key's hash leaves and returns within one batch
  (`TableTheorems.ModifiedIsExactIff`, with the failing batch in `TableTheorems.ModifiedCanBeInexact`).
- A row does not always say where its chunk now is: a chunk that moves with its bytes unchanged keeps its old place in the
  table. That is the only case (`TableTheorems.RowIsFreshIff`, with the concrete one in
  `TableTheorems.MovedChunkKeepsItsPlace`).
- A rebuild that reports success does not always leave exactly the table in the index: if a failed rename left a temporary
  file and a later `unlink` of it fails, the file is opened and refilled, and ids deleted since stay. It leaves every row,
  and no other id exactly when that file held none (`VectorSync.Repo.RebuildIndex`, with the failing input in
  `VectorSync.LeftoverCanStay`).
- Markdown sections are not always adjacent: 200 or more blank lines at the start are split off as sections, and the blank
  lines left over before a first heading are then dropped (`MarkdownTheorems.AdjacentIff`, with a failing text in
  `MarkdownTheorems.AdjacentCanFail`).
- A chunk key does not always give its path back: paths that hold the separator can make keys of two files meet
  (`ChunkKeys.HomeOfKey`, with the failing paths in `ChunkKeys.KeysCanCollide`).
- Ids are not always new after a restart: commits that were not saved are forgotten, and their ids given out again. A
  restart is safe exactly when the file's next id is the one in memory (`Restarts.SafeRestartIff` and, over whole runs,
  `Restarts.SafeIffHarmless`, with the failing run in `Restarts.IdCanBeReusedAfterCrash`).
- A reply cut to its buffer is not always UTF-8: the cut may fall inside a character, exactly when the first byte left out
  continues one (`Utf8.EscapeIsUtf8Iff`, with a failing text in `Utf8.CutCanSplit`).
- A history file stays referenced only if its path is clean: trimmed, not empty, without `<` (`HistoryFit.MarkerKeeps`, with
  a compaction that loses its archive in `HistoryFit.ArchiveCanBeLost`).

## Model

| member | source | states |
|---|---|---|
| VectorSync.Repo.SyncVectors | core/cmd/cberg-index/indexer.c:734-769 | whatever calls fail on the way: after OK with an open handle the file holds what the handle answers from; a sync that ends by plain apply carries both halves of agreement (every row with its vector, no other id) from the old table to the new one; one that ends by a rebuild holds every row whatever was there before, and no other id exactly when the leftover temporary file it opened held none; a rebuild is tried, with tries of its own, exactly when the last plain apply failed; its failure leaves the repository not ready |
| VectorSync.Repo.ApplyVectors | core/cmd/cberg-index/indexer.c:507-580 | OK means every deleted id is gone, every added or modified row has its vector, the file holds the index; on any outcome no id outside the diff is touched |
| VectorSync.Repo.RemoveAll | core/cmd/cberg-index/indexer.c:554-573 | an absent id counts as removed; any other failure stops, and only the deleted ids were touched |
| VectorSync.Repo.UpsertRows | core/cmd/cberg-index/indexer.c:524-552 | the changed rows are embedded into the open index and nothing else is touched |
| VectorSync.Repo.EmbedTable | core/cmd/cberg-index/indexer.c:618-644 | on OK the target holds every row of the table |
| VectorSync.Repo.RebuildInPlace | core/cmd/cberg-index/indexer.c:657-684 | on OK the cleared and refilled index holds exactly the table and its file agrees |
| VectorSync.Repo.FillTemp | core/cmd/cberg-index/indexer.c:662-691 | the index file is untouched; what opening the temporary file finds is nothing or the file that was there; on OK it holds every row of the table with its vector, and no other id exactly when what it found held none |
| VectorSync.Repo.RebuildIndex | core/cmd/cberg-index/indexer.c:646-701 | on OK an open handle and its file hold every row, and no other id exactly when the leftover held none (none is ever found in place); by file swap the index file is replaced whole or not at all; with no handle it does nothing and says OK |
| VectorSync.Repo.Attempt | core/cmd/cberg-index/indexer.c:607-614 | one try of either operation keeps what the next try needs, and success means what it means for that operation |
| VectorSync.Repo.WithRetry | core/cmd/cberg-index/indexer.c:584-605 | another try after every IO, TIMEOUT or INTERNAL and after no other status, four tries at most; OK means the diff is applied, or every row is refilled and the last try's leftover decides the rest |
| VectorSync.AppliedAgrees | core/cmd/cberg-index/indexer.c:507-580 | applying a diff carries each half of agreement between index and table from the old table to the new one |
| VectorSync.FilledOver | core/cmd/cberg-index/indexer.c:618-644 | an index filled with every row of the table has them all, and holds another id exactly when it did before |
| VectorSync.LeftoverIsHarmlessIff | core/cmd/cberg-index/indexer.c:662-700 | a temporary file that was complete for one table is harmless to the refill after the next sync if and only if that sync deletes nothing |
| VectorSync.LeftoverCanStay | core/cmd/cberg-index/indexer.c:662-700 | the concrete case: a row is deleted, its old temporary file is refilled with the empty table, and the deleted id is still in the index |
| VectorSync.DeletedApart | core/cmd/cberg-index/indexer.c:507-580 | the ids a diff deletes are never among those it adds or modifies |
| VectorSync.UpsertsDistinct | core/cmd/cberg-index/indexer.c:507-580 | the rows a diff embeds have distinct ids |
| VectorSync.IndexFiles.Save | core/src/search/index.c:71-76 | a failed save may leave anything in the file |
| VectorSync.IndexFiles.Open | core/src/search/index.c:11-43 | an opened handle holds what the file holds |
| VectorSync.IndexFiles.Unlink | core/cmd/cberg-index/indexer.c:663-691 | the temporary file is gone or exactly as it was |
| VectorSync.IndexFiles.Rename | core/cmd/cberg-index/indexer.c:693-700 | the swap is all or nothing |
| VectorIndexes.VectorIndex.Add | core/src/search/index.c:45-50 | a failed add may leave the id with its old vector, the new one or none, and touches no other id |
| VectorIndexes.VectorIndex.Remove | core/src/search/index.c:52-57 | NOT_FOUND only for an absent id; another failure may or may not have removed it |
| VectorIndexes.VectorIndex.Clear | core/src/search/index.c:78-83 | a failed clear may have removed any part |
| Locks.StepKeepsInv | core/cmd/cberg-index/ipc.c:853-863 | every step of every thread keeps the invariant on held locks, running jobs and versions |
| Locks.RunKeepsInv | core/cmd/cberg-index/ipc.c:853-863 | the invariant holds after any interleaving |
| Locks.JobOrdered | core/cmd/cberg-index/indexer.c:1768-1788 | every job takes its locks in the order work_mu, graph_mu, repositories by index, view, embed_mu, and ends holding none |
| Locks.JobGuarded | core/cmd/cberg-index/indexer.c:1415-1446 | between a table commit and the matching vector commit a job holds that repository's lock, and it ends as every sync is proved to end: a repository that is ready and open is in step |
| Locks.SyncPlays | core/cmd/cberg-index/indexer.c:1768-1788 | the steps of a sync do to its repository what its commit and its outcome say |
| Locks.GateOrdered | core/cmd/cberg-index/ipc.c:853-863 | behind the gate a query holds work_mu to its end; turned away it does nothing |
| Locks.ViewOrdered | core/cmd/cberg-index/workspace_graph.c:99-138 | building a graph view takes all repository locks in index order and gives all of them back |
| Locks.TrimOrdered | core/cmd/cberg-index/embedding.c:75-84 | trimming the embedder only ever tries its lock |
| Locks.QueryReadOnly | core/cmd/cberg-index/ipc.c:764-864 | no query commits a table or an index, whether it embeds, visits some repositories or all, or builds a view |
| Locks.WaitsAbove | core/cmd/cberg-index/workspace_graph.c:108-117 | a blocked thread waits for a lock above all it holds |
| Locks.NoCircularWait | core/cmd/cberg-index/workspace_graph.c:108-117 | in no reachable state do threads wait for each other in a circle |
| Locks.NoDeadlock | core/cmd/cberg-index/ipc.c:853-863 | while any job is unfinished some thread can take its next step |
| Locks.QueryNeverSeesTorn | core/cmd/cberg-index/indexer.c:1768-1788 | a query that holds a repository's lock never finds it ready, with an open index, and between table commit and vector commit |
| Locks.QuerySeesOneSnapshot | core/cmd/cberg-index/ipc.c:853-863 | from the gate to its reply a query sees one state of every repository: none is torn, and no step of another thread changes any |
| LockRuns.EngineStarts | core/cmd/cberg-index/main.c:71-97 | from a cold start, whatever its syncs come to, the bootstrap runs to its end, every repository is as its own sync left it, and then any update and any query may start |
| LockRuns.BootLands | core/cmd/cberg-index/main.c:71-92 | with nobody in its way a bootstrap syncs every repository, opens the gate and gives back every lock |
| LockRuns.UpdateLands | core/cmd/cberg-index/indexer.c:1768-1788 | with nobody in its way an update moves its repository one table version on, the index with it if it ends in step, leaves the others alone and gives back every lock |
| LockRuns.UpdateIsSeen | core/cmd/cberg-index/indexer.c:1768-1788 | between its commit and its outcome an update holds exactly work_mu and its repository |
| LockRuns.QueryLands | core/cmd/cberg-index/ipc.c:853-863 | with nobody in its way a query runs to its end and leaves everything as it found it |
| LockRuns.QueryTurnedAway | core/cmd/cberg-index/ipc.c:853-863 | a query that finds work_mu taken is over at once and has changed nothing |
| LockRuns.SearchHolds | core/cmd/cberg-index/indexer.c:2030-2093 | a search holds work_mu and each repository it looks into, one at a time |
| LockRuns.SearchEmbeds | core/cmd/cberg-index/indexer.c:2145-2158 | a search embeds holding work_mu and no repository |
| LockRuns.VisitHolds | core/cmd/cberg-index/ipc.c:764-864 | a query that only looks holds work_mu and each repository in turn |
| LockRuns.ViewHoldsAll | core/cmd/cberg-index/workspace_graph.c:99-138 | a graph view is built while work_mu, graph_mu and every repository are held, and nothing else |
| LockRuns.JobEnds | core/cmd/cberg-index/ipc.c:853-863 | with nobody in its way every job runs to its end, gives back every lock and leaves each repository as its steps say |
| Incremental.IncrementalRefinesFull | core/cmd/cberg-index/indexer.c:1389-1413 | if the re-chunked and deleted paths cover every difference between two trees, the incremental sync and a full walk in any order give the same keys with the same hashes, and surviving keys keep their ids |
| Incremental.RunMatchesTree | core/cmd/cberg-index/indexer.c:1495-1586 | after any run of covered edits the table is what the last tree says |
| Incremental.PathBatchIsTree | core/cmd/cberg-index/indexer.c:1448-1470 | carrying over the other rows and re-chunking the changed paths says exactly what the new tree says |
| Incremental.WalkBatchIsTree | core/cmd/cberg-index/indexer.c:1389-1413 | so does a walk, in whatever order it meets the files |
| Incremental.PathRowsTell | core/cmd/cberg-index/indexer.c:1448-1470 | after a path change every row holds, in all six fields, the last chunk the new tree's file lists under its key, or still the chunk the table had, and then with the hash the file lists |
| Incremental.WalkRowsTell | core/cmd/cberg-index/indexer.c:1389-1413 | so after a walk |
| Incremental.SyncMatchesTree | core/cmd/cberg-index/indexer.c:771-782 | syncing a batch that says what a tree says leaves a table that matches the tree |
| Incremental.MatchesTreeDetermines | core/cmd/cberg-index/indexer.c:1389-1413 | two tables that match one tree have the same keys with the same hashes |
| Incremental.ApplyPathChanges | core/cmd/cberg-index/indexer.c:1495-1586 | on OK the table matches the new tree, row for row in every field, and keys that survive keep their ids; an open index that agreed still agrees, and after a rebuild it has every row whatever was there before, and no other id unless it was tainted; a repository that is ready and open always has every row; a failure leaves the repository not ready, or unchanged |
| Incremental.WalkAndSync | core/cmd/cberg-index/indexer.c:1389-1413 | on OK the table matches the tree; index and readiness as for a path change |
| Incremental.Bootstrap | core/cmd/cberg-index/indexer.c:1415-1446 | a cold start ends ready exactly when it succeeds, with the table matching the tree and every row in the open index; ids of an index file that outlived its table are the only ones that can be too many |
| Incremental.BootstrapWarm | core/cmd/cberg-index/indexer.c:1630-1725 | a warm start, by changed paths or by a walk, ends ready exactly when it succeeds, with the table matching the tree; an open index that had every row has every row, and after a rebuild it does in any case |
| Incremental.SyncAsRun | core/cmd/cberg-index/indexer.c:734-782 | a sync is a run the lock protocol may start, and that run's steps take the protocol's view of the repository to what the sync leaves |
| Incremental.SyncTable | core/cmd/cberg-index/indexer.c:734-782 | the table becomes the diff of the batch, then the vectors follow; if they cannot, the repository is not ready; what is ready and open has every row, and exactly the rows unless tainted, which is what the lock protocol asks of a sync |
| Incremental.AddTableExcept | core/cmd/cberg-index/indexer.c:1448-1470 | the batch gets the rows of every path not listed, in table order |
| Incremental.AddFiles | core/cmd/cberg-index/indexer.c:1530-1559 | the batch gets the chunks of the listed files in order |
| Incremental.ParseFile | core/cmd/cberg-index/indexer.c:787-823 | a file that is gone or of no known language yields no chunks and is no error |
| Incremental.PathInSet | core/cmd/cberg-index/indexer.c:1448-1470 | whether a path is listed |
| ChunkTables.ChunkTable.SyncTable | core/src/chunk/chunk_table.c:472-567 | all or nothing: on OK entries, next id and change lists are those of the diff, by the fast path or the slow one; on any failure nothing has changed; a NULL key is the only invalid argument |
| ChunkTables.ChunkTable.SyncFast | core/src/chunk/chunk_table.c:480-484 | a batch that matches row for row changes nothing and reports nothing |
| ChunkTables.ChunkTable.SyncSlowly | core/src/chunk/chunk_table.c:486-562 | the next table is built beside the live one and swapped in only when complete |
| ChunkTables.ChunkTable.BuildNext | core/src/chunk/chunk_table.c:486-548 | a complete next table with indexes that locate every row, or a failure that touched nothing of the live one |
| ChunkTables.ChunkTable.FinishNext | core/src/chunk/chunk_table.c:524-548 | deletions and fingerprint complete the next table |
| ChunkTables.ChunkTable.ApplyBatch | core/src/chunk/chunk_table.c:512-522 | every chunk of the batch is applied in order, or the call fails |
| ChunkTables.ChunkTable.ApplyOne | core/src/chunk/chunk_table.c:513-521 | one chunk is applied as the diff says |
| ChunkTables.ChunkTable.ApplyIncoming | core/src/chunk/chunk_table.c:368-423 | one chunk is applied as the diff says, over both indexes and all three lists |
| ChunkTables.ChunkTable.TakeRepeated | core/src/chunk/chunk_table.c:370-390 | a key met before: its row takes the new chunk under its id |
| ChunkTables.ChunkTable.TakeFirst | core/src/chunk/chunk_table.c:392-422 | a key's first chunk: a fresh id, or the live row's id, with the old chunk unless its hash moved |
| ChunkTables.ChunkTable.RefreshOrPush | core/src/chunk/chunk_table.c:385-389 | the change row of a repeated key is refreshed, or a modified row is added |
| ChunkTables.ChunkTable.CollectDeleted | core/src/chunk/chunk_table.c:524-543 | the rows no chunk named, sorted by id |
| ChunkTables.ChunkTable.TableMatches | core/src/chunk/chunk_table.c:461-469 | true exactly when the batch matches the table row for row in key and hash |
| ChunkTables.ChunkTable.Append | core/src/chunk/chunk_table.c:203-235 | the row goes to the end and both indexes point at it |
| ChunkTables.ChunkTable.RecomputeFingerprint | core/src/chunk/chunk_table.c:237-251 | the stored fingerprint becomes that of the rows |
| ChunkTables.ChunkTable.PushChange | core/src/chunk/chunk_table.c:187-189 | a change list grows by one row, or memory runs out and it is as before |
| ChunkTables.ChunkTable.Commit | core/src/chunk/chunk_table.c:425-452 | the live table takes over the next one's whole state |
| ChunkTables.ChunkTable.MapFind | core/src/chunk/chunk_table.c:55-67 | the row index of a key, exactly when the key is live |
| ChunkTables.ChunkTable.FindById | core/src/chunk/chunk_table.c:334-343 | the row of an id, exactly when the id is live |
| ChunkTables.ChunkTable.constructor | core/src/chunk/chunk_table.c:289-301 | no rows, and ids start at 1 |
| ChunkTables.IndexReplaced | core/src/chunk/chunk_table.c:378-389 | replacing a row by one with its key and id leaves both indexes right |
| TableTheorems.SyncMeaning | core/src/chunk/chunk_table.c:368-423 | the new table is the batch with the last chunk of each key winning; surviving keys keep their ids, all others get ids never handed out before |
| TableTheorems.SyncRows | core/src/chunk/chunk_table.c:368-423 | every row of the new table holds, in all six fields, the last chunk of its key in the batch; the live row's chunk stays only where that chunk is the only one of its key and has the live hash |
| TableTheorems.RowIsFreshIff | core/src/chunk/chunk_table.c:368-423 | a row is the batch's last chunk of its key in every field if and only if it is not so that the batch names the key once, with the live row's hash, and the live row differs elsewhere |
| TableTheorems.MovedChunkKeepsItsPlace | core/src/chunk/chunk_table.c:402-408 | the concrete case: a chunk that moved with its bytes unchanged keeps the old place |
| TableTheorems.ListsHoldChunks | core/src/chunk/chunk_table.c:382-420 | every row of the added and modified lists holds a chunk of the batch, whole |
| TableTheorems.SyncChanges | core/src/chunk/chunk_table.c:486-562 | the three lists and the rows account for every key: added keys are new, modified keys survive, deleted keys are gone |
| TableTheorems.DeletedRows | core/src/chunk/chunk_table.c:356-366 | the deleted list is exactly the rows whose key the batch lacks, by strictly rising id |
| TableTheorems.DistinctBatch | core/src/chunk/chunk_table.c:368-423 | with distinct keys the table keeps the batch's order, and the added and modified lists are exact, row for row and in order |
| TableTheorems.ModifiedIsExactIff | core/src/chunk/chunk_table.c:382-389 | the modified list is exact if and only if no key's hash goes away and comes back within the batch |
| TableTheorems.ModifiedCanBeInexact | core/src/chunk/chunk_table.c:385-389 | the concrete batch on which a modified row remains although the hash is the old one again |
| TableTheorems.FastPathAgrees | core/src/chunk/chunk_table.c:456-470 | on a batch that matches the table the slow path would rebuild the same rows and report nothing |
| TableTheorems.RunKeepsIds | core/src/chunk/chunk_table.c:393-394 | over any run of syncs the table stays well formed and an id keeps the key it named |
| TableTheorems.FreshIds | core/src/chunk/chunk_table.c:392-397 | a sync hands out the next ids, one after the other, to the added rows in the order it met them, and no other |
| TableTheorems.NoIdIsReused | core/src/chunk/chunk_table.c:425-438 | no id is ever given to a second key |
| TableSync.ApplyKeepsState | core/src/chunk/chunk_table.c:368-423 | one chunk takes the state after a batch to the state after the longer batch |
| TableSync.ApplyAllState | core/src/chunk/chunk_table.c:512-522 | the state after a whole batch: last hash per key, ids, and which keys each list holds |
| TableSync.ChangeLists | core/src/chunk/chunk_table.c:385-389 | looking a change row up by id finds exactly the row of that id's key |
| Fingerprints.ComputeFingerprint | core/src/common/hash.c:34-78 | any allocation may fail; otherwise the digest of the sorted leaves |
| Fingerprints.CollectLeaves | core/src/common/hash.c:46-57 | one leaf per row, its key and hash |
| Fingerprints.FeedDigest | core/src/common/hash.c:65-72 | the stream is the leaves in order |
| Fingerprints.SameMapSameFingerprint | core/src/common/hash.c:34-78 | row order and everything but key and hash are irrelevant |
| Fingerprints.StreamIsInjective | core/src/common/hash.c:65-72 | the stream can be cut back into its leaves |
| Fingerprints.FingerprintTellsTablesApart | core/src/common/hash.c:34-78 | with an injective digest that is never zero, equal fingerprints mean equal key-to-hash maps, and back |
| Probing.HomeIsRemainder | core/src/common/strmap.c:118-135 | the home slot is the mask of the hash |
| Probing.EmptySlotExists | core/src/common/strmap.c:187-199 | below the load bound an empty slot remains, so every probe ends |
| Probing.WalkToEmptyIsAbsent | core/src/common/strmap.c:118-135 | a cyclic walk that meets an empty slot first proves the key absent |
| Probing.FillSlot | core/src/common/strmap.c:201-209 | filling the empty slot at the end of the walk adds exactly one binding and keeps every live key reachable |
| Probing.OverwriteSlot | core/src/common/strmap.c:179-185 | overwriting a value rebinds exactly that key |
| Probing.MovedStep | core/src/common/strmap.c:139-166 | each slot a resize steps over moves its binding once |
| Probing.MovedAll | core/src/common/strmap.c:139-166 | after the last slot every binding has moved |
| Probing.RoundPow2 | core/src/common/grow.h:28-37 | the least power of two that holds the count, or SIZE_MAX when doubling would overflow |
| StrMaps.StrMap.Set | core/src/common/strmap.c:168-210 | binds the key and nothing else; a failed call changes no binding |
| StrMaps.StrMap.Get | core/src/common/strmap.c:118-135 | the value bound to the key, or none |
| StrMaps.StrMap.Probe | core/src/common/strmap.c:118-135 | ends at the slot of the key or at the empty slot where it would go |
| StrMaps.StrMap.Resize | core/src/common/strmap.c:139-166 | twice the capacity with the same bindings, or no change |
| StrMaps.StrMap.Rehash | core/src/common/strmap.c:139-166 | the fresh arrays hold exactly the old bindings |
| StrMaps.StrMap.Place | core/src/common/strmap.c:148-159 | one binding placed by its stored hash |
| StrMaps.StrMap.Clear | core/src/common/strmap.c:93-107 | no bindings left, same arrays |
| StrMaps.StrMap.Visit | core/src/common/strmap.c:212-221 | every binding once |
| StrMaps.NewStrMap | core/src/common/strmap.c:71-83 | an empty map of the rounded capacity, or null |
| U64Maps.U64Map.Set | core/src/common/u64map.c:109-143 | refuses key 0, else binds the key and nothing else; a failed call changes no binding |
| U64Maps.U64Map.Get | core/src/common/u64map.c:67-83 | the value bound to the key, or none; key 0 is never found |
| U64Maps.U64Map.Probe | core/src/common/u64map.c:67-83 | ends at the slot of the key or at the empty slot where it would go |
| U64Maps.U64Map.Resize | core/src/common/u64map.c:85-107 | twice the capacity with the same bindings, or no change |
| U64Maps.U64Map.Rehash | core/src/common/u64map.c:85-107 | the fresh slots hold exactly the old bindings |
| U64Maps.NewU64Map | core/src/common/u64map.c:44-57 | an empty map of the rounded capacity, or null |
| Sorting.QSort | core/src/chunk/chunk_table.c:541-543 | what `qsort` promises: a sorted rearrangement, ties in any order |
| Sorting.SortedIsUnique | core/src/chunk/chunk_table.c:356-366 | without ties there is one sorted rearrangement |
| Snapshots.DecodeEncode | core/src/chunk/chunk_table.c:591-726 | what is written is what is read, whatever follows it |
| Snapshots.EveryPrefixIsNotFound | core/src/chunk/chunk_table.c:645-726 | every strict prefix of a snapshot is refused |
| Snapshots.GetPutRow | core/src/chunk/chunk_table.c:610-687 | a row reads back as written |
| Snapshots.GetPutStr | core/src/common/binio.h:31-79 | a string or NULL reads back as written |
| Snapshots.DecodeFront | core/src/chunk/chunk_table.c:645-726 | a read that succeeds takes the same value off any longer stream |
| Snapshots.FileLayout | core/src/chunk/chunk_table.c:591-643 | the file begins with "CBT1", version 1, the next id in eight bytes and the number of rows in eight, least significant byte first; the rows follow from byte 24 |
| Snapshots.RowLayout | core/src/chunk/chunk_table.c:610-643 | a row is its id in eight bytes, kind, the four numbers of the span in four bytes each, 32 bytes of hash, then key, path and symbol, each after its length, all ones for no symbol |
| Snapshots.RowsLayout | core/src/chunk/chunk_table.c:610-620 | the rows stand one after the other, in order |
| SnapshotFiles.Save | core/src/chunk/chunk_table.c:591-643 | on OK the file is the whole encoding; a failed save leaves the previous snapshot |
| SnapshotFiles.WriteRows | core/src/chunk/chunk_table.c:610-620 | all rows, or a failure; a string too long for its length field stops the save |
| SnapshotFiles.Load | core/src/chunk/chunk_table.c:645-726 | the table in the file with indexes that locate every row, or NOT_FOUND exactly when there is no whole snapshot |
| SnapshotFiles.LoadRows | core/src/chunk/chunk_table.c:672-710 | every row read, copied and appended, or the load is abandoned |
| SnapshotFiles.LoadBody | core/src/chunk/chunk_table.c:655-726 | next id, rows, fingerprint |
| SnapshotFiles.SaveThenLoad | core/src/chunk/chunk_table.c:591-726 | after a restart the rows, ids, next id and fingerprint are back; only a failed write or allocation prevents it |
| SnapshotFiles.LoadCutShort | core/src/chunk/chunk_table.c:645-726 | a snapshot cut short anywhere loads as NOT_FOUND, unless an allocation fails first |
| SnapshotFiles.SavedIdsAreLive | core/src/chunk/chunk_table.c:425-438 | no saved row has id 0 |
| Restarts.LifeFollowsLog | core/src/chunk/chunk_table.c:591-726 | over any run of commits, saves that may fail and restarts, the table and the bytes on disk are those of the batches committed up to the last save before the last restart, and since |
| Restarts.NoIdIsReusedAcrossRestarts | core/src/chunk/chunk_table.c:393-394 | while every restart finds the next id it left, whatever else it forgets, no id is ever given to a second key, in any state of the run |
| Restarts.SafeRestartIff | core/src/chunk/chunk_table.c:645-726 | after such a run one more restart is safe, so that no commit after it gives an id to a second key, if and only if the next id in the file is the one in memory; otherwise it is behind |
| Restarts.SafeIffHarmless | core/src/chunk/chunk_table.c:393-394 | over all runs: every restart was safe if and only if none forgot a commit that handed out an id |
| Restarts.LostIdIsReused | core/cmd/cberg-index/indexer.c:554-567 | a restart that forgot one: a commit that gives the id to another key |
| Restarts.CleanIsHarmless | core/cmd/cberg-index/indexer.c:1773-1782 | restarts that find everything saved are among the safe ones |
| Restarts.CleanKeepsAll | core/cmd/cberg-index/indexer.c:1773-1782 | such restarts lose no batch |
| Restarts.IdCanBeReusedAfterCrash | core/cmd/cberg-index/indexer.c:554-567 | the shortest failing run: two keys, one id, one restart that lost the commit between |
| Homes.TreeHasHomesIff | core/src/chunk/chunk_keys.c:33-40 | what incremental re-indexing asks of a tree holds of chunked files if and only if every file with chunks has a separable path |
| Homes.ChunkHomeIff | core/src/chunk/chunker.c:175-202 | a listed chunk names its own file if and only if the path is separable |
| EmbedUnique.EmbedRows | core/cmd/cberg-index/indexer.c:398-505 | on OK every group is embedded exactly once and every row is delivered exactly one vector, that of its own body; the calls fall into windows of 1024 bodies, shortest first; a call takes 1 to 96 texts, 1024 times those of 1024 bytes or more plus the lengths of the others is at most 32768, and it ends only where its window does, at 96 texts, or where the next text would break that bound; no other id is touched on any outcome |
| EmbedUnique.EmbedWindows | core/cmd/cberg-index/indexer.c:482-491 | all windows together cover every group once: each 1024 of them but the last, shortest first, in calls as full as their bounds allow |
| EmbedUnique.EmbedWindow | core/cmd/cberg-index/indexer.c:317-356 | the window's groups are each embedded once, whatever the length sort does to their order |
| EmbedUnique.EmbedItems | core/cmd/cberg-index/indexer.c:335-348 | the call loop covers all sorted items, and a call ends only where one more text would not have fitted |
| EmbedUnique.EmbedCall | core/cmd/cberg-index/indexer.c:336-347 | one bounded call, each vector to its whole group |
| EmbedUnique.CallLen | core/cmd/cberg-index/indexer.c:293-307 | a prefix of 1 to 96 texts in which 1024 per text of 1024 bytes or more, plus the lengths of the others, is at most 32768; if more texts are left it has 96, or one more would break that bound |
| EmbedUnique.AddGroupVector | core/cmd/cberg-index/indexer.c:372-390 | one vector is added for every row of the group |
| EmbedUnique.FanOut | core/cmd/cberg-index/indexer.c:344-346 | each vector of a call goes to its own group |
| EmbedUnique.Engine.ReadWindow | core/cmd/cberg-index/indexer.c:262-289 | the bodies of the window's representatives |
| EmbedUnique.SortedItems | core/cmd/cberg-index/indexer.c:243-251 | sorting keeps every item and lists every group of the window once |
| EmbedUnique.DeliveredRow | core/cmd/cberg-index/indexer.c:372-390 | however the deliveries are ordered, a delivered row ends with its own vector |
| EmbedUnique.AllDelivered | core/cmd/cberg-index/indexer.c:398-505 | if every row is delivered once, every row has its vector |
| EmbedUnique.ProgressMeans | core/cmd/cberg-index/indexer.c:398-505 | what a finished stretch of groups means for calls, deliveries and vectors |
| BodyGroups.AssignGroups | core/cmd/cberg-index/indexer.c:417-441 | pass 1 gives each row the group of its representative |
| BodyGroups.AssignRows | core/cmd/cberg-index/indexer.c:422-441 | the loop of pass 1 |
| BodyGroups.GroupRow | core/cmd/cberg-index/indexer.c:423-440 | a row joins the group recorded for its hash prefix if the full hashes agree, else it opens its own |
| BodyGroups.SharesExactlyWhen | core/cmd/cberg-index/indexer.c:427-440 | two rows share a group exactly when their hashes agree, the prefix is not zero and the first row with it has that hash |
| BodyGroups.RepOfRep | core/cmd/cberg-index/indexer.c:427-440 | a representative represents itself |
| BodyGroups.GroupsShareBodies | core/cmd/cberg-index/indexer.c:427-440 | a vector is shared only between rows with equal full hashes |
| BodyGroups.LayOut | core/cmd/cberg-index/indexer.c:443-461 | pass 2 puts each group's rows side by side in row order |
| BodyGroups.CountGroups | core/cmd/cberg-index/indexer.c:452-454 | group sizes, shifted up by one |
| BodyGroups.StartGroups | core/cmd/cberg-index/indexer.c:455-458 | running totals are the group starts |
| BodyGroups.FillMembers | core/cmd/cberg-index/indexer.c:459-461 | each row written at its group's cursor |
| Scatter.ScatteredIsStable | core/src/embed/embed_onnx.c:313-327 | a counting-sorted order is ascending and stable |
| Scatter.ScatteredIsPermutation | core/src/embed/embed_onnx.c:313-327 | it lists every item exactly once |
| Scatter.PlaceOne | core/src/embed/embed_onnx.c:324-326 | each write extends its bucket's run and disturbs no other |
| Scatter.BucketsTile | core/cmd/cberg-index/indexer.c:455-458 | the buckets fill the array exactly |
| OnnxEmbed.OnnxModel.Embed | core/src/embed/embed_onnx.c:387-436 | each caller slot gets the vector of its own unpadded tokens, whatever the batch size and the other lengths |
| OnnxEmbed.OnnxModel.RunGroups | core/src/embed/embed_onnx.c:419-429 | groups of at most the batch size tile the sorted order |
| OnnxEmbed.OnnxModel.RunGroup | core/src/embed/embed_onnx.c:333-385 | one group's vectors reach exactly its callers' slots |
| OnnxEmbed.OnnxModel.ScatterBack | core/src/embed/embed_onnx.c:373-377 | row b of the group goes to slot order[start + b] |
| OnnxEmbed.OnnxModel.TokenizeAll | core/src/embed/embed_onnx.c:408-415 | every text's tokens, clipped to 256, with its length |
| OnnxEmbed.SortIndicesByLen | core/src/embed/embed_onnx.c:313-327 | the stable ascending order by length |
| OnnxEmbed.FillGroup | core/src/embed/embed_onnx.c:360-370 | the tensors hold the group's rows padded with zeros and masked |
| OnnxEmbed.LongestOf | core/src/embed/embed_onnx.c:334-343 | the longest row of the group |
| JsonTheorems.DocumentSections | core/src/chunk/chunker.c:878-959 | for every RFC 8259 document whose root is a non-empty object and whose keys fit, the sections are its top-level members in order, from the key's opening quote to the value's last byte, with the right line |
| JsonTheorems.ChunkDocument | core/src/chunk/chunker.c:878-959 | chunking such a document lists exactly the pieces of its members, and if they can be filed only an allocation can fail |
| JsonTheorems.ObjectSectionsOrdered | core/src/chunk/chunker.c:878-959 | on any text the sections are in bounds, ordered and disjoint |
| JsonTheorems.PiecesTile | core/src/chunk/chunker.c:612-651 | the pieces of a section rejoin to it; all but the last have exactly 200 lines and end after a line break, and each knows the lines its first and last byte are on |
| JsonTheorems.ValueRead | core/src/chunk/chunker.c:923-953 | the scan of a value stops exactly at its end, strings and nesting respected |
| JsonTheorems.EntryRead | core/src/chunk/chunker.c:908-954 | one member is read as one section |
| JsonScan.JsonObjectChunks | core/src/chunk/chunker.c:878-959 | on OK the list holds exactly the pieces of the object's sections, each with its own key, or the root is no object; if every piece can be filed, only an allocation can make it fail |
| JsonScan.MemberLoop | core/src/chunk/chunker.c:891-958 | the loop emits every member |
| JsonScan.NextMember | core/src/chunk/chunker.c:892-953 | one round finds the next member, the end, or that this is no object |
| JsonScan.CfgEmit | core/src/chunk/chunker.c:612-651 | a section is emitted in pieces of at most 200 lines under one symbol |
| JsonScan.SkipString | core/src/chunk/chunker.c:812-833 | past the closing quote, escapes respected, lines counted |
| JsonScan.SkipWs | core/src/chunk/chunker.c:836-869 | past whitespace, comments and optional commas |
| JsonScan.SkipValue | core/src/chunk/chunker.c:923-948 | to the end of a value at depth 0 |
| JsonScan.SpanBlank | core/src/chunk/chunker.c:597-605 | whether a span is blank |
| ChunkKeys.OccNext | core/src/chunk/chunk_keys.c:64-83 | the number of earlier chunks with this identity; a failed call counts nothing |
| ChunkKeys.KeysDistinct | core/src/chunk/chunk_keys.c:51-83 | whatever the symbols, no two chunks of a file share a key |
| ChunkKeys.KeyIsInjective | core/src/chunk/chunk_keys.c:51-62 | a key determines its identity and its number |
| ChunkKeys.KeyReads | core/src/chunk/chunk_keys.c:51-62 | a key reads: path, "::", the kind in decimal, "::", symbol, "#", the occurrence number in decimal |
| ChunkKeys.IdentFitsIff | core/src/chunk/chunk_keys.c:42-49 | the cheap length test agrees with the formatting: an identity under 1024 bytes, and no other |
| ChunkKeys.KeyFits | core/src/chunk/chunk_keys.c:51-62 | a key whose identity fits always fits its buffer |
| ChunkKeys.HomeOfKey | core/src/chunk/chunk_keys.c:33-40 | a key gives its path back exactly when the path holds no separator and does not end half way into one |
| ChunkKeys.KeysCanCollide | core/src/chunk/chunk_keys.c:33-40 | two files whose paths do hold one can share a key |
| ChunkLists.Emit | core/src/chunk/chunker.c:175-202 | a chunk is added with its path and under the next key of its identity, or the identity does not fit |
| ChunkLists.ListKeysDistinct | core/src/chunk/chunk_keys.c:51-83 | no two chunks of a list share a key |
| MarkdownTheorems.AllSectionsOk | core/src/chunk/chunker.c:459-585 | every section starts at a line, knows its first and last line, has at most 200 lines, holds no heading past its first line, and is named after exactly the headings open where it ends |
| MarkdownTheorems.HeadingsOfText | core/src/chunk/chunker.c:502-545 | over any text, the headings are exactly the lines of heading shape that lie outside fences, where a fence runs from a line of fence shape to the first later one that closes it |
| MarkdownTheorems.SectionStarts | core/src/chunk/chunker.c:519-563 | every section starts with the text, at a heading outside fences, or where a section of exactly 200 lines before it ends |
| MarkdownTheorems.CrumbReadsBack | core/src/chunk/chunker.c:422-433 | a breadcrumb whose titles hold no ">" cuts back, at " > ", into the titles in order |
| MarkdownTheorems.PushIsOpen | core/src/chunk/chunker.c:528-534 | the stack is exactly the headings not closed by a later one of equal or lower level |
| MarkdownTheorems.OpenIsRising | core/src/chunk/chunker.c:475-477 | open headings strictly deepen, so there are never more than six |
| MarkdownTheorems.EveryByteOnce | core/src/chunk/chunker.c:459-585 | every byte other than space, tab, CR and LF is in exactly one section |
| MarkdownTheorems.AdjacentIff | core/src/chunk/chunker.c:519-563 | sections are adjacent if and only if the text does not open with 200 or more blank lines, their number no multiple of 200, right before a heading |
| MarkdownTheorems.AdjacentBlanksIff | core/src/chunk/chunker.c:519-563 | of the texts with n empty lines before a heading, exactly those with n under 200 or a multiple of 200 have adjacent sections |
| MarkdownTheorems.AdjacentCanFail | core/src/chunk/chunker.c:519-563 | 201 empty lines and a heading: a concrete text whose sections are not adjacent |
| Markdown.MarkdownChunk | core/src/chunk/chunker.c:459-585 | on OK the list holds exactly the sections, each of kind 7 under a key of its own |
| Markdown.TakeOneLine | core/src/chunk/chunker.c:491-564 | one line moves the machine one step and emits what it closes |
| Markdown.TakeHeading | core/src/chunk/chunker.c:519-542 | a heading closes the open section, the deeper headings, and opens its own |
| Markdown.PushHeading | core/src/chunk/chunker.c:528-535 | the six places always suffice |
| Markdown.BuildCrumb | core/src/chunk/chunker.c:422-433 | the breadcrumb is never truncated |
| Markdown.CrumbLength | core/src/chunk/chunker.c:422-433 | six titles and their separators fit 1024 bytes |
| Markdown.StackRises | core/src/chunk/chunker.c:528-531 | every line keeps the stack strictly deepening |
| Markdown.ReadLine | core/src/chunk/chunker.c:492-500 | a line without its ending, and the next one's start |
| Markdown.ScanLine | core/src/chunk/chunker.c:502-517 | what a line does to the fence, and the heading it is |
| Markdown.SplitSection | core/src/chunk/chunker.c:552-562 | a section that reaches 200 lines is emitted and continued |
| MarkdownLines.HeadingLevel | core/src/chunk/chunker.c:343-381 | the level and title of an ATX heading |
| MarkdownLines.HeadingIff | core/src/chunk/chunker.c:343-381 | a line is a heading of a level exactly when at most three spaces, that many hashes and a blank or the end begin it |
| MarkdownLines.FenceIff | core/src/chunk/chunker.c:384-405 | a line opens a fence of n marks exactly when at most three spaces, then n, three or more, of one mark, a backtick or a tilde, and no further one begin it |
| MarkdownLines.CloseIff | core/src/chunk/chunker.c:407-420 | a line closes a fence exactly when it has that shape with the same mark, at least as many of them, and only blanks after them |
| MarkdownLines.TitleIs | core/src/chunk/chunker.c:362-379 | the title of a heading is its text without the blanks around it and the closing run, cut to 119 bytes |
| MarkdownLines.TitleMeans | core/src/chunk/chunker.c:362-379 | the title is the text without surrounding blanks and without a closing run of hashes, unless the run is glued to it |
| MarkdownLines.FenceRunLoop | core/src/chunk/chunker.c:384-405 | the length of a fence run of three or more |
| MarkdownLines.FenceClose | core/src/chunk/chunker.c:407-420 | a line closes a fence exactly when its run is of the same mark, at least as long, and nothing follows |
| ConfigLines.LineChunks | core/src/chunk/chunker.c:768-809 | on OK the list holds exactly the pieces of the sections between boundary lines, each of kind 8 under a key of its own |
| ConfigLines.YamlKeyLine | core/src/chunk/chunker.c:659-709 | the key a YAML line starts |
| ConfigLines.TomlTableLine | core/src/chunk/chunker.c:712-744 | the table a TOML line heads |
| ConfigLines.YamlNameIff | core/src/chunk/chunker.c:659-709 | a line starts a YAML chunk of a name exactly when the name is what stands before its first colon outside quotes and comments, without the blanks before the colon and one pair of quotes |
| ConfigLines.TomlNameIff | core/src/chunk/chunker.c:712-744 | a line heads a TOML table of a name exactly when the name is what stands between its brackets, without the blanks around it and one pair of quotes |
| ConfigLines.FlushSection | core/src/chunk/chunker.c:752-760 | a preamble counts only if it shows |
| ConfigTheorems.AllSectionsAre | core/src/chunk/chunker.c:768-809 | every section starts at a boundary line and has its name, knows its line and holds no other boundary; together they are the whole text but a blank front |
| ConfigTheorems.EveryByteOnce | core/src/chunk/chunker.c:768-809 | every byte of a YAML or TOML text that shows is in exactly one chunk |
| Windows.WindowChunk | core/src/chunk/chunker.c:272-326 | on OK the list holds exactly the windows, each of kind 6 under a key of its own |
| Windows.WindowsAreText | core/src/chunk/chunker.c:272-326 | the windows are the text, cut after every 50th line, each with its first and last line |
| Windows.ConfigChunk | core/src/chunk/chunker.c:961-997 | keys or tables, of kind 8, where there are any, windows, of kind 6, otherwise |
| SearchMerge.MergeIsBest | core/cmd/cberg-index/indexer.c:2161-2195 | no hit that any answering repository's window holds beats a returned one: it is returned itself, or k hits are and none scores less |
| SearchMerge.MergeLeavesNothingBetter | core/cmd/cberg-index/indexer.c:2161-2195 | whatever row of a repository that answered is within reach and has the kind, the score and the path asked for is returned, or k hits are that score no less |
| SearchMerge.MergedHitIs | core/cmd/cberg-index/indexer.c:2161-2195 | what is returned comes best first, each a row of a repository that answered, within reach, with the kind, the score and the path asked for |
| SearchMerge.SearchHits | core/cmd/cberg-index/indexer.c:2119-2196 | at most min(k, cap, 64) hits: one repository's yield, or the best of all that answered |
| SearchMerge.GatherHits | core/cmd/cberg-index/indexer.c:2161-2188 | the hits of every repository that answered, side by side; one not ready is skipped, a real failure ends the search |
| SearchMerge.CopyFront | core/cmd/cberg-index/indexer.c:2190-2193 | the first k of the sorted hits |
| SearchMerge.FindRepo | core/cmd/cberg-index/indexer.c:1901-1911 | the first repository with the name |
| SearchMerge.AgreedSearchIsFull | core/cmd/cberg-index/indexer.c:2030-2093 | where every indexed id is in the table an unfiltered search yields the whole top k |
| Search.RepoSearchHits | core/cmd/cberg-index/indexer.c:2030-2093 | the 64/128/256 fetch loop yields the first passing hits of the top 256, the unfiltered search those of the top k |
| Search.YieldIsAnswer | core/cmd/cberg-index/indexer.c:1883-1899 | the hits stand at rising places of the ranking: the first ones among its top 256, or top k without filters, whose id is met first there, is in the table, and has the kind asked for if one is, a score no less than the minimum if one is asked for, and a path the glob matches if there is one; as many as wanted, or all there are |
| Search.HitsHavePlaces | core/cmd/cberg-index/indexer.c:2060-2079 | the hits of a front of the ranking are exactly its places that meet those tests |
| Search.ScanFetched | core/cmd/cberg-index/indexer.c:2060-2079 | a scan passes over ids met before and never past the limit |
| Search.ScanEntry | core/cmd/cberg-index/indexer.c:2061-2078 | one entry: met before, unknown, filtered out, or a hit |
| Search.HitIdSeen | core/cmd/cberg-index/indexer.c:2019-2026 | whether an id was met |
| JsonEscape.Escape | core/cmd/cberg-index/ipc.c:72-101 | whole escapes only, always terminated within the buffer |
| JsonEscape.EscapeReadsBack | core/cmd/cberg-index/ipc.c:69-101 | the output is the inside of an RFC 8259 string and decodes to a front of the text |
| JsonEscape.AllFitsIff | core/cmd/cberg-index/ipc.c:94-96 | all of the text exactly when its escapes and the terminator fit |
| JsonEscape.CutIsForced | core/cmd/cberg-index/ipc.c:94-96 | where it is cut, not one more byte would have fitted |
| JsonEscape.DecodedIsBody | core/cmd/cberg-index/ipc.c:69-101 | what decodes is a string inside for the chunker's grammar too |
| Utf8.EscapeIsUtf8Iff | core/cmd/cberg-index/ipc.c:69-101 | what is written of a UTF-8 text is UTF-8 if and only if nothing is cut or the first byte cut does not continue a character |
| Utf8.CutCanSplit | core/cmd/cberg-index/ipc.c:94-96 | a two-byte character with room for one byte: what is written is not UTF-8 |
| JsonReplies.Append | core/cmd/cberg-index/ipc.c:107-126 | all of the text or none of it; nothing before the offset changes |
| JsonReplies.ObjectIsText | core/cmd/cberg-index/ipc.c:450-503 | the printed object is the text of its value in the JSON grammar |
| JsonReplies.ArrayIsText | core/cmd/cberg-index/ipc.c:547-563 | so is the printed list |
| JsonReplies.ValueHasNoBreak | core/cmd/cberg-index/ipc.c:547-563 | a well-formed reply value is printed without a line break, so the one at its end frames it |
| JsonLists.PutItem | core/cmd/cberg-index/ipc.c:132-145 | an item and its comma, or neither |
| JsonLists.FormatRow | core/cmd/cberg-index/ipc.c:235-257 | the fields of a row, each string escaped in its own buffer |
| JsonLists.RowIsFine | core/cmd/cberg-index/ipc.c:450-503 | every printed row is a well-formed object |
| JsonLists.NodeMembers | core/cmd/cberg-index/ipc.c:450-474 | a node has eight members; each number reads back under its name, each text reads back under its name as a front that is cut only where its buffer is full |
| JsonLists.EdgeNumbers | core/cmd/cberg-index/ipc.c:476-503 | an edge has twelve members; its numbers read back under their names |
| JsonLists.EdgeKinds | core/cmd/cberg-index/ipc.c:476-503 | so its kind and its resolution |
| JsonLists.EdgeEnds | core/cmd/cberg-index/ipc.c:476-503 | so the names, paths and repositories of its two ends |
| JsonLists.HitMembers | core/cmd/cberg-index/ipc.c:235-257 | a hit has nine members, and so do its numbers and texts |
| JsonLists.DegreeMember | core/cmd/cberg-index/ipc.c:693-706 | a hub is its node and, last, its degree, which reads back |
| JsonLists.DepthMember | core/cmd/cberg-index/ipc.c:613-626 | a hop is, first, its depth, which reads back, and its edge |
| JsonLists.FullMeans | core/cmd/cberg-index/ipc.c:132-145 | the items written fit after the head, and one more would not have |
| JsonLists.ListRows | core/cmd/cberg-index/ipc.c:552-558 | whole items in order, up to the first that does not fit |
| JsonLists.PutHub | core/cmd/cberg-index/ipc.c:693-706 | the degree is spliced in before the closing brace, or the whole item is rolled back |
| JsonLists.HubSplices | core/cmd/cberg-index/ipc.c:700-702 | the spliced text is the object with one more member |
| JsonLists.ListHubs | core/cmd/cberg-index/ipc.c:693-706 | whole hubs in order, up to the first that does not fit |
| JsonLists.PutHop | core/cmd/cberg-index/ipc.c:614-626 | the depth is spliced in after the opening brace |
| JsonLists.HopSplices | core/cmd/cberg-index/ipc.c:620-622 | the spliced text is the object with one more member |
| JsonLists.ListHops | core/cmd/cberg-index/ipc.c:613-626 | whole hops in order, up to the first that does not fit the reply or the edge buffer |
| JsonHandlers.RowsReply | core/cmd/cberg-index/ipc.c:547-563 | one line of JSON holding the first items that fit, `truncated` set if any is missing or a cap may have cut the search; if every fraction was finite it is one well-formed value whose only line break is the last byte |
| JsonHandlers.HubsReply | core/cmd/cberg-index/ipc.c:688-711 | the same for hubs, well-formedness and line break included |
| JsonHandlers.HopsReply | core/cmd/cberg-index/ipc.c:608-631 | the same for hops, well-formedness and line break included |
| JsonHandlers.ListIsSent | core/cmd/cberg-index/ipc.c:547-563 | for a list no longer than the limit and the cap: the reply byte by byte, the items that fit and not one more, marked exactly when one is missing or the list is as long as the cap |
| JsonHandlers.MarkedIff | core/cmd/cberg-index/ipc.c:505-512 | the mark is set exactly when an item is missing or the list is as long as the cap |
| JsonHandlers.ReplyText | core/cmd/cberg-index/ipc.c:547-563 | head, items and trailer are the text of the reply's value |
| JsonHandlers.ReplyIsFine | core/cmd/cberg-index/ipc.c:547-563 | a reply of well-formed items is well-formed |
| JsonHandlers.RowsAreFine | core/cmd/cberg-index/ipc.c:450-503 | node and edge items are well-formed |
| JsonHandlers.HubsAreFine | core/cmd/cberg-index/ipc.c:693-706 | hub items are well-formed |
| JsonHandlers.HopsAreFine | core/cmd/cberg-index/ipc.c:613-626 | hop items are well-formed |
| JsonHandlers.HitsReplyIsFine | core/cmd/cberg-index/ipc.c:261-284 | a hits reply of well-formed items is well-formed |
| JsonHandlers.Finish | core/cmd/cberg-index/ipc.c:103-105 | the reserved bytes always hold the trailer |
| JsonHandlers.HitWidth | core/cmd/cberg-index/ipc.c:232-257 | every hit takes less than the bytes set aside for one |
| JsonHandlers.HitsResponse | core/cmd/cberg-index/ipc.c:259-284 | unless memory runs out every hit is in the reply; with finite scores it is one well-formed value whose only line break is the last byte, and so is the error reply |
| HistoryCheckpoints.HistoryCheckpoints.Run | agent/src/core/history-checkpoints.ts:43-65 | the conversation, or a marker and a verbatim suffix; no referenced file is lost; a saved record names exactly the prefix left out, also when the fit started from an earlier record |
| HistoryCheckpoints.HistoryCheckpoints.Load | agent/src/core/history-checkpoints.ts:67-87 | a stored record whose hash and count are those of a prefix and whose archives all resolve |
| HistoryCheckpoints.HistoryCheckpoints.Save | agent/src/core/history-checkpoints.ts:57-62 | the record is stored, or the write fails and nothing changes |
| HistoryCheckpoints.NewRecordNames | agent/src/core/history-checkpoints.ts:52-57 | the count arithmetic from an earlier checkpoint names exactly the omitted prefix, and the new marker references all of its files |
| HistoryCheckpoints.RestoredKeeps | agent/src/core/history-checkpoints.ts:45-46 | starting from a checkpoint loses no file |
| HistoryCheckpoints.MarkerIsValid | agent/src/core/history-checkpoints.ts:90-95 | a record of a marker the fit wrote passes the test for the prefix it names |
| HistoryCheckpoints.PrefixHashes | agent/src/core/history-checkpoints.ts:97-105 | entry i is the chained hash of the first i + 1 messages |
| HistoryCheckpoints.ChainTells | agent/src/core/history-checkpoints.ts:97-109 | where the digest does not collide and fingerprints have one length, two prefixes have one hash if and only if they have the same fingerprints in order |
| HistoryCheckpoints.NoCollisionIf | agent/src/core/history-checkpoints.ts:67-87 | so a record found by the hash of a prefix stands for that prefix |
| HistoryFit.RunKeepsFiles | agent/src/core/history.ts:45-87 | over any run of growing and fitting, every file ever referenced or archived under a clean path is still referenced |
| HistoryFit.FitKeepsFiles | agent/src/core/history.ts:64-87 | one fit keeps every referenced file and the new archive |
| HistoryFit.FitShape | agent/src/core/history.ts:64-86 | a compaction is a user marker and a suffix that starts at a user message and holds the latest exchange |
| HistoryFit.MarkerIs | agent/src/core/history.ts:64-87 | after a compaction the marker carries the summary if one was written that trims to something and the result is within budget with it, and otherwise says how many messages are omitted |
| HistoryFit.ThrownIff | agent/src/core/history.ts:64-80 | an error comes exactly when the conversation is over budget, something can be left out, and a summary was asked for that failed, or was incomplete, empty or overflowing with no file to point to |
| HistoryFit.MarkerKeeps | agent/src/core/history.ts:154-175 | a listed path is read back from the marker exactly when it is clean, whatever the summary says |
| HistoryFit.ArchiveStaysIff | agent/src/core/history.ts:59-102 | after a compaction its archive is still referenced if and only if the path holds no opening angle bracket |
| HistoryFit.ArchiveCanBeLost | agent/src/core/history.ts:59-102 | a concrete compaction whose archive, at "a<b", is referenced nowhere afterwards |
| HistoryFit.HistoryFilesIn | agent/src/core/history.ts:129-139 | the trimmed paths of all messages in order |
| HistoryFiles.TagIsReadIff | agent/src/core/history.ts:32-32 | a tagged path is read back, between any texts, exactly when it is trimmed, not empty and without an angle bracket |
| HistoryFiles.FilesAreClean | agent/src/core/history.ts:129-139 | every path read from a text is clean |
| HistoryFiles.DedupeKeeps | agent/src/core/history.ts:141-152 | the same paths, each once |
| HistoryFiles.DedupeLoop | agent/src/core/history.ts:141-152 | first occurrences, in order |
| History.RecentIs | agent/src/core/history-recent.ts:10-37 | what is kept starts an exchange, holds the latest one, and beyond it as many whole exchanges as a quarter of the budget, 15,000 tokens at most, takes; one more would not fit |
| History.RecentCountIs | agent/src/core/history-recent.ts:15-19 | with a count the fewest messages are kept that are at least that many, at least one, and start an exchange |
| History.RecentHistoryStart | agent/src/core/history-recent.ts:10-37 | where the kept messages start |
| History.ExchangeStartLoop | agent/src/core/history-recent.ts:39-45 | the user message at or before an index, or the start |
| History.BoundIsWhole | agent/src/core/history.ts:34-43 | never longer than the limit, and whole when it fits |
| History.BoundKeepsEnds | agent/src/core/history.ts:34-43 | otherwise both ends around the note, not overlapping, using the limit up; a third of the room, 24,000 characters at most, goes to the end |
| RelativePath.NormalizePath | core/src/graph/resolve_relative.c:7-41 | the buffer ends as the joined components, and the call fails exactly when they do not exist |
| RelativePath.ResolvedIff | core/src/graph/resolve_relative.c:7-41 | it fails exactly when the text is too long, some front climbs above the root, or nothing is left |
| RelativePath.ResolvedNames | core/src/graph/resolve_relative.c:17-40 | no component is empty, "." or ".." |
| RelativePath.PartsKeepText | core/src/graph/resolve_relative.c:17-19 | splitting loses the slashes of either kind and nothing else |
| RelativePath.DownAndUpCancels | core/src/graph/resolve_relative.c:20-28 | entering a directory and leaving it changes nothing |
| RelativePath.ResolvingAgain | core/src/graph/resolve_relative.c:7-41 | a resolved path resolves to itself |
| RelativePath.PopComponent | core/src/graph/resolve_relative.c:20-28 | the loop removes exactly the last component |
| RelativePath.PushComponent | core/src/graph/resolve_relative.c:30-36 | the buffer gains exactly one component |
| RelativePath.FileFor | core/src/graph/resolve_relative.c:49-109 | the file chosen for an import |
| RelativePath.FindOnly | core/src/graph/resolve_relative.c:66-77 | the one match, or none or several |
| RelativePath.OnlyIff | core/src/graph/resolve_relative.c:80-90 | a pattern chooses a file exactly when its place in the list is the only match |
| RelativePath.ExactChoice | core/src/graph/resolve_relative.c:52-65 | a path with an explicit extension other than .js or .jsx stands for itself or for nothing |
| RelativePath.ScriptChoice | core/src/graph/resolve_relative.c:60-78 | a .js or .jsx path that is no file stands for the one .ts or .tsx file of its stem |
| RelativePath.BareChoice | core/src/graph/resolve_relative.c:80-109 | a path without an extension stands for the one file that adds one, or else for the one index file, __init__.py or mod.rs inside it; where several do, for none |
| RelativePath.ChoiceIgnoresOrder | core/src/graph/resolve_relative.c:49-109 | the choice does not depend on the order of the list |
| WorkerProtocol.ParseStream | core/src/embed/embed_worker.c:89-111 | the stream of any sequence of accepted requests parses to their query flags, counts and texts in order |
| WorkerProtocol.HeaderRoundTrip | scripts/embedding_worker.py:160-164 | the query bit never meets the count, and a backend that is not task-aware sees the count alone |
| WorkerProtocol.FrameLayout | core/src/embed/embed_worker.c:89-111 | a request is four bytes of header, the count with the query bit 0x80000000 above it, then each text after the four bytes of its length |
| WorkerProtocol.WriteRequest | core/src/embed/embed_worker.c:89-111 | on success exactly one frame was written; a count that does not fit is refused |
| WorkerProtocol.Input.ReadExact | scripts/embedding_worker.py:70-77 | exactly n bytes however the blocks fall, or the end of input |
| WorkerProtocol.Input.ReadTexts | scripts/embedding_worker.py:165-166 | the texts of one batch |
| WorkerProtocol.Input.ReadAll | scripts/embedding_worker.py:157-166 | the loop hands on the batches of the stream |
| Watcher.DirtyMeans | core/src/watch/watch.c:60-98 | a drain delivers exactly the reported paths; as a deletion exactly when some deletion has no later creation, otherwise as the kind last reported |
| Watcher.Watcher.Add | core/src/watch/watch.c:73-98 | the report joins the set, or an error is noted and the set is as before |
| Watcher.Watcher.Drain | core/src/watch/watch.c:148-198 | on success every path since the last drain exactly once; a small buffer and a failed copy lose nothing |
| Watcher.Watcher.HandOver | core/src/watch/watch.c:169-197 | the set is emptied only when its events were handed over |
| Watcher.Watcher.Stage | core/src/watch/watch.c:125-168 | a copy of every entry |

## Left out

- ChunkTables.ChunkTable.SyncTable: the two indexes are finite maps with failing sets rather than `StrMap` and `U64Map` objects, so their sharing and freeing is not modelled; ids and counts are unbounded numbers.
- Incremental.ApplyPathChanges: a failure after the table commit leaves the repository not ready; the graph store, manifest, progress counters and the saving of the table are not part of the model. A tree's keys must give their files back, which `Homes.TreeHasHomesIff` characterises.
- VectorSync.Repo.SyncVectors: claims nothing when the index handle was lost, because a rebuild without a handle does nothing and says OK; reading a row is taken to give the body its stored hash stands for, also where the row keeps an old place; agreement after a crash between two saves is not claimed.
- Incremental.BootstrapWarm: what the manifest names is taken to cover the differences; reading and diffing it is not part of this model.
- Restarts.LifeFollowsLog: the vector index is saved on its own and is not part of these runs; a load that runs out of memory ends the start and is no event.
- LockRuns.BootLands: an engine none of whose repositories could be bootstrapped exits; the model lets it go on, which only adds runs.
- Locks.NoDeadlock: jobs are the lock and commit steps of the code, with table and index as version numbers; condition variables, shutdown and the health socket are not modelled.
- EmbedUnique.EmbedRows: vectors are a function of the body; normalisation and floating point are not modelled.
- OnnxEmbed.OnnxModel.Embed: inference is a function of a row's unpadded tokens; execution providers and pooling are not modelled.
- Fingerprints.FingerprintTellsTablesApart: takes the digest to be injective and never zero.
- JsonTheorems.DocumentSections: numbers and literal names are any text without quotes, brackets, commas and whitespace, which is more than the standard allows; comments, which the scanner also skips, are outside the grammar.
- JsonHandlers.RowsReply: the query fields before it and the search behind it are not modelled; a score or confidence is the text `printf` makes of a finite float.
- MarkdownTheorems.AllSectionsOk: a section right after a 200-line split can be empty, so non-emptiness is not claimed; byte offsets are not cut to 32 bits.
- Markdown.PushHeading: the array of six headings is a value of length six, not an object on the heap.
- SearchMerge.MergeIsBest: a repository whose index answers NOT_FOUND counts as one that did not answer, as in the code; snippets and line numbers of hits are not modelled.
- HistoryCheckpoints.HistoryCheckpoints.Run: takes the chained hashes of the prefixes in play not to collide, as `HistoryCheckpoints.NoCollisionIf` derives from a digest that does not; concurrent requests that share one running fit are not modelled.
- HistoryFit.RunKeepsFiles: cancellation and the text of errors are not modelled.
- Watcher.DirtyMeans: joining directory and name, and the operating system's event queues, are not modelled.
- WorkerProtocol.ParseStream: replies, process start and shutdown are not modelled.
- Snapshots.DecodeEncode: bounds on lengths are those of the fields; 64-bit overflow of counts is not modelled.
- Tree-sitter queries and the chunks made from them, the graph store and its queries, the single-chunk reply (its fixed buffer may clip it), status and statistics replies, path globs, the vector backends, token counting, the command line, the web client and the launcher are not part of this model.
