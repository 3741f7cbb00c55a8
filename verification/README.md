# Papercrate: verified models of its state-changing core

This project models the parts of Papercrate in which several operations share
state, and proves what they keep and what they return for every input, every run
and every interleaving. Database tables are maps from ids to rows; a transaction
is one atomic step that either commits or leaves the tables as they were.

| module | models |
|---|---|
| `Folders`, `FolderForest`, `FolderPaths`, `FolderTree`, `FolderService` | the folder table: create, ensure-path, move/rename, delete, the descendant walk and the nested listing |
| `Migration` | flattening one account's folder tree and rebuilding it in another account |
| `Library` | where documents are, over upload, reuse, trash, restore, move, bulk move, purge and folder operations |
| `StoragePaths`, `Purge` | object keys, and the three-phase purge under any interleaving with crashes and retries |
| `Jobs` | the job table and any number of polling, crashing workers |
| `DocumentQuery`, `SearchQuery` | the staged document listing as a refinement of one predicate, and the search query text with its parser |
| `DocumentCache`, `TagAgreement` | the client's copy-on-write cache, its fetches, and its agreement with the server's tag relation |
| `Selection` | the selection hook: selection, order, anchor, focus |
| `Metadata`, `UpdatePlan` | the deep metadata merge and the update plan built on it |
| `IssuedAt` | finding a document's date in text: calendar, window, overlapping spans |
| `CapabilitySets` | versioned capability sets and the tokens checked against them |
| `Common`, `Text` | shared datatypes, sequence facts, trimming and identifier normalisation |

Code that updates rows or fields in place is a class whose methods are tied to a
function of the old state (`FolderTable`, `DocumentStore`, `PurgeTask`,
`JobQueue`, `DocumentsManager`, `TagServer`, `TagClient`, `SelectionHook`,
`CapabilityTable`); the theorems are lemmas about those functions and about runs
of them. Loops of the source are loops with invariants.

## Where the code does not do what one would expect

- The foreign key of `folders.parent_id` does not look at the tenant, and create
  and ensure-path do not check the parent. A folder can be put below another
  tenant's folder, after which a move can close a cycle
  (`FolderForest.ForeignParentAllowsCycle`). Parents stay within the tenant, and
  every tenant stays a forest, exactly on runs that never do so
  (`FolderForest.RunIsForestExactly`). What every run keeps without that
  condition is acyclicity along parents of the same tenant, which is all the
  walks of the code follow.
- The update plan compares what a request says with what the database gave back.
  Repeating an update is rejected with "no changes provided" exactly when the
  request sets no time finer than a microsecond or in a leap second
  (`"2016-12-31T23:59:60Z"` comes back as the start of 2017), and no metadata
  number the JSONB column gives back as another (the float `1e16` comes back as
  an integer) (`UpdatePlan.SecondUpdateRejectedExactly`).
- Nothing requeues the job of a crashed worker. It stays `processing` for ever,
  and an abandoned purge keeps the pending index entry, so no new purge of that
  document can be queued until its tenant is deleted (`Jobs.AbandonedExactly`,
  `Jobs.AbandonedForEver`, `Jobs.AbandonedPurgeBlocks`).
- A deletion request inserts nothing while a purge job of the document is
  pending. It is lost when that job's worker is gone (`Purge.RequestAfterCrash`,
  `Purge.AbandonedIsNeverPurged`), and also without any failure, between the end
  of an execution that found the document restored and the marking of its job
  (`Purge.LostRequest`). Any other accepted request is safe under every run in
  which nobody restores the document, its handler does not fail before it starts
  and its worker does not crash (`Purge.RequestIsServedExactly`); a failing
  handler or a crash forgets it (`Purge.ForgottenExactly`).
- An asset written between a purge's prepare and finalize loses its row and keeps
  its object (`Purge.LateAssetIsOrphaned`); a purge is clean exactly when there
  is no such writer (`Purge.PurgeIsCleanExactly`).
- A longer date candidate over two retained ones replaces only the first
  (`IssuedAt.ClashLeavesOverlap`, for the text "01.02.20 jan 2021-03-04"); the exact condition is
  `IssuedAt.DisjointExactly`.
- The owner capability list is not written in loading order, so ensuring it
  raises its version every time (`CapabilitySets.EnsuringOwnerAlwaysRefreshes`).
- A fetcher that throws before its first await leaves an entry in `inflight` that
  nothing removes (`DocumentCache.FetchesExactly`).
- `addTags` called with a new tag twice appends it twice
  (`TagAgreement.AddedListExactly`).
- A chain of shift-clicks loses its anchor at a click that cannot be navigated to
  (`Selection.ShiftKeepsAnchorExactly`).
- A null in a metadata update is stored and does not delete the key, unlike the
  merge patch of section 2 of RFC 7396, and the merge is not associative
  (`Metadata.GroupingMatters`).
- In the listing, `tags=none` and title hits cover active documents only whatever
  the status filter says (`DocumentQuery.UntaggedInTrashIsEmpty`,
  `DocumentQuery.TrashIsFoundByEngineOnly`), and a list with one unreadable id
  filters nothing (`DocumentQuery.UnreadableListFiltersNothing`).
- A record handed back by an ensure that refreshes still carries the version from
  before (`CapabilitySets.CapabilityTable.EnsureSet`).

## Model

| member | source | states |
|---|---|---|
| FolderForest.InsertedRowKeepsSound | backend/src/services/folders.rs:232-264 | inserting a row under an existing parent, in a free place, keeps the foreign key, the unique index, normal names and acyclicity |
| FolderForest.EnsureChildKeepsSound | backend/src/services/folders.rs:193-264 | a create only adds the tenant's row, returns the child of that name and parent, reports "created" exactly when a row was added, and leaves parents within their tenants exactly when the parent is not foreign |
| FolderForest.NormalFolderName | backend/src/services/folders.rs:597-606 | an accepted folder name comes out trimmed, not empty, of at most 255 bytes and printable |
| FolderForest.NormalExactly | backend/src/services/folders.rs:597-606 | those names are exactly the ones that normalising returns as they are |
| FolderForest.EnsureSegmentsKeepsSound | backend/src/services/folders.rs:113-191 | the same for a whole path walk from any start |
| FolderForest.MovedRanking | backend/src/services/folders.rs:459-498 | a move to a parent that is not a descendant leaves a ranking of every folder above its parent, so no cycle |
| FolderForest.ReplacedRowKeepsSound | backend/src/services/folders.rs:445-553 | replacing one row in a free place not below itself keeps all constraints, acyclicity and tenant closure |
| FolderForest.UpdateKeepsSound | backend/src/services/folders.rs:445-553 | a move or rename keeps the invariant and every other row |
| FolderForest.DeleteKeepsSound | backend/src/services/folders.rs:393-443 | a deletion keeps the invariant; with parents within their tenant it removes exactly one row and changes none |
| FolderForest.DeleteSucceedsExactly | backend/src/services/folders.rs:393-443 | in a forest a deletion succeeds if and only if the folder is the tenant's, no folder is in it and no active document is |
| FolderForest.Run | backend/src/services/folders.rs:113-553 | every serial run of the four operations, failing ones included, ends in a sound table |
| FolderForest.StepClosedExactly | backend/src/services/folders.rs:193-264 | one operation leaves all parents within their tenant if and only if it is not a create or ensure-path below a foreign folder with folder names and new ids |
| FolderForest.RunIsForestExactly | backend/src/services/folders.rs:113-553 | every tenant is a forest throughout a run if and only if the run never inserts below a foreign folder |
| FolderForest.ForestHasNoCycle | backend/src/services/folders.rs:478-487 | in a forest no number of steps to the parent leads from a folder back to itself |
| FolderForest.ForeignParentAllowsCycle | backend/src/services/folders.rs:193-264 | a run of four operations from the empty table that ends with a folder being its own ancestor across two tenants |
| FolderForest.ForeignInsertSucceedsExactly | backend/src/services/folders.rs:113-264 | below a foreign folder a create or ensure-path succeeds exactly for folder names and new ids |
| FolderPaths.PathIsUnique | backend/migrations/202510300000_initial_schema/up.sql:55-60 | two folders of a tenant with the same root path are the same folder |
| FolderPaths.PathIsStable | backend/src/services/folders.rs:113-191 | adding rows changes no existing root path |
| FolderPaths.EnsureChildPath | backend/src/services/folders.rs:193-264 | the folder a create returns has the parent's root path extended by the name |
| FolderPaths.WaySplits | backend/src/services/folders.rs:127-185 | the paths met on a walk are the first one and those of the rest of the walk |
| FolderPaths.WalkedFurther | backend/src/services/folders.rs:127-185 | one more segment in front of a correct walk is a correct walk |
| FolderPaths.EnsureSegmentsPath | backend/src/services/folders.rs:113-191 | the walk ends at the folder at the requested path, adds only rows on the way, and the whole way exists afterwards |
| FolderPaths.EnsureSegmentsFails | backend/src/services/folders.rs:119-128 | the request fails exactly on an empty segment list or a segment that is no folder name |
| FolderPaths.EnsureExistingPath | backend/src/services/folders.rs:113-191 | asking for a path that exists changes nothing and returns the folder there |
| FolderPaths.AncestorAt | backend/src/services/folders.rs:127-185 | every folder at a deeper path has its ancestor at each prefix of the path |
| FolderPaths.EnsurePathTheorem | backend/src/services/folders.rs:113-191 | ensure_folder_path returns the only folder at the start path extended by the trimmed segments, adds exactly the missing paths of the way, keeps all rows and paths, and is a no-op the second time whatever ids it may draw |
| FolderPaths.PathSplits | backend/src/services/folders.rs:566-585 | the root path of a folder below another is that folder's path followed by the names in between |
| FolderPaths.UpdateRewritesPaths | backend/src/services/folders.rs:445-553 | a move or rename replaces the same prefix in the paths of the folder and everything below it and changes no other path of the tenant |
| FolderPaths.UpdatedFolderIsThere | backend/src/services/folders.rs:500-548 | after a move or rename the folder is below the requested parent, or its old one, under the normal form of the requested name, or its old one, and its root path is that parent's path extended by that name |
| FolderPaths.UpdateSucceedsExactly | backend/src/services/folders.rs:445-553 | it succeeds if and only if the folder is the tenant's, the new parent is the tenant's and not the folder or below it, the name is a folder name, and no other folder there has it |
| FolderTree.BuildNodeLists | backend/src/services/folders.rs:368-383 | building a node of the child map yields that folder with, recursively, exactly its children in query order |
| FolderTree.BuildNodesLists | backend/src/services/folders.rs:368-390 | the same for a list of nodes; the lookup by id never fails |
| FolderTree.ListedOnce | backend/src/services/folders.rs:333-391 | no folder appears twice in the nested listing |
| FolderTree.RootedIsListed | backend/src/services/folders.rs:333-391 | every folder whose parents lead to a root within the tenant appears |
| FolderTree.ListingIsExact | backend/src/services/folders.rs:333-391 | the listing holds exactly those folders, each once |
| FolderTree.EverythingListedExactly | backend/src/services/folders.rs:333-391 | all folders of all tenants appear if and only if no folder hangs below a foreign one |
| FolderService.FolderTable.EnsureChildRow | backend/src/services/folders.rs:205-264 | select, insert on conflict do nothing, select again: the result and the new table |
| FolderService.FolderTable.CreateFolder | backend/src/services/folders.rs:193-264 | the loop-free create over the mutable table, with its error cases |
| FolderService.FolderTable.EnsureFolderPath | backend/src/services/folders.rs:113-191 | the segment loop equals the recursive walk, and an error rolls everything back |
| FolderService.FolderTable.GatherDescendants | backend/src/services/folders.rs:566-585 | the stack walk without a visited set ends and returns the folder and all its descendants, each once |
| FolderService.FolderTable.WalkStep | backend/src/services/folders.rs:574-582 | what the walk has found and still has waiting stays duplicate-free and closed below everything visited |
| FolderService.FolderTable.UpdateFolder | backend/src/services/folders.rs:445-553 | the imperative update with its checks in order makes the table of `Folders.Update`, whose success and result FolderPaths.UpdateSucceedsExactly and FolderPaths.UpdatedFolderIsThere state from the request |
| FolderService.FolderTable.DeleteFolder | backend/src/services/folders.rs:393-443 | the deletion with its checks and the effect of ON DELETE SET NULL |
| FolderService.FolderTable.GroupByParent | backend/src/services/folders.rs:349-366 | the loop over the rows leaves, for every folder, its children in query order, and the roots |
| FolderService.FolderTable.ListFolderTree | backend/src/services/folders.rs:333-391 | on every reachable table the listing ends and lists each rooted folder of the tenant exactly once, under its own parent, siblings in query order |
| Migration.FlattenFolderTree | scripts/migrate.py:200-209 | the recursive loop gives the pre-order list of entries with their segments |
| Migration.FlattenGivesPaths | scripts/migrate.py:200-209 | every entry's segments are the root path of its folder |
| Migration.FlattenDescribes | scripts/migrate.py:200-209 | flattening an account's listing gives each of its folders exactly once with its root path |
| Migration.ImportFolders | scripts/migrate.py:329-335 | the import loop over the target equals the recursive import, ending at the first error response |
| Migration.ImportMeetsSpec | scripts/migrate.py:329-335 | importing any entries with distinct ids and normal names succeeds, makes the paths the union, and maps each entry to the folder at its path |
| Migration.ImportAgain | scripts/migrate.py:329-335 | importing where all paths exist changes no row and gives the map to the existing folders |
| Migration.DescribedPrefixes | scripts/migrate.py:200-209 | the paths an import creates on the way are exactly the source's paths |
| Migration.MappedEmbeds | scripts/migrate.py:329-335 | a map that keeps root paths is injective and keeps names and parents |
| Migration.EmbeddingIsOnto | scripts/migrate.py:329-335 | with an empty target account every target folder is the image of a source folder |
| Migration.MigrationTheorem | scripts/migrate.py:329-335 | flatten then import of a whole account: union of paths, existing folders keep id, row and path, the map is an embedding and a bijection onto an empty account, a second import changes nothing |
| Library.DocumentStore.TrashDocument | backend/src/services/documents.rs:1096-1129 | the new document table and the error cases of trashing |
| Library.DocumentStore.RestoreDocument | backend/src/services/documents.rs:1235-1281 | restore to the requested folder, else to the old one if it is still there, else to the root |
| Library.DocumentStore.MoveDocument | backend/src/services/documents.rs:1283-1307 | a move to an existing folder of the tenant; a missing document is reported as success |
| Library.DocumentStore.BulkMoveDocuments | backend/src/services/documents.rs:1309-1382 | all documents move or none, with every refusal |
| Library.UploadExactly | backend/src/services/documents.rs:694-869 | an upload is accepted if and only if the folder is the tenant's and no active document there has the name, for a new id, and adds just that document |
| Library.RestoredWhere | backend/src/services/documents.rs:1235-1281 | a restored document is in the folder asked for, else in its own if that is still the tenant's, else at the root; it is refused if and only if the folder asked for is not the tenant's or the name is taken there |
| Library.ReusedWhere | backend/src/services/documents.rs:1424-1550 | a reused document is active again where it was, refused if and only if its name is taken there |
| Library.MovedWhere | backend/src/services/documents.rs:1283-1307 | a move changes the folder to the one asked for and nothing else, refused if and only if that is not the tenant's or an active document would meet its name there |
| Library.TrashRestoreRoundTrip | backend/src/services/documents.rs:1096-1281 | trashing a document and restoring it without a folder gives back the same table |
| Library.MoveBackRoundTrip | backend/src/services/documents.rs:1283-1307 | moving a document and moving it back gives back the same table |
| Library.BulkMoveIsMoves | backend/src/services/documents.rs:1309-1382 | a bulk move succeeds if and only if moving the documents one after another does, and then leaves the same table |
| Library.BulkMoveExactly | backend/src/services/documents.rs:1309-1382 | it is accepted if and only if there are documents, all active and of the tenant, and they can be moved there one after another, with the same table |
| Library.UnfileKeepsFiles | backend/src/services/folders.rs:418-430 | a folder without active documents can go: clearing its documents' folder touches trashed ones only |
| Library.PerformKeepsGood | backend/src/services/documents.rs:1235-1382 | every operation on documents or folders keeps each document at the root or in an existing folder of its tenant, and active file names unique per folder |
| Library.LifecycleExactly | backend/src/services/documents.rs:1096-1281 | over one call of any kind a document goes exactly when it is purged from the trash, comes exactly with its upload, enters the trash or leaves it exactly by an accepted call for it, and keeps its name and tenant |
| Library.FolderDeletedExactly | backend/src/services/folders.rs:393-443 | a folder goes exactly when no folder and no active document is in it, and then its trashed documents are at the root and no other document has changed |
| Library.DocumentsStayPlaced | backend/src/services/documents.rs:1235-1382 | so does every serial run of them, the duplicate-reuse upload included |
| StoragePaths.DigitsValue | backend/src/utils/storage_paths.rs:19-22 | the decimal text of a number reads back as the number |
| StoragePaths.FirstSlash | backend/src/utils/storage_paths.rs:14-63 | a text splits at its first slash in one way only |
| StoragePaths.KeyShape | backend/src/utils/storage_paths.rs:14-63 | every key starts with its document and version, each closed by a slash |
| StoragePaths.KeyInjective | backend/src/utils/storage_paths.rs:14-63 | equal keys mean the same kind of object, document, version number, asset type and id, for any asset type text |
| Purge.KeysDisjoint | backend/src/workers/purge.rs:224-252 | the rows of two documents never name the same object |
| Purge.GoneStaysGone | backend/src/workers/purge.rs:254-269 | a deleted object of drawn ids is never stored again |
| Purge.JobsMoveAsInTable | backend/src/workers/mod.rs:78-160 | the purge jobs of the interleaving move only as PurgeMoves allows the jobs of the table to |
| Purge.StepKeepsInv | backend/src/workers/purge.rs:156-298 | every step of any interleaving keeps: rows reference rows, what an attempt deleted is gone, what it read is still named by the rows |
| Purge.RunKeepsInv | backend/src/workers/purge.rs:156-298 | so does every run, and ids once drawn stay drawn |
| Purge.RunKeepsKept | backend/src/workers/purge.rs:156-298 | over every run each object of a document whose deletion was never requested is stored |
| Purge.RemovedOnlyFromTrash | backend/src/workers/purge.rs:271-298 | a document row goes only by a finalize of its own purge, while in the trash, after a deletion request |
| Purge.PurgeIsCleanExactly | backend/src/workers/purge.rs:156-298 | whatever happens between prepare and finalize of a purge, when its finalize removes the row every object the rows name has been deleted if and only if no asset of the document was written in between |
| Purge.NoLateKeys | backend/src/workers/purge.rs:197-252 | without an asset writer for the document the rows name exactly what the attempt read, whatever else happens |
| Purge.OtherDocumentsKeepObjects | backend/src/workers/purge.rs:254-269 | an object disappears only by a purge of the very document whose rows name it |
| Purge.PurgedDocumentLeavesNothing | backend/src/workers/purge.rs:156-298 | under any interleaving of trashes, restores, requests and other purges between prepare and finalize, a removed document's objects have all been deleted, if none of its assets was written meanwhile |
| Purge.LateAssetIsOrphaned | backend/src/workers/purge.rs:254-298 | without that condition an object without a row remains |
| Purge.RequestIsServedExactly | backend/src/services/documents.rs:1131-1159 | an accepted deletion request can be forgotten by no run without a restore, an early handler failure (MarkFailed) or a crash for its document, if and only if it does not meet a pending job whose execution has ended or whose worker is gone |
| Purge.LostRequest | backend/src/services/documents.rs:1131-1159 | a run of nine steps from the empty state, none of them a failure, that loses an accepted request |
| Purge.RequestAfterCrash | backend/src/services/documents.rs:1131-1159 | after a crash a second request is accepted and the document stays forgotten, from the empty state |
| Purge.AbandonedIsNeverPurged | backend/src/jobs.rs:85-115 | once the worker of a purge is gone, no run, whatever is requested in it, removes the document's row, and its request is forgotten whenever it is in the trash |
| Purge.AcceptedRequestCanBeCarriedOut | backend/src/workers/purge.rs:156-195 | after every run without a restore, an early handler failure or a crash for its document, a request that met no dead job still has its job, and the job can run to the end |
| Purge.ForgottenExactly | backend/src/workers/mod.rs:122-147 | while a requested document stays in the trash, a step forgets the request if and only if it marks the job, succeeded or failed, or is a crash of its worker |
| Purge.PurgeCanFinish | backend/src/workers/purge.rs:156-195 | from any reachable state, after any errors, a purge that still has its job can end in any deletion order: no row is left, other documents and objects are as they were, and of the document's objects none but those written after a purge under way had read the rows |
| Purge.PurgeTask.DeleteStorageObjects | backend/src/workers/purge.rs:254-269 | the loop deletes all keys, or stops at the first refused one having deleted some |
| Purge.PurgeTask.Execute | backend/src/workers/purge.rs:156-195 | one execution: nothing for a document not in the trash, else everything gone, else a retry with all rows kept |
| Jobs.JobQueue.EnqueueJob | backend/src/jobs.rs:33-55 | inserts the job, or fails and changes nothing exactly when the id is taken or a purge of the same document and tenant is pending; pending purges stay unique |
| Jobs.JobQueue.EnqueueJobIfNotExists | backend/src/jobs.rs:61-83 | the same without an error; after a purge request with a new id there is always a pending purge of that document and tenant |
| Jobs.JobQueue.Reserve | backend/src/jobs.rs:85-115 | reserves an eligible, unlocked job with the least run_after and counts the attempt; reserves none exactly when there is none |
| Jobs.JobQueue.Mark | backend/src/jobs.rs:117-161 | the row after success, retry or failure; over runs Jobs.StatusTellsExactly says which status each of them leads to |
| Jobs.MarkedEligibleExactly | backend/src/jobs.rs:117-161 | a marked job can be reserved again if and only if it was to be retried and the delay has passed; other jobs are not affected |
| Jobs.StepFinishesExactly | backend/src/workers/mod.rs:122-147 | one step makes a job succeeded exactly when the worker handling it finishes it with success, and failed exactly when with failure |
| Jobs.StatusTellsExactly | backend/src/workers/mod.rs:122-147 | over every run a job is succeeded if and only if the worker handling it at some point finished it with success, and failed if and only if it finished it with failure |
| Jobs.RunAfterIsDue | backend/src/jobs.rs:33-161 | over every run a job's run_after is the one requested, or the time of the insertion, until a retry, and then the time of the last retry plus its delay |
| Jobs.RetriedAndInserted | backend/src/jobs.rs:33-148 | a retried job is queued again; an inserted one has the kind, target and tenant of the request, is queued and has no attempts |
| Jobs.LockKeepsInv | backend/src/jobs.rs:88-101 | locking with skip-locked never gives a row to two workers |
| Jobs.WriteKeepsInv | backend/src/jobs.rs:101-113 | writing the reservation raises attempts together with the log of reservations |
| Jobs.FinishKeepsInv | backend/src/workers/mod.rs:122-147 | marking a job keeps all other workers' jobs in order |
| Jobs.StepKeepsInv | backend/src/workers/mod.rs:78-160 | every step of any number of workers keeps exclusiveness, attempts and unique pending purges |
| Jobs.NothingIsLost | backend/src/jobs.rs:85-161 | no step removes a job, leaves succeeded or failed, lowers attempts, or changes kind or target |
| Jobs.QueueTheorem | backend/src/workers/mod.rs:78-160 | under any interleaving no job is handled by two workers, attempts equals the number of reservations, and none came before run_after |
| Jobs.RunLosesNothing | backend/src/jobs.rs:85-161 | over every run a job stays in the table, succeeded and failed are final, attempts never fall, kind and target never change |
| Jobs.AbandonedExactly | backend/src/workers/mod.rs:95-147 | a processing job without a worker arises exactly when the worker handling it vanishes |
| Jobs.AbandonedForEver | backend/src/jobs.rs:85-161 | through every run such a job stays processing with no worker at it |
| Jobs.AbandonedPurgeBlocks | backend/migrations/202511010004_purge_document_jobs/up.sql:1-8 | after every run an abandoned purge conflicts with a new purge request for its document if and only if its tenant was not deleted, and then the request inserts nothing |
| Jobs.OnePurgeAtATime | backend/migrations/202511010004_purge_document_jobs/up.sql:1-8 | two workers handling purges of the same document of a tenant are one worker with one job |
| Jobs.PurgeMoves | backend/src/workers/mod.rs:78-160 | under every step of any worker the purge of a document is queued, then held, then queued again, marked or stuck for ever, in no other order |
| DocumentQuery.LoadLinkedDocIds | backend/src/utils/setops.rs:21-41 | the loop with early break gives exactly the documents linked to every id, and none for no ids |
| DocumentQuery.LinkStage | backend/src/services/documents.rs:543-566 | the id set after a tag or correspondent list, or an early return only when no document can match |
| DocumentQuery.SplitJoins | backend/src/services/documents.rs:543-546 | the parts of a comma-separated list hold no comma and join to the list |
| DocumentQuery.SortIsRanked | backend/src/services/documents.rs:610-618 | sorting by hit position gives the documents in hit order |
| DocumentQuery.SortedHits | backend/src/services/documents.rs:610-618 | the sorted documents are the hit list filtered to them |
| DocumentQuery.CombinedNoDup | backend/src/services/documents.rs:505-514 | engine hits followed by the new title hits repeat no document (what they hold, in which order: DocumentQuery.CombinedInOrder) |
| DocumentQuery.CombinedInOrder | backend/src/services/documents.rs:505-514 | filtered in any way, the combined hits hold exactly the engine hits and title hits kept, engine hits first and in engine order |
| DocumentQuery.TextAnswersExactly | backend/src/services/documents.rs:471-618 | every answer to a text holds a row if and only if it meets all other fields and is an engine hit or a title hit; engine hits come in engine order, before everything its title alone found |
| DocumentQuery.TitleSearch | backend/src/services/documents.rs:497-503 | the ids of the tenant's active documents whose title matches, each once |
| DocumentQuery.BaseQuery | backend/src/services/documents.rs:426-469 | tenant, status and folder filters, the descendant walk included, equal one predicate |
| DocumentQuery.StatusParts | backend/src/services/documents.rs:430-438 | the listing of all documents is the disjoint union of the active ones' and the trash's |
| DocumentQuery.FolderParts | backend/src/services/documents.rs:455-469 | a folder listed with its descendants holds what it and each folder below it hold by themselves; no folder at all adds what is in none |
| DocumentQuery.TagStage | backend/src/services/documents.rs:525-567 | the id set after the tag parameter, "none" included, or an early return |
| DocumentQuery.CorrespondentStage | backend/src/services/documents.rs:569-597 | the same for correspondents |
| DocumentQuery.ListMeansAll | backend/src/services/documents.rs:543-597 | a list joined of two readable ones asks for what both ask for |
| DocumentQuery.FieldsMean | backend/src/services/documents.rs:524-597 | one id in the correspondents asks for a correspondent row, one in the tags for a tag row, and "none" in any case for active documents without any |
| DocumentQuery.NothingAnswers | backend/src/services/documents.rs:515-517 | when no row can be kept, the early empty answer is the right one |
| DocumentQuery.RankedAnswers | backend/src/services/documents.rs:599-618 | the kept rows sorted by rank are the filtered hit list |
| DocumentQuery.Narrow | backend/src/services/documents.rs:471-618 | the staged narrowing with all early returns equals filtering by the conjunction of the fields' predicates |
| DocumentQuery.ListDocuments | backend/src/services/documents.rs:408-621 | for every query the listing returns exactly the documents meeting every field, none twice; with text, the answer TextAnswersExactly characterises by content and order; a failing engine fails it |
| DocumentQuery.UntaggedInTrashIsEmpty | backend/src/services/documents.rs:524-540 | a request for untagged documents in the trash always answers an empty list |
| DocumentQuery.TrashIsFoundByEngineOnly | backend/src/services/documents.rs:497-522 | a text request for the trash finds hits of the engine only |
| DocumentQuery.UnreadableExactly | backend/src/services/documents.rs:543-549 | a list is ignored exactly when one of its parts is no id |
| DocumentQuery.UnreadableListFiltersNothing | backend/src/services/documents.rs:543-575 | a document meets the fields with an unreadable list exactly when it meets them without the list |
| SearchQuery.EscapeToken | backend/src/documents/search.rs:36-49 | the character loop computes the escaped token |
| SearchQuery.EscapeRoundTrip | backend/src/documents/search.rs:36-49 | unescaping undoes escaping and no special character is left without a backslash |
| SearchQuery.ReadEscaped | backend/src/documents/search.rs:36-49 | a reader that stops at the first bare special character or white space gets back exactly the token |
| SearchQuery.ClauseParses | backend/src/documents/search.rs:28-31 | in front of any text a printed clause parses to its token |
| SearchQuery.JoinParses | backend/src/documents/search.rs:28-33 | clauses joined with AND parse to the list of their tokens |
| SearchQuery.QueryRoundTrip | backend/src/documents/search.rs:14-34 | for every input there is a query exactly when it has a word, and parsing it gives the lowercased words in order |
| SearchQuery.WordsCoverInput | backend/src/documents/search.rs:15-19 | the words hold every character of the input that is not white space, in order |
| SearchQuery.UniqueHits | backend/src/documents/search.rs:92-102 | the ids of the engine's hits, each at its first place and nothing else |
| DocumentCache.LastValueWins | frontend/src/documents/DocumentsManager.ts:76-153 | after ingesting any documents a field is present exactly if cached or given, and holds the last value given |
| DocumentCache.DocumentsManager.Ingest | frontend/src/documents/DocumentsManager.ts:76-153 | the contents become the fold of shallow merges; `changed` is false exactly when the map object is the same; a map handed out before is never written; each document handed back is the cached one at that point of the fold, or the given one without an id |
| DocumentCache.DocumentsManager.Update | frontend/src/documents/DocumentsManager.ts:189-200 | the updater's fields are merged into one cached document, nothing else changes |
| DocumentCache.UpdatedExactly | frontend/src/documents/DocumentsManager.ts:189-200 | field by field: what the updater answers is in the document, its other fields and all other documents stay |
| DocumentCache.DocumentsManager.MapDocuments | frontend/src/documents/DocumentsManager.ts:202-227 | every document becomes the mapper's answer or stays, in any visiting order, copy on first write; it counts as changed exactly when some answer is neither undefined nor the object it was given, a null included, which keeps the document |
| DocumentCache.DocumentsManager.Remove | frontend/src/documents/DocumentsManager.ts:229-249 | exactly the named documents go, repeated and unknown ids included |
| DocumentCache.DocumentsManager.PerformAll | frontend/src/documents/DocumentsManager.ts:76-249 | any sequence of the four calls has the folded effect and writes no map that existed before |
| DocumentCache.DocumentsManager.SnapshotThenPerform | frontend/src/documents/DocumentsManager.ts:270-272 | a snapshot taken before any sequence of calls still holds what it held |
| DocumentCache.DocumentsManager.StartEnsure | frontend/src/documents/DocumentsManager.ts:155-187 | what ensure answers, and how the requests in flight change |
| DocumentCache.DocumentsManager.FinishFetch | frontend/src/documents/DocumentsManager.ts:174-183 | a finished fetch is merged and frees its id; the waiting callers get the cached document, or none for an empty or failed fetch |
| DocumentCache.FetchesExactly | frontend/src/documents/DocumentsManager.ts:155-187 | over every run at most one fetch per id is under way, and `inflight` holds exactly those if and only if no fetcher threw at once |
| DocumentCache.FetchCompletes | frontend/src/documents/DocumentsManager.ts:155-187 | an ensure starts a fetch exactly for an id that is neither cached nor in flight, with a fetcher; the fetch that brings the document leaves it cached and every other id as before |
| DocumentCache.LeftoverStays | frontend/src/documents/DocumentsManager.ts:169-187 | an id left in `inflight` is never fetched again |
| TagAgreement.SortedDistinctIncreasing | backend/src/utils/db.rs:18-25 | sorting and deduplicating ids keeps the set and leaves no repetition |
| TagAgreement.CountsMatchExactly | backend/src/services/tags.rs:79-107 | comparing row counts with distinct ids finds a missing row, in both directions |
| TagAgreement.TagServer.AssignToDocument | backend/src/services/tags.rs:47-66 | the relation after assigning tags to one document, and each refusal |
| TagAgreement.TagServer.BulkInserts | backend/src/services/tags.rs:110-123 | the nested loops give every pair of a document and a tag |
| TagAgreement.TagServer.BulkUpdate | backend/src/services/tags.rs:68-143 | the relation after a bulk request, each refusal, and counts that are the rows really added or removed |
| TagAgreement.TagServer.RemoveFromDocument | backend/src/services/tags.rs:145-165 | one pair removed, or not found |
| TagAgreement.BulkAddIsSingles | backend/src/services/tags.rs:47-143 | a bulk request to add leaves the rows that adding to the documents one after another leaves, and is accepted exactly when that is and no document is in the trash |
| TagAgreement.RemoveUndoesAdd | backend/src/services/tags.rs:68-143 | a bulk removal after a bulk add leaves what the removal alone leaves, and the old rows when every pair was new |
| TagAgreement.RemovedSingle | backend/src/services/tags.rs:145-165 | one pair can be removed exactly when it is there, and adding it again gives back the rows |
| TagAgreement.AddedListExactly | frontend/src/documents/DocumentsManager.ts:307-315 | the new list keeps the old one as prefix and is duplicate-free exactly if it was and no new tag is named twice |
| TagAgreement.ServedOne | backend/src/services/tags.rs:47-165 | what a served request does to one document's tags, by case |
| TagAgreement.FollowedOne | frontend/src/documents/DocumentsManager.ts:307-347 | the client's own change does the same to the cached list as a set and touches no other field |
| TagAgreement.StepAgrees | frontend/src/documents/DocumentsManager.ts:307-347 | one tag operation, served or refused, keeps cache and server in agreement |
| TagAgreement.RunAgrees | frontend/src/documents/DocumentsManager.ts:307-347 | every sequence of tag operations keeps each cached list equal, as a set, to the server's relation |
| TagAgreement.RunRowsSound | backend/src/services/tags.rs:47-165 | the relation only ever links existing documents and tags |
| TagAgreement.TagClient.Perform | frontend/src/documents/DocumentsManager.ts:307-347 | client and server together make the modelled step, and an error leaves both unchanged |
| TagAgreement.TagClient.PerformAll | frontend/src/documents/DocumentsManager.ts:307-347 | the same for any sequence, and agreement at the start is agreement at the end |
| Selection.EntryKeyRoundTrip | frontend/src/app/entryKey.ts:7-26 | printing then parsing an entry key gives kind and id back, and the reverse |
| Selection.NextOrderTheorem | frontend/src/app/useDocumentSelection.ts:58-87 | the new order is a permutation of the selection beginning with the untouched entries in their old order |
| Selection.NextOrderParts | frontend/src/app/useDocumentSelection.ts:58-87 | the new order is what was ordered and is not touched, then the touched entries that are selected, then what else is newly selected, each part in its own order |
| Selection.CanonicalIsVisible | frontend/src/app/useDocumentSelection.ts:97-117 | the second lookup by kind and id finds no key that was not visible as given |
| Selection.UniqueVisibleFacts | frontend/src/app/useDocumentSelection.ts:97-122 | the selection is duplicate-free and holds exactly the visible keys asked for |
| Selection.SelectionHook.UpdateSelectionOrder | frontend/src/app/useDocumentSelection.ts:58-87 | the two push loops compute the specified order |
| Selection.SelectionHook.ApplySelection | frontend/src/app/useDocumentSelection.ts:89-159 | the new selection, order, anchor and focus as functions of the old state |
| Selection.SelectionHook.SelectRange | frontend/src/app/useDocumentSelection.ts:203-222 | the indices, slice, filter and push of a shift-click give the range of the specification, which ShiftSelectsBetween states by index, and the entries it touches |
| Selection.SelectionHook.SelectAdditive | frontend/src/app/useDocumentSelection.ts:223-241 | toggling one entry, or the loop adding several, gives the specified keys |
| Selection.SelectionHook.ChooseEntries | frontend/src/app/useDocumentSelection.ts:191-247 | the anchor fallbacks and the three branches, statement by statement, give the keys, touched entries and anchor of the specification |
| Selection.SelectionHook.HandleEntrySelection | frontend/src/app/useDocumentSelection.ts:166-252 | a click without a visible key changes nothing; any other makes selection, order, anchor and focus agree whatever they were, and focuses the last visible key |
| Selection.ApplyIsCoherent | frontend/src/app/useDocumentSelection.ts:89-159 | applying any keys makes selection, order, anchor and focus agree, whatever they were |
| Selection.PerformKeepsCoherent | frontend/src/app/useDocumentSelection.ts:58-269 | every call keeps that agreement |
| Selection.SelectionStaysCoherent | frontend/src/app/useDocumentSelection.ts:58-269 | after every run the selection is duplicate-free and drawn from the visible set in force, the order a permutation of it, the anchor null exactly when it is empty and otherwise a member |
| Selection.HookStaysCoherent | frontend/src/app/useDocumentSelection.ts:32-38 | the same from the initial state of the hook, once a call has replaced any initial entries |
| Selection.ClickSelects | frontend/src/app/useDocumentSelection.ts:223-247 | a plain click replaces the selection, an additive one toggles one entry or adds several, and a selected last key becomes the anchor |
| Selection.ClickKeepsOrder | frontend/src/app/useDocumentSelection.ts:223-248 | a plain click selects the keys in their order, an additive one appends a new entry or takes out a selected one and keeps the others in place |
| Selection.PromoteMovesLast | frontend/src/app/useDocumentSelection.ts:254-269 | promoting a selected document moves its entry to the end of the order and changes nothing else |
| Selection.ClearEmpties | frontend/src/app/useDocumentSelection.ts:161-164 | clearing leaves nothing selected, ordered, anchored or focused, whatever was |
| Selection.AnchorAfterApply | frontend/src/app/useDocumentSelection.ts:119-154 | the anchor is the one asked for if it is selected, else the old one if that is, else the entry selected last, else none |
| Selection.FocusAfterApply | frontend/src/app/useDocumentSelection.ts:89-159 | a focused document stays so while it is selected; else the anchor is focused if it is a selected document, else the document selected last |
| Selection.ShiftSelects | frontend/src/app/useDocumentSelection.ts:203-222 | for any lists and any previous anchor a shift-click selects the visible part of what it reaches, always with the target; with a duplicate-free list ShiftSelectsBetween says what that is |
| Selection.ShiftSelectsBetween | frontend/src/app/useDocumentSelection.ts:203-222 | with anchor and target at i and j of a duplicate-free list the selection holds exactly the visible entries at every k between i and j, in list order, either way round |
| Selection.ShiftSelectsAlone | frontend/src/app/useDocumentSelection.ts:203-222 | when one end cannot be navigated to, the target alone is selected |
| Selection.ShiftOrders | frontend/src/app/useDocumentSelection.ts:203-222 | the order of selection keeps what stays selected in place and ends with the newly selected entries and the target, in list order |
| Selection.ShiftKeepsAnchorExactly | frontend/src/app/useDocumentSelection.ts:203-222 | it keeps the anchor if and only if both ends can be navigated to and the anchor is visible, or they are the same entry |
| Selection.ShiftChain | frontend/src/app/useDocumentSelection.ts:203-222 | a chain of shift-clicks whose earlier clicks keep the anchor, in the exact sense of ShiftKeepsAnchorExactly, ends with the selection and anchor of the last one alone |
| Metadata.MergeMetadataMaps | backend/src/documents/metadata.rs:29-52 | the in-place loop over the update's entries, in any order, computes the recursive merge |
| Metadata.MergeMetadata | backend/src/documents/metadata.rs:5-27 | null counts as an empty object, other non-objects are refused, on either side |
| Metadata.MergePathwise | backend/src/documents/metadata.rs:29-52 | the merged value at every path: the update's where it overrides, the merge where both have objects, else the base's |
| Metadata.UpdateAppears | backend/src/documents/metadata.rs:29-52 | every non-object value of the update is found at its path |
| Metadata.BaseIsKept | backend/src/documents/metadata.rs:29-52 | what is not overridden stays |
| Metadata.NothingElseAppears | backend/src/documents/metadata.rs:29-52 | every path of the result is one of the base or the update, with a value of theirs |
| Metadata.MergeIdempotent | backend/src/documents/metadata.rs:29-52 | applying the same update twice is applying it once |
| Metadata.MergeStoredExactly | backend/src/schema.rs:91-91 | over a stored base, a merged value comes back from its column unchanged if and only if the update itself would |
| Metadata.StoreMerge | backend/src/schema.rs:91-91 | storing a merged value is merging the stored values |
| Metadata.StoreLookup | backend/src/schema.rs:91-91 | a stored value holds at every path the stored form of what was there |
| Metadata.GroupingMatters | backend/src/documents/metadata.rs:29-52 | object, plain value, object: the two groupings differ |
| UpdatePlan.BuildDocumentUpdatePlan | backend/src/services/documents.rs:251-337 | the change set built up step by step equals the plan field by field, errors in the same order; what an accepted plan does to the document is stated by the four lemmas below |
| UpdatePlan.UpdateAcceptedExactly | backend/src/services/documents.rs:251-337 | a plan is made if and only if every field given can be read and one asks for a value the document does not have; "no changes provided" is the answer if and only if all can be read and none does |
| UpdatePlan.TitleAfterUpdate | backend/src/services/documents.rs:276-289 | after the plan the title is the one requested, trimmed, and the file name that for it; without a title both stay |
| UpdatePlan.IssuedAtAfterUpdate | backend/src/services/documents.rs:291-314 | the time is the one requested, as stored; a null takes it away, a missing field leaves it |
| UpdatePlan.MetadataAfterUpdate | backend/src/services/documents.rs:317-328 | with replace the metadata are the stored update alone; without, at every path, the update's plain value is there as stored, everything before that it does not override is still there, and nothing else is |
| UpdatePlan.MetadataSettles | backend/src/services/documents.rs:317-328 | once applied and stored, the same metadata update is no change if and only if its value comes back from the database as it is; otherwise it is a change that leaves the same metadata |
| UpdatePlan.SecondUpdateRejectedExactly | backend/src/services/documents.rs:251-337 | a valid payload sent again is rejected with "no changes provided" if and only if it sets no time in a leap second or finer than a microsecond and no number the database gives back as another; otherwise every repetition counts as a change that changes nothing |
| UpdatePlan.StoredTimeExactly | backend/src/schema.rs:92-92 | a time comes back from its column unchanged exactly when it is in no leap second and has whole microseconds |
| UpdatePlan.LeapSecondMoves | backend/src/services/documents.rs:300-310 | the leap second at the end of 2016 is stored as the start of 2017 |
| IssuedAt.TwoDigitYears | backend/src/workers/issued_at.rs:401-409 | two digits give the year from 1970 to 2069 that ends in them |
| IssuedAt.TakenExactly | backend/src/issued_at.rs:134-166 | a date is taken if and only if, as a number, it lies from the first one allowed to today, it is not ignored and has a midnight |
| IssuedAt.MonthLengths | backend/src/workers/issued_at.rs:273-391 | months of 31 and 30 days alternate from January and again from August; February has 28 and one more when the Gregorian count passes a leap year |
| IssuedAt.YearLength | backend/src/workers/issued_at.rs:273-391 | the twelve months of every year add up to 365 days and the leap days of the Gregorian count |
| IssuedAt.MonthReadExactly | backend/src/workers/issued_at.rs:411-431 | a name is read as a month if and only if the first variant of that name is of a locale asked for |
| IssuedAt.SpelledDateIsRead | backend/src/workers/issued_at.rs:273-391 | writing any year, month and day in any of the five patterns, with any leading zeros and any suffix behind the day, and reading it gives the date meant, if it is one: the date itself for a year of three or more digits, the year near 2000 for two, nothing for a short year behind a month name, the first of the month without a day |
| IssuedAt.PushDate | backend/src/workers/issued_at.rs:241-271 | the search for an overlap and the replacement |
| IssuedAt.OverlapExactly | backend/src/workers/issued_at.rs:247-256 | two spans overlap if and only if they have a place of the text in common |
| IssuedAt.CollectMatches | backend/src/workers/issued_at.rs:235-399 | five passes over one list equal resolving all accepted candidates in order, then sorting by start |
| IssuedAt.PushKeeps | backend/src/workers/issued_at.rs:247-266 | a candidate takes a new place exactly when it overlaps nothing retained; otherwise it or an overlapping entry at least as long is retained |
| IssuedAt.ResolveKeeps | backend/src/workers/issued_at.rs:241-271 | the retained list never shrinks, no entry's span gets shorter, every entry is a candidate |
| IssuedAt.PushDisjointExactly | backend/src/workers/issued_at.rs:247-262 | one candidate keeps the spans disjoint if and only if it does not take one place and overlap a second entry |
| IssuedAt.DisjointExactly | backend/src/workers/issued_at.rs:247-262 | the same over all candidates |
| IssuedAt.ClashLeavesOverlap | backend/src/workers/issued_at.rs:247-262 | the captures of a text of 23 bytes, through all five passes, that leave overlapping spans |
| IssuedAt.NothingFoundExactly | backend/src/workers/issued_at.rs:223-399 | nothing is found if and only if no capture of any pass spells a calendar date in the window that is not ignored and has a midnight |
| IssuedAt.FoundIsEarliest | backend/src/workers/issued_at.rs:223-233 | what is found belongs to a retained match with the least start and is such a date |
| CapabilitySets.NormalizedAscends | backend/src/auth/capability_sets.rs:134-144 | normalising gives the same capabilities, ascending, each once |
| CapabilitySets.GeneratedSlugs | backend/src/auth/capability_sets.rs:252-278 | the computed slug is reserved exactly for the four built-in lists |
| CapabilitySets.BuildSlug | backend/src/services/capability_sets.rs:259-283 | the character loop computes the normal slug |
| CapabilitySets.SlugIsClean | backend/src/services/capability_sets.rs:259-283 | a normal slug is the trimmed text with hyphens for white space and small letters, at most 64 bytes, and its own normal form |
| CapabilitySets.BuiltInSlugs | backend/src/auth/capability_sets.rs:252-278 | each of the four built-in lists has its own slug |
| CapabilitySets.CapabilityTable.LoadCapabilities | backend/src/auth/capability_sets.rs:146-161 | the stored capabilities, ascending, each once, whatever order the rows come in |
| CapabilitySets.CapabilityTable.PersistAndBump | backend/src/auth/capability_sets.rs:210-240 | the rows are replaced and the version raised, or nothing changes |
| CapabilitySets.CapabilityTable.CreateSet | backend/src/services/capability_sets.rs:101-133 | create with its refusals |
| CapabilitySets.CapabilityTable.UpdateSet | backend/src/services/capability_sets.rs:135-208 | update with its refusals; a late error undoes the rename |
| CapabilitySets.CapabilityTable.DeleteSet | backend/src/services/capability_sets.rs:210-257 | delete with its refusals |
| CapabilitySets.CreatedExactly | backend/src/services/capability_sets.rs:101-133 | a set is created if and only if there are capabilities and the slug, requested or computed, is valid, not reserved and free; it then holds exactly the capabilities asked for, at version 1 |
| CapabilitySets.UpdatedExactly | backend/src/services/capability_sets.rs:135-208 | an update is accepted exactly for a set that is no system set, or names nothing, with a valid free slug and some capabilities; it changes exactly what it names, and the version exactly with the capabilities |
| CapabilitySets.EnsuredNew | backend/src/auth/capability_sets.rs:163-208 | ensuring a list without a set creates one with exactly this list, a system set exactly for a reserved slug; it fails exactly for an empty or repeating list or a drawn id |
| CapabilitySets.CapabilityTable.EnsureSet | backend/src/auth/capability_sets.rs:163-208 | ensure compares the loaded list and refreshes or creates; the record it returns has the right slug and tenant, and the current version exactly when nothing was refreshed |
| CapabilitySets.UpdateKeepsValid | backend/src/services/capability_sets.rs:135-208 | an update keeps slugs unique and never lowers a version, nor changes capabilities under the same version |
| CapabilitySets.StepKeepsValid | backend/src/services/capability_sets.rs:101-257 | so does every operation: unique slugs per tenant, system exactly for reserved slugs, versions |
| CapabilitySets.EnsureIsNoOpExactly | backend/src/auth/capability_sets.rs:280-295 | for any list, ensuring an existing set fails exactly on a repeated capability, changes nothing if and only if the list is the stored one in loading order, and else stores it under the next version |
| CapabilitySets.EnsuringOwnerAlwaysRefreshes | backend/src/auth/capability_sets.rs:15-38 | ensuring the owner list raises its version every time |
| CapabilitySets.RunKeepsValid | backend/src/services/capability_sets.rs:101-257 | the invariant over every serial run |
| CapabilitySets.RowFollows | backend/src/services/capability_sets.rs:101-257 | over every run a row's version never falls, and under the same version its capabilities are the same |
| CapabilitySets.PassingTokenIsCurrent | backend/src/auth/mod.rs:123-134 | after any run, a token that passes the version check is judged against exactly the capabilities its set had at issue |
| CapabilitySets.RewriteRejectsTokens | backend/src/auth/mod.rs:123-134 | an update naming capabilities rejects every token issued before and stores exactly those capabilities |
| CapabilitySets.TokenRejectedExactly | backend/src/auth/mod.rs:123-134 | one operation of any kind makes a passing token fail if and only if it rewrites the set (a valid update naming capabilities, or an ensure whose list is not the stored one) or deletes it |
| CapabilitySets.RewriteRejectsForEver | backend/src/auth/mod.rs:123-134 | after a rewrite of either kind, and any run that follows, every earlier token of the set stays rejected |
| Text.TrimIsTrimmed | backend/src/utils/text.rs:4-31 | trimming leaves no outer white space and is idempotent |
| Text.NormalizeIdempotent | backend/src/utils/text.rs:4-31 | an accepted identifier is not empty and is its own normal form |

## Left out

- HTTP, OpenAPI, JSON decoding, cookies, multipart parsing, JWT, password hashing and row-level security: plumbing or foreign libraries; a token is its set id and version.
- How the JSONB column rewrites a number is a parameter of which only idempotence is assumed; a string holding NUL, which the column refuses, and a title too long for its column are not modelled.
- The regex engine, Unicode lowercasing, ILIKE, UUID and RFC 3339 parsing, the SHA-256 digest and file-name derivation are parameters of the functions that use them.
- Time zones: the instant of a local midnight is a parameter, and today's local date is given; `normalize_datetime` and hints from file metadata are not modelled.
- Concurrent folder, document, tag and capability transactions: they run one after another; jobs and purges are interleaved.
- Ids are numbers, and a drawn id is never the requested parent; the nil UUID, which the unique index equates with "no parent", is never drawn.
- Numbers in text are unbounded; a year beyond the calendar library or a 32-bit number is refused by the code and is later than any real today here.
- Row versions, attempts and capability versions are unbounded; the 32-bit columns' overflow is not modelled.
- A version number above 1, asset replacement and the tenant prefix of the storage root: a purge sees one version per upload and assets that are only added.
- Job errors and payloads other than the document a purge names, and the job a tenant deletion keeps.
- Purge.PurgeTask.Execute: one execution with nothing interleaved; interleavings are the subject of the step and run lemmas of the same module.
- Jobs.RunLosesNothing: says nothing of jobs being finished, since the code lets a crashed worker's job stay for ever.
- Selection.ShiftChain: requires each earlier click to keep the anchor, whose exact condition is ShiftKeepsAnchorExactly; equality is of selection and anchor, as the order of selection remembers every click.
- Library.DocumentsStayPlaced: the contents check of a duplicate upload is outside; the reused document is given.
- DocumentCache.DocumentsManager.Ingest: tag and correspondent objects inside a document are taken as already replaced by their ids, and what is passed to the tag and correspondent managers is not modelled.
- DocumentsManager: timers, listeners, and the correspondent operations, which mirror the tag ones.
- Tag operations of other clients and documents fetched in between, which the cache does not see.
- The tag, correspondent and document parts of the migration, its progress bars and threads, and the on-disk export.
- The raw setters the selection hook returns, React rendering, and all other UI.
- OCR, thumbnails, previews, WebDAV and the planner that schedules analysis tasks.
