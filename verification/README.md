# Sekai: verified model

Sekai keeps the history of Minecraft region files as commits of changed chunks. This project
models its core in Dafny and proves what the program promises about it. The parts build on
each other:

- **History.** `Ancestry`, `History`, `Retire`, `Port` hold the relational form of the store
  (the form the SQL statements work on): commits with a local sequence, parent edges, one row
  per commit and coordinate, refs. `MemStore` is the in-memory store as a class whose methods
  are proved against that form.
- **Pruning.** `Prune`, `PruneRun`, `Selection`, `LaterCommits`: fold targets, whole prune
  runs and what every commit shows after one, what a waiting plan survives. `Counterexamples`
  holds runs of the store on which documented promises fail.
- **Reading history.** `GraphWalk` (level walks), `CommitHash` (the canonical preimage).
- **Committing.** `Scope.dfy` (module `Scopes`), `Deltas`, `CommitPlan`, `Ingest`,
  `IngestRun`, `WorldCommit`: plan, scan, delta, record. `RefRace` lets many runs interleave,
  `CrashOrder` orders blob writes, barriers and crashes, `Partition` and `Workers` split files
  over workers.
- **Region files.** `RegionLayout`, `SlotTable`, `RegionWriter`, `RegionReader`, and `Lz4` for
  the block framing.
- **Checking out and collecting.** `RebuildFile`, `CheckoutTally`, `CheckoutRun`, `RoundTrip`,
  `Cas`, `Gc`.

## What the model assumes

- Hash functions are parameters. A commit identifier is `commitHash(parents, time, entries)`
  for some function; theorems about a newly shown state ask that the identifier is not stored
  yet. `CommitHash` proves which inputs give the same preimage.
- A payload's normalized digest is a function of its family and bytes. `KindsAgree` states the
  one hypothesis about it: a key shared by two families means the same payloads in both.
- The blob store holds what its keys say (`CasSound`, `Backed`). Commit and checkout keep that,
  and `Backed` is how "no blob is missing" enters the round trip.
- A sort that the program takes from its standard library is a function here; stable order is
  proved where it matters.
- Garbage collection is atomic with respect to commits. Nothing in the code excludes one while
  the other is active (ARCHITECTURE.md:397-403 describes a `commit.inflight` check that the
  code does not make).
- Ingest workers run concurrently in the program. Their files are ingested one after the
  other here, in any order of completion; `IngestRun.PutsInAnyOrder` shows that every
  interleaving of their puts stores the same hashes, `IngestRun.ScanIsUnique` that the scan
  does not depend on the order, and `CrashOrder` covers the order of puts and barriers.

## Where the code does less than its documentation says

- "Effective states of retained commits never change" (crates/core/src/port/meta.rs:145-146)
  holds for the commit folded into, and on forests for every retained descendant. On merges a
  re-stamped row can overtake one from a side branch: `Counterexamples.MergeIsOvertaken` is a
  run that does it, `Retire.RetireIsExact` the exact condition of one retirement and
  `Prune.WholeRunIsExact` that of a whole prune run, for any graph and any observer.
- A plan "stays applicable after commits" (crates/app/src/prune.rs:59-63): it does stay
  applicable, but a commit recorded on a planned deletion loses rows
  (`Counterexamples.BranchingFromADeletionBreaks`). `Prune.FinishedRunShows` says what every
  commit left shows after the whole plan ran on a forest, `Prune.FinishedRunIsExact` when that
  is what it showed before.
- The same comment says that applying a plan one of whose commits is gone "fails with an
  unknown-commit error". The code reports that the commit has no successor, after retiring
  the ones before it (`PruneRun.ApplyPrune`, `Prune.GoneHasNoSuccessor`).
- "The successor holds the same effective state" (crates/core/src/support.rs:463-465): a ref
  that follows a fold may show a different state, because the successor has rows of its own.
  `Counterexamples.FollowedRefChanges` is such a run, `Retire.TargetShowsSource` the exact
  condition.
- Recording a stored commit again is idempotent, "its row and edges already exist"
  (crates/storage-sqlite/src/meta.rs:453-455). After a parent was retired and recorded again
  they do not, and the edges SQLite inserts (crates/storage-sqlite/src/meta.rs:499-506) put a
  parent after its child: `Counterexamples.ReinsertedEdgeBreaksOrder` is such a run,
  `Port.SqlInsertKeepsOrder` the exact condition. The in-memory store changes nothing.
- "So every group is non-empty" (crates/app/src/commit.rs:583-585): empty files all land on
  the first worker without load, and groups left empty are dropped. `Workers.TwoEmptyFiles`
  shows it, `Workers.EveryWorkerIsBusy` says exactly when every worker gets a group.

## Model

| member | source | states |
|---|---|---|
| Ancestry.ContractKeepsReachability | crates/core/src/support.rs:440-459 | removing a commit and handing its parents to its children changes reachability between no two remaining commits |
| Ancestry.ContractKeepsForest | crates/core/src/support.rs:440-459 | contraction keeps a history with at most one parent per commit in that shape |
| Ancestry.ForestComparable | crates/core/src/usecase/commit.rs:241-245 | on such a history any two commits of one line continue one another |
| History.SequenceBoundIsIdle | crates/core/src/support.rs:87-121 | the in-memory lookup's bound "not after the commit" excludes no inherited row, so it agrees with the SQL form |
| Retire.RetireKeepsValid | crates/core/src/support.rs:396-472 | a retirement keeps sequences distinct, parents older, one row per commit and coordinate, refs on stored commits |
| Retire.RetiredLine | crates/core/src/support.rs:440-459 | every remaining commit inherits from exactly the commits it did, less the retired one |
| Retire.RetiredRows | crates/core/src/support.rs:412-438 | rows elsewhere stay, none is left on the retired commit, and one of its rows stands on the target if and only if no more recent row of its coordinate is on the target's line |
| Retire.RetiredCommits | crates/core/src/support.rs:440-462 | every other commit keeps sequence and time; its parents are the old ones, with the retired one replaced by that one's parents |
| Retire.FoldMovesItsRefs | crates/core/src/support.rs:463-470 | refs on the retired commit name the target; flags, times and every other ref are as they were |
| Retire.RetireIsExact | crates/core/src/port/meta.rs:138-149 | on any graph and for any observer: a retirement leaves the observer's state unchanged if and only if every row of the retired commit is harmless to it |
| Retire.NoInterleavingSuffices | crates/core/src/support.rs:412-438 | no row of a moved coordinate outside the target's ancestry with a sequence between the two: the observer's state is unchanged |
| Retire.TargetKeepsState | crates/core/src/port/meta.rs:138-149 | the commit folded into always keeps its state, merges included |
| Retire.ForestHasNoInterleaving | crates/core/src/usecase/commit.rs:241-245 | on histories recorded by commits the side condition holds for every observer that continues the target |
| Retire.TargetShowsSource | crates/core/src/support.rs:463-469 | a ref on the retired commit follows the fold; it still names the same state if and only if every row the target shows from elsewhere repeats one of the retired commit's history |
| Counterexamples.FollowedRefChanges | crates/core/src/support.rs:463-469 | a run after which a ref that followed a fold names another state |
| Counterexamples.MergeIsOvertaken | crates/core/src/support.rs:412-438 | a run to a merge history on which an allowed retirement changes a retained commit |
| Port.RunsKeepInvariant | crates/core/src/support.rs:194-559 | over every sequence of port operations the store invariant and the single active ref are kept |
| Port.RunsKeepForest | crates/core/src/usecase/commit.rs:241-245 | every history reached by commits with at most one parent, retirements and ref moves is a forest |
| Port.InsertRecords | crates/core/src/support.rs:168-176 | a new commit comes last with its time, parents and rows, nothing else changes; a stored identifier changes nothing |
| Port.ApplyMovesActiveRef | crates/core/src/support.rs:386-393 | an accepted record moves the active ref onto the new commit, keeping its flag and time, and no other ref |
| Port.ApplyIsChecked | crates/core/src/support.rs:337-379 | a record is accepted if and only if a ref is active, a born one is among the parents and every parent is stored; which refusal comes when, and that the unknown parent named is the first |
| Port.RefsChangeAsAsked | crates/core/src/support.rs:474-559 | setting, deleting and activating a ref changes that ref as asked (activation: the flags) and no other |
| Port.InsertShowsDelta | crates/core/src/support.rs:337-394 | a new commit shows what its parents hand down, overridden by its own rows |
| Port.InsertKeepsStates | crates/core/src/support.rs:337-394 | recording a commit changes the state of no other commit |
| Port.SqlInsertAddsEdges | crates/storage-sqlite/src/meta.rs:499-506 | the SQL form adds the named edges to those already there and agrees with the in-memory form in everything else |
| Port.SqlInsertKeepsOrder | crates/storage-sqlite/src/meta.rs:456-508 | the re-inserted edges keep parents older than children if and only if the commit is new or newer than every named parent |
| Counterexamples.ReinsertedEdgeBreaksOrder | crates/storage-sqlite/src/meta.rs:449-508 | a run after which recording a stored commit again, harmless in memory, puts a parent after its child in SQLite |
| MemStore.AncestorIds | crates/core/src/support.rs:57-79 | the stack walk returns exactly the commits reachable through parent links |
| MemStore.MemMeta.LookupChunk | crates/core/src/support.rs:241-267 | the row found is the most recent one on the commit's line; none is found exactly when the coordinate is unknown there |
| MemStore.MemMeta.VisitCommitChunks | crates/core/src/support.rs:87-121 | the rows visited are exactly the effective state of the commit, tombstones included |
| MemStore.MemMeta.CreateCommit | crates/core/src/support.rs:197-215 | the new store, or the unknown parent, is the relational one; an existing identifier changes nothing; a new one is stored with the parents and time given, and no ref moves |
| MemStore.MemMeta.ApplyCommitIncremental | crates/core/src/support.rs:337-394 | the new store, or the refusal and its order of checks, is the relational one; the active ref alone moves, to the new commit |
| MemStore.MemMeta.RetireCommit | crates/core/src/support.rs:396-472 | the new store is the relational retirement; folded and dropped count the retired commit's rows; accepted if and only if both are stored and the target continues the other; only refs on the retired commit move, to the target |
| MemStore.MemMeta.SetRef | crates/core/src/support.rs:474-498 | a moved ref keeps its flag and time, a new one starts inactive, all others stay; refused if and only if the target is unknown |
| MemStore.MemMeta.DeleteRef | crates/core/src/support.rs:520-528 | only the named ref goes; refused if and only if it is active; deleting a missing ref reports so and changes nothing |
| MemStore.MemMeta.ActivateRef | crates/core/src/support.rs:543-559 | exactly the named ref becomes active and no target or time changes; refused if and only if there is no such ref |
| Prune.TargetIsFunnel | crates/core/src/usecase/prune.rs:233-283 | the fold target is the one retained commit that continues the deletion and through which every retained continuation passes; without one the fold is refused, and why |
| Prune.SnapshotStaysTrue | crates/core/src/usecase/prune.rs:203-211 | at any point of a run the targets from the first snapshot are those a fresh look at the contracted graph gives |
| Prune.TurnIsRetirable | crates/core/src/usecase/prune.rs:219-230 | at its turn every planned deletion meets the preconditions of its retirement |
| Prune.TurnKeepsStates | crates/core/src/usecase/prune.rs:193-236 | each retirement of a run keeps every supported, clear state, on any graph |
| Prune.TurnMovesRefs | crates/core/src/support.rs:463-470 | over a run a ref on a retired deletion names that deletion's target and is not moved again; every other ref is as it was |
| Prune.RetainedIsSupported | crates/core/src/usecase/prune.rs:238-245 | retained commits are supported: whatever they inherit from a deletion they inherit through its target |
| Prune.AnchoredIsSupported | crates/app/src/prune.rs:56-63 | so is a commit whose deletions are all inherited through one retained commit |
| Prune.ForestIsClear | crates/core/src/usecase/commit.rs:241-245 | on forests a supported view is always clear |
| Prune.GoneHasNoSuccessor | crates/core/src/usecase/prune.rs:218-219 | a planned commit the store no longer holds is reported as one without a successor |
| Prune.FinishedRunShows | crates/app/src/prune.rs:59-63 | on a forest, after an accepted plan every commit left shows its old line without the deletions whose fold target it does not inherit from |
| Prune.FinishedRunIsExact | crates/app/src/prune.rs:59-63 | so it keeps its state if and only if the winning rows of those deletions are repeated by the rest of its line |
| Prune.WholeRunShows | crates/core/src/usecase/prune.rs:193-236 | on any graph, after an accepted plan every commit left shows, on its line from before the run, the folded rows: in plan order each deletion's row goes to its target, or is dropped if a more recent one stands on the target's line; graph and order are those from before the run |
| Prune.WholeRunIsExact | crates/app/src/prune.rs:59-63 | on any graph, a commit left keeps its state over the whole run if and only if each row it showed is repeated by the folded row that now wins on its line |
| PruneRun.RetainedAncestry | crates/core/src/usecase/prune.rs:299-326 | the level walk computes the same ancestor sets as the in-memory store's stack walk |
| PruneRun.PlanPrune | crates/core/src/usecase/prune.rs:135-165 | a selection is planned if and only if something stays, all of it is stored and every other commit has a target; deletions and retentions partition the history, oldest first; a refusal names the least unknown commit or the oldest deletion without a target |
| PruneRun.ApplyPrune | crates/core/src/usecase/prune.rs:193-236 | succeeds if and only if the plan is accepted; then exactly its commits are deleted, and folded plus dropped are exactly the rows they held; otherwise which deletion is refused, with which error, and that exactly the ones before it are retired; supported clear states are kept however far it gets, and the rows left are in closed form; refs on the commits retired name their targets, all others are unchanged |
| PruneRun.PruneForest | crates/core/src/usecase/prune.rs:193-236 | on a forest no retained and no anchored commit changes its state, and after an accepted plan every other commit shows exactly what its losses leave |
| Selection.SelectRetained | crates/core/src/usecase/prune.rs:102-122 | everything selected is followed by everything newer; nothing before `before`; the smaller of `keep_last` and what there is from `before` on, counted exactly; an unknown `before` selects nothing |
| Selection.LinearIsPlannable | crates/core/src/usecase/prune.rs:135-165 | on one branch every selection that keeps the newest commit can be pruned |
| LaterCommits.RecordKeepsAccepted | crates/app/src/prune.rs:59-63 | commits recorded after planning leave the plan acceptable |
| LaterCommits.RecordedIsAnchored | crates/app/src/prune.rs:59-63 | a commit recorded on a retained or anchored commit is anchored, so pruning keeps its state |
| Counterexamples.BranchingFromADeletionBreaks | crates/app/src/prune.rs:59-63 | a run in which a commit is recorded on a planned deletion, the plan stays accepted, and applying it changes that commit |
| GraphWalk.CommitAncestors | crates/core/src/usecase/graph.rs:66-92 | every ancestor once, nearest first and by identifier within a distance; ends on cyclic graphs as well |
| GraphWalk.LayerIsDistance | crates/core/src/usecase/graph.rs:66-92 | the level a commit is listed in is its shortest distance |
| GraphWalk.CommitHistory | crates/core/src/usecase/graph.rs:100-124 | the records of the whole line by level; a missing record is reported exactly when there is one |
| GraphWalk.HistoryIsSelfThenAncestors | crates/core/src/usecase/graph.rs:100-124 | on acyclic graphs the history is the commit followed by its ancestors' listing |
| CommitHash.Compute | crates/core/src/commit.rs:21-49 | the buffer hashed is the canonical preimage of sorted, duplicate-free lists |
| CommitHash.DecodeInverts | crates/core/src/commit.rs:21-68 | the preimage can be decoded back to its content |
| CommitHash.PreimageIsInjective | crates/core/src/commit.rs:21-68 | two inputs give the same bytes if and only if parents and entries agree as sets and the times match |
| CommitHash.CoordsAreOrderedByField | crates/util/src/chunk_coord.rs:8-19 | entries are sorted by dimension, family, x and z, the first difference deciding |
| CommitPlan.PlanCommit | crates/core/src/usecase/commit.rs:103-154 | base and state of the active ref's target, the matching files; a region is reported removed if and only if the scope matches it, the base has a present chunk in it and it was not discovered |
| Deltas.Assemble | crates/core/src/usecase/commit.rs:183-222 | changed rows in scan order, then one tombstone for each chunk gone from the scope; counts of both and of new files |
| Deltas.AssembledIsDelta | crates/core/src/usecase/commit.rs:183-222 | assembling a scan yields exactly its delta against the base, each coordinate once |
| Deltas.DeltaIsSound | crates/core/src/usecase/commit.rs:171-182 | the delta turns the base state into the scan inside the scope and leaves the rest alone |
| Deltas.DeltaIsLeast | crates/core/src/usecase/commit.rs:180-182 | any delta with that effect carries all of its rows, so no row can be dropped |
| Deltas.NothingChanged | crates/core/src/usecase/commit.rs:180-182 | nothing is staged if and only if the scan is the base's part of the scope |
| CommitPlan.CommitIsSound | crates/core/src/usecase/commit.rs:224-255 | a commit of a scan shows the scan inside the scope, its base outside; older commits show what they did |
| CommitPlan.RecordCommit | crates/core/src/usecase/commit.rs:235-255 | the parent recorded is the planned base, or none; the report carries the assembled counts; the active ref alone moves |
| Ingest.StageFile | crates/app/src/commit.rs:694-750 | the rows staged, or the first chunk that is corrupt or has no digest |
| Ingest.FileIsFound | crates/app/src/commit.rs:694-750 | a file that stages yields exactly its chunks in scope, each once, with payload and digest |
| Ingest.FailsAtFirst | crates/app/src/commit.rs:694-750 | staging a file fails with an error if and only if that is what its first unreadable or undigestible chosen slot says |
| IngestRun.StagesIsExact | crates/app/src/commit.rs:694-750 | a file stages if and only if it opens, every slot can be read and every chunk in scope has a digest |
| IngestRun.PutAllHolds | crates/app/src/commit.rs:641-660 | after the store pass every staged chunk can be restored with its digest, deduplicated ones included |
| IngestRun.PutsInAnyOrder | crates/app/src/commit.rs:492-549 | however the workers' puts interleave, the same hashes are stored, as many blobs are new, and every chunk found can be restored |
| IngestRun.IngestAll | crates/app/src/commit.rs:502-580 | merged over all files in any order: exactly the chunks in scope with their digests, and as many new blobs as the store gained; it fails exactly when some file cannot be staged, with the error of a file before which all staged |
| WorldCommit.CommitWorld | crates/app/src/commit.rs:182-233 | succeeds if and only if every file the scope visits stages and a ref is active; the new commit shows the scan over its base, all states stay restorable, a failure leaves the metadata as it was; the report counts the chunks scanned, the blobs gained and the chunks gone; a new commit has the planned base as its parent, the active ref alone moves, and a failure names a file the scope visits or the missing active ref |
| WorldCommit.MatchingJoins | crates/core/src/usecase/commit.rs:139-144 | the files to ingest are the discovered ones the scope matches, filtered in order |
| WorldCommit.RecommitIsIdle | crates/core/src/usecase/commit.rs:180-182 | committing the unchanged world again in the same scope stages no row |
| CommitPlan.RecordAccepted | crates/storage-sqlite/src/meta.rs:790-849 | a record is accepted if and only if the active ref still names the planned base or is unborn |
| RefRace.CommitsFormOneChain | crates/storage-sqlite/src/meta.rs:790-849 | over every interleaving of commit runs: the recorded commits form one chain, each shows its own scan over its own base, at most one run per planned base is recorded, and no other ref moves |
| RefRace.OvertakenIsRefused | crates/storage-sqlite/src/meta.rs:790-849 | a run still on the current base is recorded and moves the ref; an overtaken one changes nothing |
| CrashOrder.RowsAreAlwaysDurable | crates/app/src/commit.rs:199-221 | over every interleaving of puts, worker barriers, joins, final barriers, records and crashes every blob a row names is durable |
| CrashOrder.JoinIsEnough | crates/storage-sqlite/src/blob.rs:8-12 | when puts are durable on return, as in the shipped store, or a sync covers the whole store, a joined run's blobs are durable before the final barrier |
| CrashOrder.JoinIsExact | crates/core/src/port/blob.rs:26-44 | for any backend the interface admits: a joined run's blobs are durable if and only if those its workers found stored but volatile are; one that is not is owed by another worker or was left by a run that gave up |
| CrashOrder.FromTheStart | crates/app/src/commit.rs:199-221 | both, with the durability of rows, for every run from an empty store |
| CrashOrder.JoinedRunsPutEverything | crates/app/src/commit.rs:502-580 | whatever other runs and crashes do, a run that is joined has put every blob it was given |
| CrashOrder.JoinIsNotEnough | crates/core/src/port/blob.rs:26-44 | a run of two commits where joining is not enough, for a store that batches writes and whose sync covers the caller's own |
| CrashOrder.RunsCanFinish | crates/app/src/commit.rs:199-221 | on every backend a run can put a blob, make it durable and name it |
| CrashOrder.CrashCanLose | crates/core/src/port/blob.rs:20-46 | a crash may take a blob that was put and not synced if and only if puts are not durable by themselves |
| Partition.LargestFirstBound | crates/app/src/commit.rs:586-605 | dealing largest first, no worker exceeds 4/3 - 1/(3m) of what any assignment needs |
| Partition.GreedyBalances | crates/app/src/commit.rs:586-605 | any two workers' loads differ by at most the largest item |
| Workers.GroupsAreBalanced | crates/app/src/commit.rs:586-605 | any two groups differ in size by at most the largest file |
| Workers.BySizeSorts | crates/app/src/commit.rs:590 | the sort permutes, puts the largest first and is stable |
| Workers.PartitionGroups | crates/app/src/commit.rs:586-605 | no file is lost or doubled, none of the groups is empty, each file is dealt to the first lightest worker, and exactly how many groups there are |
| Workers.EveryWorkerIsBusy | crates/app/src/commit.rs:583-585 | every worker gets a group if and only if files of positive size suffice for all of them, or for all but one and an empty file remains |
| Workers.TwoEmptyFiles | crates/app/src/commit.rs:583-585 | two empty files for two workers leave the second without a group |
| Workers.NearTheBest | crates/app/src/commit.rs:586-605 | the heaviest group is within 4/3 - 1/(3m) of any other distribution of the same files |
| RegionLayout.LocatedIsNameable | crates/anvil/src/region.rs:97-110 | a region is accepted if and only if all of its chunks have 32-bit coordinates |
| RegionLayout.SlotsAreCoordinates | crates/anvil/src/region.rs:68-93 | a coordinate has a slot if and only if it divides into the region, and the slot maps back to it |
| RegionLayout.CoordinatesAreSlots | crates/anvil/src/region.rs:88-93 | every slot's coordinate lies in the region without wrapping, and maps back to the slot |
| RegionLayout.SectorsFit | crates/anvil/src/region.rs:128-137 | the count is the least that holds the payload; exactly what 255 sectors cannot hold is refused |
| Scopes.CornersHold | crates/util/src/scope.rs:29-37 | two corners in any order give the same rectangle, which holds exactly the chunks between them |
| Scopes.OverlapIsExact | crates/util/src/scope.rs:60-65 | a rectangle overlaps a region if and only if they share a chunk |
| Scopes.CoverageIsExact | crates/util/src/scope.rs:70-75 | a rectangle covers a region if and only if it contains all its chunks |
| Scopes.RegionRectIsItsRegion | crates/util/src/scope.rs:42-49 | a region's rectangle covers and overlaps it at any coordinates and, where it can be named, holds exactly its chunks |
| Scopes.ContainedIsMatched | crates/util/src/scope.rs:182-206 | the file of a chunk in scope is one the scope visits |
| Scopes.CoveredIsContained | crates/util/src/scope.rs:216-227 | a scope covering a file contains every chunk it can hold |
| Scopes.MatchIsExact | crates/util/src/scope.rs:182-206 | where every chunk can be named and areas are whole dimensions or rectangles, a scope visits a file if and only if it selects a chunk the file can hold |
| Scopes.UnlistedIsOut | crates/util/src/scope.rs:155-206 | families and dimensions that are not listed are out, for chunks and for files |
| Scopes.AreasAddUp | crates/util/src/scope.rs:182-227 | what two lists of areas select together is what either selects; a file is covered only by a single area |
| Scopes.FamiliesSelect | crates/util/src/scope.rs:182-227 | the whole world selects everything, a list of families exactly those families |
| Scopes.DimensionSelects | crates/util/src/scope.rs:173-178 | a whole dimension selects exactly its chunks and files in the families listed |
| Scopes.RectangleSelects | crates/util/src/scope.rs:116-122 | a rectangle between two corners selects exactly the chunks of its dimension between them |
| Scopes.RectangleCovers | crates/util/src/scope.rs:134-142 | a rectangle covers a file if and only if it selects every chunk the file can hold |
| Scopes.ListSelects | crates/util/src/scope.rs:116-142 | a chunk list selects exactly its chunks, visits the files at the places it names and covers none |
| RegionWriter.RegionBuilder.Create | crates/anvil/src/writer.rs:26-32 | an empty builder, refused only for coordinates that overflow |
| RegionWriter.RegionBuilder.StageChunk | crates/anvil/src/writer.rs:43-69 | sets one slot; the three refusals in order, each leaving the builder as it was |
| RegionWriter.RegionBuilder.RemoveChunk | crates/anvil/src/writer.rs:72-80 | clears one slot; a foreign coordinate is refused |
| RegionWriter.RegionBuilder.Image | crates/anvil/src/writer.rs:83-146 | never fails; both tables and every run stand as laid out |
| RegionWriter.ImageFits | crates/anvil/src/writer.rs:92-104 | at most 1024 chunks end by sector 261122, below the 24-bit limit |
| RegionWriter.RunsInOrder | crates/anvil/src/writer.rs:92-143 | runs follow one another without gap or overlap |
| RegionWriter.LayoutIsUnique | crates/anvil/src/writer.rs:83-146 | chunks and timestamp determine every byte of the image |
| RegionWriter.LaidIsStamped | crates/anvil/src/writer.rs:112-120 | every slot in use carries the time of the image, a free one none |
| RegionWriter.LastCallWins | crates/anvil/src/writer.rs:43-80 | after any calls a slot holds the payload of the last call that touched it |
| RegionWriter.Replay | crates/anvil/src/writer.rs:43-80 | a builder that took any calls, refused ones included, holds exactly what they leave |
| RegionReader.BuildAndRead | crates/anvil/src/writer.rs:43-146 | the image built after any calls reads back as exactly what they leave: the walk in slot order at global coordinates, the lookup at every coordinate inside and outside the region |
| RegionReader.RegionImageIter.Next | crates/anvil/src/reader.rs:292-332 | yields the next item of the walk; fused after the end or an error |
| RegionReader.WalkIsRoundTrip | crates/anvil/src/reader.rs:149-183 | walking a built image yields exactly the staged payloads, in slot order, at their coordinates |
| RegionReader.LookupIsRoundTrip | crates/anvil/src/reader.rs:189-216 | looking up any coordinate of a built image gives what its slot holds, and nothing outside the region |
| RegionReader.LookupIsWalk | crates/anvil/src/reader.rs:149-216 | on any bytes the lookup and the walk agree, errors included |
| RegionReader.OpensOnLengthAlone | crates/anvil/src/reader.rs:79-93 | a file opens if and only if its region can be named and it is empty or long enough for both tables, and with which error not |
| RegionReader.SlotIsReadExactly | crates/anvil/src/reader.rs:149-183 | on any bytes a slot reads as nothing, as the run its entry points to, or as one of two errors, each exactly when |
| RegionReader.ReadIsStageable | crates/anvil/src/reader.rs:243-274 | whatever the bytes, a chunk that is read is accepted again in its slot |
| Lz4.Unlz4 | crates/anvil/src/codec.rs:218-324 | on any bytes the output is the concatenation of a prefix of valid blocks within the cap; success means the end block followed |
| Lz4.FrameIsLaidOut | crates/anvil/src/codec.rs:218-324 | magic, method and level, both lengths, the low 28 bits of the checksum, then the stored bytes, each at its place |
| Lz4.StreamIsDecoded | crates/anvil/src/codec.rs:218-324 | valid blocks within the limits, framed and closed, decode to their concatenation |
| Lz4.SucceedsOnStreams | crates/anvil/src/codec.rs:218-324 | the decoder succeeds on exactly those bodies |
| Lz4.TooLargeIsOverCap | crates/anvil/src/codec.rs:218-324 | output is refused as too large if and only if a sound header announces more than the cap still allows |
| RebuildFile.RestoreRows | crates/app/src/checkout.rs:401-414 | stages exactly the rows whose blob is there; fails only on a blob that is missing without leave or does not fit; the error is the one of such a row |
| RebuildFile.MergeLive | crates/app/src/checkout.rs:420-458 | adds exactly the live chunks the commit does not restore and the policy keeps; fails exactly on a corrupt live file |
| RebuildFile.BuildFile | crates/app/src/checkout.rs:263-305 | the new file is readable and holds, at every coordinate, exactly what the policies say; every chunk carries the given time, and a refusal is that of a row or of the live file a policy keeps from |
| CheckoutRun.PlanCheckout | crates/core/src/usecase/checkout.rs:59-92 | present rows and tombstones grouped by region, each once; only an unknown commit is refused; the plan carries the commit's time |
| CheckoutRun.NewestRowDecides | crates/core/src/usecase/checkout.rs:59-92 | a chunk counts as present or as tombstoned at a commit if and only if the most recent row on its line says so |
| CheckoutRun.CheckoutFile | crates/app/src/checkout.rs:240-311 | one file rebuilt, deleted or left alone as its rows, tombstones and policies say; other files untouched; the report says which and how many chunks were restored; it is refused for a missing file exactly where the policy says so and the commit has chunks there |
| CheckoutRun.Checkout | crates/app/src/checkout.rs:110-175 | every region in scope ends as specified, no other file changes even on failure, a strict checkout with all blobs present succeeds; the report counts the regions with chunks, the files gone and the chunks restored; rebuilt files carry the commit's time in seconds, files of other dimensions and families are never touched, and a failed run names a region in scope and what is wrong with it |
| RoundTrip.StrictCheckoutShows | crates/app/src/checkout.rs:198-321 | after a strict whole-world checkout a chunk is there if and only if the commit has it, with the stored bytes |
| RoundTrip.CheckoutThenCommitIsIdle | crates/app/src/checkout.rs:198-321 | scanning the checked-out world succeeds, gives the commit's state, and committing it again stages no row and reports no region gone |
| RoundTrip.CommittedWorldComesBack | crates/app/src/checkout.rs:198-321 | a committed world checked out over any other world scans the same as the first |
| RoundTrip.CommitAndComeBack | crates/app/src/checkout.rs:198-321 | commit any world, check it out strictly over any other, scan and assemble again: succeeds if and only if every file stages and a ref is active; then nothing is left to record, and for a new commit the second scan equals the first |
| RoundTrip.RetiringKeepsBacked | crates/core/src/support.rs:412-438 | retiring a commit keeps every row's blob restorable |
| RoundTrip.CollectingKeepsBacked | crates/core/src/usecase/gc.rs:81-111 | collecting any plan keeps every row's blob restorable, so checkouts still succeed |
| Cas.MemCas.Put | crates/core/src/support.rs:615-625 | stores once; a second put is reported as such and rewrites nothing |
| Gc.EffectiveIsReferenced | crates/core/src/usecase/gc.rs:43-65 | the blobs of all effective states are exactly the blobs the rows name |
| Gc.PlanGc | crates/core/src/usecase/gc.rs:43-79 | the orphans are exactly the stored blobs no row names, each once |
| Gc.ApplyGc | crates/core/src/usecase/gc.rs:84-111 | removes exactly the planned blobs that are stored and unreferenced now; the report counts the planned hashes that still are orphans, and the blobs removed, equal when the plan has no repeats |
| Gc.CollectingIsSafe | crates/core/src/usecase/gc.rs:81-111 | applying any plan, however old, keeps every commit's state fetchable with the same bytes |
| Gc.CollectingIsExact | crates/core/src/usecase/gc.rs:81-111 | applying a plan made on the same store leaves exactly the referenced blobs |

## Left out

- Metadata plumbing: connections, schema checks, journal settings, busy retries. The statements count as their effect on the row sets; only the one place where SQLite and the in-memory store differ is modelled separately.
- `record_chunk`: the stores offer it for their own fixtures, and it can break the one row per commit and coordinate that everything else relies on.
- Named scopes in the store, ref and scope name grammar, hexadecimal helpers, file-name parsing, command line, progress callbacks, timings and clocks.
- Visitors that stop early, and the order in which a visitor reports chunks or blobs; only what is reported is modelled. Tombstones are appended in some order of coordinates.
- Filesystem behaviour: directory layout, atomic replacement, locks and where a missing region file is created. A world is a map from region identity to bytes; of the missing-file policies only "fail" is told apart.
- Blake3, Deflate, CRC-32, xxHash and the LZ4 block decoder are functions about which nothing is assumed; gzip and zlib framing are not modelled.
- NBT parsing and normalization: the derive macros they rest on are not part of this model.
- Checkout across files is not atomic in the code: when a later file fails, earlier ones stay written. The model says so by promising nothing about the files in scope of a failed run.
- Garbage collection concurrent with a commit: the code gives no exclusion to rely on.
- 64-bit overflow of byte counts and worker loads: sizes are unbounded numbers.
- Dry-run status previews: the same scan and delta as a commit, with nothing stored.
