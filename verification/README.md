# codegraph-mcp, the code dependency graph: a verification project

codegraph-mcp keeps a dependency graph of a Rust and SQL code base in step with its source tree and answers questions
about it. This project models its stateful core in Dafny and proves what that core is for.

| file | what it models |
|---|---|
| `Options.dfy`, `Walks.dfy`, `Ordering.dfy` | values that may be missing; walks and reachability; Python's order on strings and `sorted` |
| `TarjanInvariant.dfy`, `SearchAgreement.dfy`, `StronglyConnected.dfy` | `_sccs`: the invariant of the search, its agreement with the program's variables, the program |
| `LayeredSearch.dfy`, `PathOrder.dfy`, `PathSearch.dfy` | depth-limited breadth-first search, and which of the shortest walks it finds; `_find_path_bfs` and the frontier loop of the warning search |
| `GraphState.dfy`, `GraphIndex.dfy` | the in-memory index as a value and as an object with six dictionaries |
| `Traversal.dfy`, `IndexTraversal.dfy`, `TraversalMisses.dfy`, `MutualNeighbours.dfy` | the direction-locked traversal of both backends; the same on the in-memory index; what it misses when its cones overlap, exactly for the neighbours of the root |
| `Neo4jStore.dfy`, `GraphStatements.dfy` | the Neo4j graph: each Cypher statement as a set operation, the index object of one generation, an upsert as its statements |
| `Snapshots.dfy`, `Eligibility.dfy`, `MetadataStore.dfy` | the snapshot; the two eligibility tests and what they mean for ids and contents; the repository |
| `IndexingService.dfy`, `UpdateMeaning.dfy`, `ViewMaintenance.dfy` | the loops of the full rebuild and the incremental update; what they leave in the graph and the store, symbol by symbol and edge by edge; when the update equals a rebuild |
| `RebuildProtocol.dfy`, `ProtocolSteps.dfy`, `RebuildReads.dfy` | rebuild, swap, cleanup, incremental update and restart as a transition system; its steps as statements of the store; exactly which steps spoil reads |
| `GraphProxy.dfy`, `BuildRegistry.dfy`, `BuildRollback.dfy`, `RollbackRuns.dfy` | the proxy, the build registry, the rollback of the last build; runs over restarts |
| `TokenBucket.dfy`, `TokenRegistry.dfy`, `RateWindow.dfy` | token buckets, their registry with the idle sweep, the sliding window |
| `RenameMatching.dfy` | the pairing of deleted and added declarations |
| `CommentScanner.dfy`, `RustComments.dfy` | block comment spans and brace matching; Rust's own division of a source |

Where the program changes things step by step, so does the model: dictionaries are fields of type `map`, the modelled
loops are loops, and each method is proved against the property itself or against a function of the old state that the
theorems are about.

## Reading the results

**Conditions.** The theorems hold for all inputs except where the code itself needs a hypothesis.

- *Traversal.* A symbol that is taken from the queue a second time is expanded with the neighbourhood emitted last,
  because it is in `emitted` by then. The cone property is therefore proved when no unblocked symbol but the root lies
  in both cones at a distance below `depth`. This is not an equivalence: the neighbourhood emitted last may happen to
  list what the symbol's own would. `TraversalIsSound` is what holds always, `SoleNeighbourIff` says exactly when a
  symbol with one way to it is found, and `ClashIsMissed` is an index on which the property fails. For the neighbours
  of the root, the usual overlap being a symbol that calls the root and is called by it, `MutualNeighbourIff` and
  `FirstTurnIff` decide it from the root's own neighbourhood.
- *Incremental update.* `IncrementalIsRebuildIff` is exact. `OrdinaryIsClean` is the usual case that meets it: no
  removed id is still defined by an untouched file unless it is extracted again; every re-extracted graph symbol that is
  not removed keeps a chunk the graph takes; no symbol is lost to an earlier chunk with the same id, path and line;
  extractor edges start at symbols extracted from the files; and no two recomputed edges join the same symbols. The
  theorem is about the replace-on-upsert graph; the in-memory index forgets only by removal (`EdgesOverRuns`).
- *Protocol.* `RunsAreSafe` assumes that a rebuild begins with no cleanup thread pending and with something in the live
  graph, and that a restart comes with something in the live graph and nothing in a later generation. `ReadsAreRightIff`
  assumes none of this and says exactly which cleanups, build steps, swaps and restarts spoil reads, for every run;
  `LateCleanupIsHarmlessIff` and `BeginStaysApartIff` do so for the generation being built and for the choice of its
  number. Each locked section and each Cypher statement is one atomic step, so a cleanup can come between two statements
  of one upsert; only the begin of a rebuild, which reads the highest generation and empties the next, and the query of
  a cleanup are one step each.
- *Registry.* A parent passed to `register_build` is a build registered before, as the callers do it. In the runs with
  rollbacks a process comes up on any registry in which the active build and all parents have been completed, as the
  service leaves it; registration, swap and completion of a build are steps of their own, with anything in between.
  Only the calls that `rollback_last_build` makes are one step.
- *Limits.* Floats are reals, clocks do not go back, a key is used with one capacity and refill or one limit.

**What the code does not meet.**

- A cleanup thread that outlives the mutex can delete the live generation, or part of the one being built
  (`CleanupAfterSwapHappens`, `CleanupDuringBuildHappens`). An empty first build lets the next rebuild work on the live
  generation (`LiveRebuildHappens`).
- A restart during a build binds the proxy to the generation being built, since start-up takes the highest generation
  (`RestartServesHalfBuilt`, `RestartMidBuildHappens`).
- A symbol that both calls and uses another loses one of the two edges in the store but not in the graph
  (`TwoRelationsLoseOne`); an id shared by two files leaves the graph when one of them goes (`SharedIdIsLost`).
- `rollback_last_build` pops the history of the proxy, which lives in memory and is pushed by full builds only, while
  the registry is in the database. It brings back what was served when this process swapped in what is served now, and
  changes nothing if this process did not swap it in; `RollbackRestoresIff` says for every state when that is what the
  restored build made, `ServedIsWhatActiveMadeIff` and `AlwaysInSyncIff` do so for every run. It is not after an
  incremental or semantic build on top of two full ones (`IncrementalBuildMisleadsRollback`), after a restart
  (`RestartMisleadsRollback`), after another rollback during the rebuild, which takes no mutex
  (`RollbackDuringBuildMisleads`), or when a wrong rollback was followed by another build
  (`EmptyHistoryMisleadsRollback`). A rollback between the swap of a full build and its completion leaves the build
  active and its parent's backend served (`RollbackBeforeCompletionMisleads`). One that reports "No parent build
  available" has already marked the active build rolled back (`FailedRollbackLeavesNoActive`, `FailedRollbackHappens`).
- `rollback_build` of a superseded build can leave two builds active (`RollbackStaysSingleIff`, `ThreeBuildsHappen`,
  `TwoActiveBuilds`). Its only caller asks for the active build just before, so a completion must fall between the two
  calls.
- The fingerprint and the graph use different eligibility tests, although the docstring of `is_graph_eligible` says they
  share one. They differ on functions named `new` without content (`UniversesAgreeIff`). The extractors cut a function
  out with its own header (`backend/app/rag/ingestion/tree_sitter.py`), so they never make such a chunk, and then the
  two sides agree over every clean run (`RunsAgreeOnFingerprint`). The fingerprint is computed before duplicates are
  dropped (`FingerprintAgreesIff`, `DuplicateLosesId`).
- The `called_by` and `used_by` arguments of the in-memory upsert are not mirrored (`UpsertConsistent`,
  `CalledByBreaksMirror`).
- The idle sweep can be noticed for buckets that ten minutes do not refill (`SweepIsTransparentIff`).
- A name paired as a rename in one file is taken out of the deleted names altogether, also when another file deletes it
  without a partner (`DeletedIsKeptIff`, `KeptByCandidates`, `DeletionIsLost`).
- The comment scanner takes every quote character outside a comment for the start of a string and does not know line
  comments. `ScannerAgreesIff` says for every source when its spans are the block comments of Rust's division (the Rust
  Reference, sections "Comments" and "Tokens"; `RustKinds`, `RawStarts`, `RawEnds`, `RustEnds` and `WordCharacters`
  say what that division is); `LifetimeHidesComment` is a source on which they are not.

## Model

| member | source | states |
|---|---|---|
| StronglyConnected.Sccs | backend/app/mcp/tools/graph_read_tools.py:1480-1530 | the result lists exactly the strongly connected components of the edge list with at least max(min_size, 2) symbols: each is mutually reachable and maximal, each appears, sorted and without repetition, no two overlap, and each is listed behind those it leads to; the explicit-stack loops terminate |
| StronglyConnected.Adjacency | backend/app/mcp/tools/graph_read_tools.py:1482-1484 | each list holds exactly the targets of its symbol, and the keys are exactly the symbols with outgoing edges |
| StronglyConnected.InnerComponent | backend/app/mcp/tools/graph_read_tools.py:1505-1507 | passing over symbols without outgoing edges neither loses nor gains a component of two or more symbols |
| StronglyConnected.Step | backend/app/mcp/tools/graph_read_tools.py:1497-1529 | one pass through the work loop keeps the search invariant, numbers the symbol on top of the work list and strictly descends in (unseen successors, work) |
| StronglyConnected.Scan | backend/app/mcp/tools/graph_read_tools.py:1504-1515 | scanning the successors keeps the search invariant and the stack; it stops at one without a number, which becomes the top of the work list with fewer successors left to look at, or with the iterator exhausted |
| StronglyConnected.Leave | backend/app/mcp/tools/graph_read_tools.py:1516-1529 | leaving an exhausted symbol shortens the work list by one and keeps the search invariant; what it takes off the stack, if anything, is one component |
| StronglyConnected.PopComponent | backend/app/mcp/tools/graph_read_tools.py:1521-1527 | the pop loop removes the stack from the root on, all of it and nothing else |
| StronglyConnected.PartsAreAll | backend/app/mcp/tools/graph_read_tools.py:1493-1530 | once every source is visited and the work list is empty, every component of two or more symbols has been popped |
| StronglyConnected.ComponentsCoincide | backend/app/mcp/tools/graph_read_tools.py:1480-1530 | two components that share a symbol are the same |
| Ordering.LeqMeaning | backend/app/mcp/tools/graph_read_tools.py:1529 | the order of sorted: a string is no greater than another exactly when it is a prefix of it or has the smaller character where they first differ |
| TarjanInvariant.StretchIsComponent | backend/app/mcp/tools/graph_read_tools.py:1520-1527 | when the low link of an exhausted top symbol is its own number, the stack from it on is a strongly connected component: mutually reachable and maximal |
| TarjanInvariant.StretchIsClosed | backend/app/mcp/tools/graph_read_tools.py:1504-1520 | at that point no edge leaves the finished symbols, nor those together with the stretch |
| TarjanInvariant.StretchIsSuffix | backend/app/mcp/tools/graph_read_tools.py:1521-1527 | the symbols a root answers for are exactly the stacked ones numbered from it on |
| TarjanInvariant.StackReachesTop | backend/app/mcp/tools/graph_read_tools.py:1512-1519 | every stacked symbol reaches the symbol on top of the work list |
| TarjanInvariant.VisitKeeps | backend/app/mcp/tools/graph_read_tools.py:1499-1503 | numbering and stacking a symbol reachable from all open ones keeps the invariant |
| TarjanInvariant.SeeKeeps | backend/app/mcp/tools/graph_read_tools.py:1512-1513 | looking at an edge to a numbered symbol keeps the invariant |
| TarjanInvariant.RetireKeeps | backend/app/mcp/tools/graph_read_tools.py:1516-1519 | an exhausted symbol that is not a root may pass its stretch and low link to its parent |
| TarjanInvariant.CloseKeeps | backend/app/mcp/tools/graph_read_tools.py:1520-1527 | popping a root with its stretch keeps the invariant |
| PathSearch.FindPathBfs | backend/app/mcp/tools/graph_read_tools.py:1102-1119 | a walk over the union of the four neighbour relations from one symbol to the other, of between 1 and max_depth edges and of minimum length, and of all such walks the first in the order in which each symbol lists its neighbours; None exactly when every such walk with an edge is longer than max_depth; no condition on the inputs, equal endpoints included |
| PathSearch.LookAround | backend/app/mcp/tools/graph_read_tools.py:1112-1118 | the neighbour loop stops exactly when the target is listed; otherwise it queues each neighbour not visited before |
| LayeredSearch.NewDistance | backend/app/mcp/tools/graph_read_tools.py:1106-1118 | a neighbour not visited before lies exactly one step further from the start than the symbol just taken from the queue |
| LayeredSearch.FirstHitIsShortest | backend/app/mcp/tools/graph_read_tools.py:1112-1114 | no walk to the target is shorter than the one closed by the first hit |
| LayeredSearch.MissMeansFar | backend/app/mcp/tools/graph_read_tools.py:1108-1119 | with the queue empty and no hit, every walk to the target is longer than the limit |
| LayeredSearch.VisitedIsWithin | backend/app/mcp/tools/graph_read_tools.py:1102-1119 | the symbols visited by a depth-limited queue search are exactly those within the limit |
| LayeredSearch.ExpandKeeps | backend/app/mcp/tools/graph_read_tools.py:1111-1118 | expanding the head of the queue keeps it layered by distance |
| LayeredSearch.DropKeeps | backend/app/mcp/tools/graph_read_tools.py:1108-1109 | passing over a head at the limit keeps it layered by distance |
| PathOrder.ExpandRanked | backend/app/mcp/tools/graph_read_tools.py:1111-1118 | the paths in the queue stay the first walks of their length to their ends, one length in listing order before the next |
| PathOrder.HitIsFirst | backend/app/mcp/tools/graph_read_tools.py:1112-1114 | the first hit closes the first of all shortest walks in listing order |
| PathSearch.SymbolsScanned | backend/app/mcp/tools/graph_read_tools.py:2462-2486 | None exactly for an unknown symbol; otherwise exactly the symbols within max(1, min(radius, 3)) steps over the four relations, entries with an empty id passed over, however early the frontier runs empty |
| PathSearch.Hop | backend/app/mcp/tools/graph_read_tools.py:2470-2484 | one round adds exactly the unseen named neighbours of the frontier, which become the next frontier |
| PathSearch.BallIsFull | backend/app/mcp/tools/graph_read_tools.py:2485-2486 | stopping on an empty frontier loses nothing within any larger radius |
| Traversal.TraverseAll | backend/app/rag/retrieval/graph.py:215-244 | the in-memory loop ends and lists what the turns of the queue list |
| Traversal.TraverseCapped | backend/app/rag/retrieval/neo4j_graph.py:274-305 | the Neo4j loop ends and lists what the turns list up to the first moment the cap is reached |
| Traversal.TakeTurn | backend/app/rag/retrieval/graph.py:227-242 | one pass through the loop body: the emitted set and the variable holding the last neighbourhood behave as one turn, so a symbol met a second time is expanded with the neighbourhood emitted last |
| Traversal.TraversalIsCones | backend/app/rag/retrieval/graph.py:215-244 | when no unblocked symbol but the root lies in both cones at a distance below depth, the traversal lists each symbol once with its own neighbourhood, and exactly those unblocked ones reachable within depth by reverse edges only or by forward edges only through unblocked symbols |
| Traversal.TraversalIsSound | backend/app/rag/retrieval/graph.py:215-244 | whatever the graph: no symbol listed twice, none blocked but the root, each with its own neighbourhood, none more than depth steps of either direction away |
| Traversal.CappedIsPrefix | backend/app/rag/retrieval/neo4j_graph.py:286-305 | the capped listing is the prefix of the uncapped one of length min(cap, all), for every cap |
| Traversal.TraversalIsUnique | backend/app/rag/retrieval/graph.py:227-244 | the uncapped listing is determined by the inputs |
| IndexTraversal.ListsOfIndex | backend/app/rag/retrieval/graph.py:236-238 | the neighbourhood of a symbol and the two lists the walk goes on with: upstream then used_by going up, downstream then uses going down, each sorted |
| IndexTraversal.UpIsDownReversed | backend/app/rag/retrieval/graph.py:61-76 | over a consistent index a step up is exactly a call or a use read backwards |
| IndexTraversal.AdjacentIsCallOrUse | backend/app/rag/retrieval/graph.py:61-76 | the relation that the path and warning searches walk is calls and uses, both ways |
| IndexTraversal.IndexTraversalIsCones | backend/app/rag/retrieval/graph.py:215-244 | the cone theorem for the index, with the cones defined from its four maps: callers and users only, or callees and used symbols only |
| IndexTraversal.IndexTraversalIsSound | backend/app/rag/retrieval/graph.py:215-244 | the soundness theorem for the index: each symbol listed once with its own neighbours, none blocked but the root, none more than depth calls or uses away |
| IndexTraversal.NewsInOrder | backend/app/rag/retrieval/graph.py:239-242 | a turn queues the neighbours not visited in its direction in the order in which they are listed first |
| TraversalMisses.SoleNeighbourIff | backend/app/rag/retrieval/graph.py:227-242 | whatever the graph: a symbol with a single way to it, from x in one direction, is listed exactly when some symbol is expanded in that direction while x is the one listed last |
| MutualNeighbours.MutualNeighbourIff | backend/app/rag/retrieval/graph.py:215-242 | whatever the graph: what is met only as a callee of a caller x of the root is listed exactly when the depth is at least 2, x is the last unblocked caller and the first unblocked callee of the root is one of its callers |
| MutualNeighbours.FirstTurnIff | backend/app/rag/retrieval/graph.py:215-242 | whatever the graph: what is met only as a caller of a caller of the root, or only as a callee of a callee that is no caller, is listed exactly when the depth is at least 2 |
| MutualNeighbours.EveryLayerTurn | backend/app/rag/retrieval/graph.py:227-242 | the turns of the first layer: callers then callees, each listed once, and as long as no callee had one the symbol listed last is a caller |
| MutualNeighbours.ClashIsDecided | backend/app/rag/retrieval/graph.py:215-242 | the condition decides the index of ClashIsMissed: z is the last caller, so what only a calls is not listed by any traversal |
| MutualNeighbours.BeyondIsInCone | backend/app/rag/retrieval/graph.py:215-242 | what a callee of the root calls lies in the cone below it, so MutualNeighbourIff says when that cone is not covered |
| TraversalMisses.ClashIsMissed | backend/app/rag/retrieval/graph.py:236-238 | after three upserts that make a symbol lie in both cones, a symbol at forward distance 2 of the root is not listed: the cone property fails |
| TraversalMisses.ClashHoods | backend/app/rag/retrieval/graph.py:61-104 | the sorted neighbour lists of the index those three upserts make |
| GraphIndex.InMemoryGraphIndex.Traverse | backend/app/rag/retrieval/graph.py:215-244 | ValueError exactly for a depth below 1, else the traversal of the current index |
| GraphIndex.InMemoryGraphIndex.UpsertSymbol | backend/app/rag/retrieval/graph.py:61-80 | the six dictionaries after an upsert, loop by loop |
| GraphIndex.InMemoryGraphIndex.RemoveSymbols | backend/app/rag/retrieval/graph.py:30-54 | the six dictionaries after a removal: rows popped and entries taken out everywhere; nothing for an empty list |
| GraphIndex.InMemoryGraphIndex.Reset | backend/app/rag/retrieval/graph.py:19-25 | all six dictionaries empty |
| GraphIndex.InMemoryGraphIndex.GetSymbolDegrees | backend/app/rag/retrieval/graph.py:134-145 | every node with the sum of the sizes of its four rows |
| GraphIndex.InMemoryGraphIndex.GetStats | backend/app/rag/retrieval/graph.py:171-183 | the number of nodes, of stored forward pairs, of symbols with metadata, and of nodes without (when metadata belongs to nodes) |
| GraphState.EveryRunIsConsistent | backend/app/rag/retrieval/graph.py:30-80 | over any run of upserts (calls and uses arguments) and removals, forward and reverse maps are exact inverses, metadata belongs to nodes, and the degrees sum to twice graph_edges |
| GraphState.UpsertConsistent | backend/app/rag/retrieval/graph.py:61-80 | an upsert keeps the maps inverse exactly when its called_by and used_by arguments name only symbols that already point at the upserted one |
| GraphState.CalledByBreaksMirror | backend/app/rag/retrieval/graph.py:61-76 | an upsert of an empty index that only says who calls the symbol breaks the mirror |
| GraphState.EdgesOverRuns | backend/app/rag/retrieval/graph.py:30-80 | the in-memory index forgets only by removal: over any run an edge is there exactly when some upsert put it and neither end was removed since, whatever later upserts of its source said |
| GraphState.MirrorUpserted | backend/app/rag/retrieval/graph.py:61-76 | the same for one pair of maps |
| GraphState.RemoveConsistent | backend/app/rag/retrieval/graph.py:30-54 | a removal keeps the maps inverse and takes away exactly the edges that touch a removed symbol |
| GraphState.RemoveForgets | backend/app/rag/retrieval/graph.py:30-54 | a removed symbol is no node, no endpoint, and has neither metadata nor provenance |
| GraphState.RemovedStaysGone | backend/app/rag/retrieval/graph.py:30-80 | it stays nowhere through any later run that does not mention it |
| GraphState.MetadataOverRuns | backend/app/rag/retrieval/graph.py:77-80 | over any run a symbol has the metadata of the last upsert that gave some, unless it was removed since, and none without such an upsert |
| GraphState.ProvenanceOverRuns | backend/app/rag/retrieval/graph.py:77-80 | the same for the provenance of its edges |
| GraphState.NodesRemoved | backend/app/rag/retrieval/graph.py:30-54 | a removal takes exactly the removed symbols from the nodes |
| GraphState.UsedIff | backend/app/rag/retrieval/graph.py:68-75 | which symbols an upsert uses: those of the list with modes, or of the plain list when that one is empty |
| GraphState.EndpointsAreNodes | backend/app/rag/retrieval/graph.py:61-76 | both ends of every edge are nodes |
| GraphState.DegreesAddUp | backend/app/rag/retrieval/graph.py:134-183 | the degrees of a consistent index sum to exactly twice its edge count |
| GraphState.TotalIsPairs | backend/app/rag/retrieval/graph.py:171-176 | the sum of the row sizes is the number of stored pairs |
| GraphState.MirrorCount | backend/app/rag/retrieval/graph.py:61-76 | inverse maps hold equally many pairs |
| Neo4jStore.Neo4jGraphIndex.UpsertSymbol | backend/app/rag/retrieval/neo4j_graph.py:84-196 | the statements in order replace the symbol's outgoing CALLS and USES edges by the given ones, merge the targets as bare nodes, set kind when there is metadata, and leave every other generation alone |
| GraphStatements.DoPuts | backend/app/rag/retrieval/neo4j_graph.py:84-196 | each Cypher statement of an upsert does one stated thing to its generation and nothing to any other |
| GraphStatements.UpsertIsItsStatements | backend/app/rag/retrieval/neo4j_graph.py:84-196 | its statements, one after the other, replace the outgoing edges of the symbol as the whole upsert does |
| Neo4jStore.Neo4jGraphIndex.RemoveSymbols | backend/app/rag/retrieval/neo4j_graph.py:63-72 | deletes the named nodes of this generation with every edge touching them, and nothing else |
| Neo4jStore.Neo4jGraphIndex.Reset | backend/app/rag/retrieval/neo4j_graph.py:42-49 | empties this generation and no other |
| Neo4jStore.Neo4jGraphIndex.CleanupOtherGens | backend/app/rag/retrieval/neo4j_graph.py:51-61 | keeps this generation and empties every other |
| Neo4jStore.Neo4jGraphIndex.GetSymbolIds | backend/app/rag/retrieval/neo4j_graph.py:74-82 | the ids of this generation whose kind is not null |
| Neo4jStore.Neo4jGraphIndex.AddTargets | backend/app/rag/retrieval/neo4j_graph.py:126-145 | the target loop: one merged node and one merged relationship per target |
| Neo4jStore.CurrentGen | backend/app/rag/retrieval/graph.py:412-414 | the highest generation that has a node, 0 for an empty database |
| Neo4jStore.DetachDeleteIds | backend/app/rag/retrieval/neo4j_graph.py:68-72 | DETACH DELETE by id seen from a generation: ids, extracted symbols and edges, with the other generations untouched |
| Snapshots.TestsDiffer | backend/app/rag/indexing_service.py:382-388 | the snapshot's and the graph's eligibility tests differ on exactly one kind of chunk: a blank function named new |
| Snapshots.UniversesAgreeIff | backend/app/schemas/codebase.py:16-45 | the eligible ids of a snapshot equal the name-filtered ids of its graph exactly when every blank constructor's id also belongs to a chunk the graph takes |
| Eligibility.ShortNameIsLastPart | backend/app/schemas/codebase.py:22 | the short name of an id is the last of the parts left when it is cut at its leftmost separator again and again |
| Eligibility.ShortNameAfterPath | backend/app/rag/indexing_service.py:337-338 | behind any path that does not end in a colon it is what follows the separator |
| Eligibility.StripMeaning | backend/app/schemas/codebase.py:26 | stripping takes the whitespace off both ends and nothing else |
| Eligibility.SpacesAre | backend/app/schemas/codebase.py:26 | which characters count as whitespace |
| Eligibility.TakenIff | backend/app/rag/indexing_service.py:375-396 | the graph takes a chunk exactly when it is neither synthetic nor a module, has none of the five names, and is no constructor of less than fifty characters |
| Eligibility.CountedIff | backend/app/schemas/codebase.py:16-29 | the fingerprint counts a chunk under the same conditions, but for constructors without content |
| Eligibility.ShortConstructorIsSkipped | backend/app/rag/indexing_service.py:382-388 | a function new behind any path that does not end in a colon stays out of the graph exactly when its content has less than fifty characters |
| Eligibility.FilteredIff | backend/app/schemas/codebase.py:21-24 | a plain id is counted exactly when its last part is none of the five names |
| Snapshots.DedupedKeepsFirst | backend/app/core/repositories/in_memory_index_metadata_repository.py:43-49 | a modified chunk is stored exactly when it is the first with its id, path and line |
| Snapshots.DedupedEdgesKeepAll | backend/app/core/repositories/in_memory_index_metadata_repository.py:57-63 | with one relation to a pair, deduplication by (source, target) loses no edge |
| Snapshots.SecondRelationIsLost | backend/app/core/repositories/in_memory_index_metadata_repository.py:57-63 | with two relations between the same symbols it loses the later one |
| MetadataStore.InMemoryIndexMetadataRepository.UpdateIncremental | backend/app/core/repositories/in_memory_index_metadata_repository.py:24-79 | the stored snapshot after an incremental write; nothing when there is none; commit and fingerprint kept when the new ones are empty |
| MetadataStore.InMemoryIndexMetadataRepository.UniqueChunks | backend/app/core/repositories/in_memory_index_metadata_repository.py:43-49 | the dedup loop over chunks keeps the first of each key |
| MetadataStore.InMemoryIndexMetadataRepository.UniqueEdges | backend/app/core/repositories/in_memory_index_metadata_repository.py:57-63 | the dedup loop over edges keeps the first of each pair |
| UpdateMeaning.DedupedMore | backend/app/core/repositories/in_memory_index_metadata_repository.py:43-49 | a chunk at the end is stored exactly when no earlier one has its id, path and line |
| UpdateMeaning.DedupedEdgesKeepFirst | backend/app/core/repositories/in_memory_index_metadata_repository.py:57-63 | an edge is stored exactly when it is the first that joins its two symbols |
| IndexingService.ScanFiles | backend/app/rag/indexing_service.py:1094-1117 | the loop over the modified files leaves the chunks of all other files, gathers the fresh chunks and extractor edges, and removes exactly the (id, path) rows the files no longer define; repeated and deleted files included |
| UpdateMeaning.AddedOne | backend/app/rag/indexing_service.py:1094-1117 | a file that exists adds what its extractors find in its text, one that does not adds nothing |
| UpdateMeaning.AddedConcat | backend/app/rag/indexing_service.py:1094-1117 | files add their chunks and extractor edges in their order |
| IndexingService.ExtractEdges | backend/app/rag/indexing_service.py:1131-1145 | the recomputed call and use edges of the fresh chunks, skip kinds passed over |
| UpdateMeaning.NewEdgesIff | backend/app/rag/indexing_service.py:1131-1150 | the recomputed edges are exactly the calls and uses read off the chunks of the files that the graph takes and that are no tables, columns or migrations, and the extractor edges to an id that some chunk has |
| UpdateMeaning.CallIsFirst | backend/app/rag/indexing_service.py:1131-1145 | a symbol that calls and uses another gives the call first, which is the one that is stored |
| UpdateMeaning.ReadOffIsFirst | backend/app/rag/indexing_service.py:1131-1150 | an edge read off a chunk precedes an extractor edge between the same symbols |
| IndexingService.GroupEdges | backend/app/rag/indexing_service.py:1206-1214 | the grouping hands every symbol exactly its outgoing edges; any relation but uses becomes a call |
| IndexingService.UpsertAll | backend/app/rag/indexing_service.py:1216-1232 | upserting the chunks the graph takes replaces exactly their outgoing edges by the grouped ones |
| IndexingService.RebuildGraph | backend/app/rag/indexing_service.py:566-576 | a rebuild makes of a generation exactly the graph of the snapshot and touches no other generation (its upsert loop is at lines 653-665) |
| UpdateMeaning.RebuiltHas | backend/app/rag/indexing_service.py:653-665 | a rebuild shows exactly the symbols the graph takes and, out of them, a use for every stored use and a call for every other stored edge |
| IndexingService.FullIndex | backend/app/rag/indexing_service.py:860-929 | a full index stores the snapshot of the whole tree with its fingerprint, and the generation after the highest one becomes exactly its graph, every other generation untouched |
| UpdateMeaning.FullIndexIsInStep | backend/app/rag/indexing_service.py:860-929 | the stored chunks, commit and edges of a full index, edge by edge, and that graph, snapshot and fingerprint agree |
| IndexingService.IncrementalUpdate | backend/app/rag/indexing_service.py:1069-1232 | without a snapshot everything is indexed into a new generation; otherwise the stored snapshot and the live graph become the two values the theorems below relate |
| UpdateMeaning.LiveSymbolsIff | backend/app/rag/indexing_service.py:1184-1232 | after an update the graph shows a symbol exactly when a given file defines it as one the graph takes, or it was there and no given file has stopped defining it |
| UpdateMeaning.LiveEdgesIff | backend/app/rag/indexing_service.py:1184-1232 | it shows an edge exactly when the source is upserted and the edge is a new one, or the source is not, the edge was there and neither end is gone: callers of a re-extracted symbol keep their edges |
| UpdateMeaning.StoredEdgesIff | backend/app/rag/indexing_service.py:1152-1168 | the store holds an edge exactly when it is the first new one of its pair, or an old one whose source no given file defines, whose ends are not gone and whose pair no new one joins |
| UpdateMeaning.CommitOverRuns | backend/app/core/repositories/in_memory_index_metadata_repository.py:68-79 | over any run the stored commit is that of the last step that had one |
| ViewMaintenance.SnapshotIsUntouchedPlusFresh | backend/app/rag/indexing_service.py:1094-1119 | the removed and modified lists make the store hold exactly the chunks of the other files followed by the fresh chunks, the first with each id, path and line |
| ViewMaintenance.RowsTakenOut | backend/app/core/repositories/in_memory_index_metadata_repository.py:50-54 | the rows taken out of the store are those of the given files, all of them and no others |
| ViewMaintenance.FingerprintAgreesIff | backend/app/rag/indexing_service.py:1173-1180 | the fingerprint written equals the one recomputed from the stored chunks exactly when no eligible id is lost to duplicate chunks |
| ViewMaintenance.EligibleIdsAgreeIff | backend/app/rag/indexing_service.py:1119-1179 | the same for the two sets of ids |
| ViewMaintenance.DuplicateLosesId | backend/app/core/repositories/in_memory_index_metadata_repository.py:43-49 | an update of a file with two chunks at one place, only the second eligible: its id is counted and not stored |
| ViewMaintenance.SymbolsAgreeIff | backend/app/rag/indexing_service.py:1184-1232 | the live graph has the symbols of a rebuild from the new snapshot exactly when no removed id survives in an untouched file without being extracted again, every surviving symbol of a modified file keeps a chunk the graph takes, and no symbol is lost to duplicates |
| ViewMaintenance.SharedIdIsLost | backend/app/rag/indexing_service.py:1118-1186 | two files share an id and one is deleted: the graph and the snapshot disagree |
| ViewMaintenance.StoredEdges | backend/app/rag/indexing_service.py:1152-1156 | the stored edges after the update: the old ones that leave no modified or removed symbol, reach no removed one and join no pair of a new one, and the first new one of each pair |
| ViewMaintenance.EdgesAgreeIff | backend/app/rag/indexing_service.py:1124-1232 | given that the symbols agree, the edges of the live graph are those of a rebuild exactly when every old edge the graph keeps is stored, every new one it gets is stored, if not itself then one labelled alike, and every stored new one that the graph ignores was there before |
| ViewMaintenance.IncrementalIsRebuildIff | backend/app/rag/indexing_service.py:1094-1232 | after an update the live graph has exactly the extracted symbols and edges that a rebuild from the updated snapshot would give if and only if the update is clean: the three conditions on symbols and the three on edges |
| ViewMaintenance.OrdinaryIsClean | backend/app/rag/indexing_service.py:1094-1232 | an update is clean when no removed id survives in an untouched file, no symbol is lost to duplicates, re-extracted symbols stay ones the graph takes, extractor edges start in their own files and no two new edges join the same symbols |
| ViewMaintenance.TwoRelationsLoseOne | backend/app/core/repositories/in_memory_index_metadata_repository.py:57-67 | a symbol that both calls and uses another: the store keeps one edge, the graph both, and they disagree |
| ViewMaintenance.NewEdgesAreTheirs | backend/app/rag/indexing_service.py:1131-1150 | the recomputed edges all leave re-extracted symbols, provided the extractor edges do and no pair has two relations |
| ViewMaintenance.StepKeepsInStep | backend/app/rag/indexing_service.py:860-929 | a full index or a clean update leaves graph, snapshot and fingerprint in agreement |
| ViewMaintenance.RunsStayInStep | backend/app/rag/indexing_service.py:860-1232 | over any run of full indexes and clean updates the graph equals a rebuild of the snapshot, the stored fingerprint is that of the stored chunks, and the snapshot and the live graph count the same symbols exactly when every blank constructor's id is also an ordinary symbol's |
| ViewMaintenance.RunsAgreeOnFingerprint | backend/app/schemas/codebase.py:16-45 | over any clean run on chunks that are not blank, snapshot and live graph count the same symbols and the stored fingerprint is the one the live graph gives |
| RebuildProtocol.RunsAreSafe | backend/app/rag/indexing_service.py:523-697 | over every run of begin, single build statements, swap, release, cleanup, incremental steps and restarts in which a rebuild begins with no cleanup pending and the live graph not empty, and a restart comes with the live graph not empty and nothing in a later generation: reads see the finished build the proxy was last given with its updates since, a generation being built is apart and intact, and after a cleanup only the live generation is left |
| RebuildProtocol.StepKeepsSafe | backend/app/rag/indexing_service.py:839-857 | every step keeps that invariant |
| ProtocolSteps.StepIsDetermined | backend/app/rag/indexing_service.py:523-697 | a step leaves no choice: its outcomes hold the same in every generation and agree in everything else |
| ProtocolSteps.BeginIsReset | backend/app/rag/retrieval/neo4j_graph.py:42-49 | a rebuild begins on the generation after the highest one, all of whose nodes are deleted |
| ProtocolSteps.BuildIsStatement | backend/app/rag/retrieval/neo4j_graph.py:84-196 | a build step is the next Cypher statement, on the generation being built |
| ProtocolSteps.SwapServes | backend/app/rag/indexing_service.py:670-697 | a swap serves the generation built, which readers are to see from then on, and leaves a cleanup thread that spares it |
| ProtocolSteps.CleanupIsDelete | backend/app/rag/retrieval/neo4j_graph.py:51-61 | a cleanup thread deletes the nodes of every generation but its own, and is done |
| ProtocolSteps.SyncRemoveIsDelete | backend/app/rag/retrieval/neo4j_graph.py:63-72 | an update removes its symbols from the live generation |
| ProtocolSteps.SyncPutIsStatement | backend/app/rag/retrieval/neo4j_graph.py:84-196 | its other statements work on the live generation |
| ProtocolSteps.MutexAndRestart | backend/app/rag/retrieval/graph.py:385-441 | the mutex is taken and given back, and a restart serves the highest generation with a node and forgets the threads |
| RebuildProtocol.CleanupKeepsSafe | backend/app/rag/retrieval/neo4j_graph.py:51-61 | a cleanup keeps it and leaves only the live generation |
| RebuildProtocol.LateCleanupIsHarmlessIff | backend/app/rag/indexing_service.py:688-697 | for the generation being built: a cleanup thread of an earlier build that runs during a rebuild spares the new generation exactly when nothing has been written to it yet |
| RebuildProtocol.BeginStaysApartIff | backend/app/rag/indexing_service.py:542-567 | a rebuild picks a generation other than the live one exactly when the generation just below the live one is not the highest with a node; a live generation with a node is enough |
| RebuildReads.StepKeepsReadsIff | backend/app/rag/indexing_service.py:542-697 | readers stay right through a step exactly when it is harmless: a cleanup spares the live generation or finds it empty, a build statement works on another generation, a swap brings in a generation that holds its whole build, a restart finds in the highest generation what is in the live one; every other step always is |
| RebuildReads.ReadsAreRightIff | backend/app/rag/indexing_service.py:523-697 | over every run from start-up, restarts included, with no discipline assumed, readers are right at every state exactly when every cleanup spares the live generation or finds it empty, every build statement works on another generation, at every swap the statements since the last wiping cleanup build the same as all of them, and every restart finds in the highest generation what is in the live one |
| RebuildReads.RunHolds | backend/app/rag/indexing_service.py:653-697 | over every run the generation being built holds exactly what the statements since the last cleanup that wiped it make, also when that came in the middle of an upsert |
| RebuildReads.HalfBuiltIsServed | backend/app/rag/indexing_service.py:653-665 | over every run: a rebuild that picked the live generation serves readers each stage of itself |
| RebuildReads.CleanupAfterSwapHappens | backend/app/rag/indexing_service.py:688-697 | a run in which the cleanup of one build runs after the swap of the next and deletes the live generation |
| RebuildReads.CleanupDuringBuildHappens | backend/app/rag/indexing_service.py:688-697 | a run in which it comes between two statements of one upsert of the next build, whose swap then serves an empty graph |
| RebuildReads.LiveRebuildHappens | backend/app/rag/indexing_service.py:542-567 | a run in which an empty first build lets the next rebuild pick the live generation |
| RebuildReads.RestartMidBuildHappens | backend/app/rag/retrieval/graph.py:385-441 | a run whose restart serves half a build |
| RebuildProtocol.RestartKeepsServingIff | backend/app/rag/retrieval/graph.py:385-409 | after a restart the live generation is still served exactly when no generation above it has a node |
| RebuildProtocol.RestartServesHalfBuilt | backend/app/rag/retrieval/graph.py:441 | a restart in the middle of a build serves the part of it that was written |
| GraphProxy.GraphIndexProxy.Swap | backend/app/rag/retrieval/graph.py:264-271 | the former backend is returned and pushed on the history |
| GraphProxy.GraphIndexProxy.Rollback | backend/app/rag/retrieval/graph.py:273-281 | the last backend of the history is served again; None and no change without history |
| GraphProxy.RollbacksUndoSwaps | backend/app/rag/retrieval/graph.py:264-281 | k rollbacks undo the last k swaps, history included; k swaps and k rollbacks restore the proxy |
| BuildRegistry.Registry.RegisterBuild | backend/app/rag/reinforcement/build_registry.py:82-136 | a new row in status building, the others unchanged |
| BuildRegistry.Registry.CompleteBuild | backend/app/rag/reinforcement/build_registry.py:139-166 | the build becomes active and every other active one superseded, even when there is no such build |
| BuildRegistry.Registry.GetActiveBuild | backend/app/rag/reinforcement/build_registry.py:169-181 | an active build completed last, None exactly when there is none |
| BuildRegistry.Registry.RollbackBuild | backend/app/rag/reinforcement/build_registry.py:209-255 | only an active or superseded build is rolled back; its parent becomes active again if superseded or rolled back; the parent row is returned |
| BuildRegistry.RunsAreHealthy | backend/app/rag/reinforcement/build_registry.py:82-255 | over any run of register, complete and rollback of the active build, at most one build is active and every parent was registered before its child |
| BuildRegistry.StepKeepsHealthy | backend/app/rag/reinforcement/build_registry.py:139-255 | every such step keeps both |
| BuildRegistry.StepMeaning | backend/app/rag/reinforcement/build_registry.py:82-255 | what a step makes of every row: who is active, building and rolled back afterwards, exactly; parents and kinds stay, and completion times but for the build completed |
| BuildRegistry.NewRow | backend/app/rag/reinforcement/build_registry.py:82-136 | a registered build has the parent and kind it was given and is being built |
| BuildRegistry.OtherRollbackKeepsActive | backend/app/rag/reinforcement/build_registry.py:169-255 | rolling back another build leaves the one completed last the active build, also when that makes a second one active; the caller is told of the parent whether it is revived or not |
| BuildRegistry.RollbackGoesBack | backend/app/rag/reinforcement/build_registry.py:209-255 | rolling back the active build makes active, if any, its parent, which was registered earlier |
| BuildRegistry.RollbacksEnd | backend/app/rag/reinforcement/build_registry.py:209-255 | consecutive rollbacks visit ever earlier builds, so there are at most as many as builds registered up to the first |
| BuildRegistry.RollbackStaysSingleIff | backend/app/rag/reinforcement/build_registry.py:209-255 | rolling back an arbitrary build leaves at most one active exactly when it does not revive the parent of a superseded build beside an active one |
| BuildRegistry.TwoActiveBuilds | backend/app/rag/reinforcement/build_registry.py:209-255 | three builds in a chain: rolling back the middle one leaves two active |
| BuildRegistry.ThreeBuildsHappen | backend/app/rag/reinforcement/build_registry.py:82-166 | registering and completing three builds, each under the active one, reaches that chain |
| BuildRollback.RollbackLastBuild | backend/app/rag/indexing_service.py:1015-1046 | the error cases, and otherwise, for an active build also when there are several, the registry's rollback of the active build together with the proxy's |
| BuildRollback.RollbackRestoresIff | backend/app/rag/indexing_service.py:1015-1041 | in sync or not, a rollback makes the parent active, and the backend it serves is what the parent made exactly when that was served until this process swapped in what is served now, or is served now and was not swapped in by this process |
| BuildRollback.RollbackLosesSwap | backend/app/rag/indexing_service.py:1015-1041 | between the swap and the completion of a full build, a rollback to a parent takes the new backend from readers |
| BuildRollback.OtherBuildRollsBackIff | backend/app/rag/indexing_service.py:1015-1041 | rolling back a build whose parent made what is served is right exactly when the history is empty |
| BuildRollback.StepKeepsConsistent | backend/app/rag/indexing_service.py:523-1262 | every step, right or wrong, keeps the record of completed builds and the stack of backends: each lies over what it was swapped in over, and only the bottom was not swapped in by this process |
| BuildRollback.RollbackKeeps | backend/app/rag/indexing_service.py:1015-1041 | any rollback keeps them, also in the middle of a full build |
| BuildRollback.BeginKeeps | backend/app/rag/indexing_service.py:536-565 | so does registering a full build under the build that was active when it asked, or failing to register it, which leaves the service in sync exactly when it was |
| BuildRollback.SwapKeeps | backend/app/rag/indexing_service.py:670 | so does the swap, after which the right backend is served, whatever was rolled back or built since the build was registered |
| BuildRollback.CompleteFullKeeps | backend/app/rag/indexing_service.py:697-706 | so does the completion, which leaves the service in sync exactly when what was swapped in is still served |
| BuildRollback.CompleteOtherKeeps | backend/app/rag/indexing_service.py:1248-1256 | so does the completion of a build of another kind, at any time; it puts the service in sync unless a full build waits for its completion out of sync |
| BuildRollback.RestartKeeps | backend/app/rag/retrieval/graph.py:255-262 | so does a restart on any backend, a half-built one included: the history is empty again (the proxy is made at line 441), the rows stay |
| RollbackRuns.StepPutsInSyncIff | backend/app/rag/indexing_service.py:523-1262 | after any step, in sync or not before, the right backend is served (what the active build made, or what the full build about to become active swapped in) exactly when the step is a swap, registers or completes a build while in sync, ends one with what the active build made served, completes another kind of build, rolls back right with no full build between swap and completion, or restarts on what the active build made |
| RollbackRuns.ServedIsWhatActiveMadeIff | backend/app/rag/indexing_service.py:523-1262 | the same after every step of every run of full builds registered, swapped in, completed and given up, other builds registered and completed, rollbacks and restarts, from a process that comes up on any registry and serves anything |
| RollbackRuns.AlwaysInSyncIff | backend/app/rag/indexing_service.py:523-1262 | over such a run that starts in sync the right backend is always served exactly when no rollback and no restart brings up another one and no full build ends between its swap and its completion over another one |
| RollbackRuns.IncrementalBuildMisleadsRollback | backend/app/rag/indexing_service.py:1234-1262 | two full builds, an incremental one and a rollback: the second full build is active again and what the first one made is served |
| RollbackRuns.EmptyHistoryMisleadsRollback | backend/app/rag/indexing_service.py:1015-1041 | a full build, an incremental one, a rollback that goes too far back and another incremental one: in sync, with an empty history, and the next rollback makes the full build active and serves what was there before it |
| RollbackRuns.RestartMisleadsRollback | backend/app/rag/retrieval/graph.py:255-281 | two full builds, a restart and a rollback: the first build is active again and what the second one made is served |
| RollbackRuns.RollbackDuringBuildMisleads | backend/app/rag/indexing_service.py:1015-1041 | a rollback during a full build and one after it: the second build is active and what the first one made is served |
| RollbackRuns.RollbackBeforeCompletionMisleads | backend/app/rag/indexing_service.py:670-706 | a rollback between the swap of a full build and its completion: the build becomes active and what was served before it is served |
| RollbackRuns.FailedRollbackLeavesNoActive | backend/app/rag/indexing_service.py:1029-1031 | rolling back a build without a parent reports failure, yet leaves the registry without an active build and the proxy unchanged |
| RollbackRuns.FailedRollbackHappens | backend/app/rag/indexing_service.py:1029-1031 | the same after one full build of a fresh process |
| TokenBuckets.TokenBucket.Take | backend/app/core/token_bucket.py:30-46 | tokens, time and answer of one call |
| TokenBuckets.TokenBucket.Refill | backend/app/core/token_bucket.py:30-35 | the bucket refilled up to its capacity, unchanged if the clock has not advanced |
| TokenBuckets.RunIsSound | backend/app/core/token_bucket.py:30-46 | over any run of calls the token count stays between 0 and the capacity |
| TokenBuckets.AccountIsExact | backend/app/core/token_bucket.py:30-46 | over any run what is granted, what is left and what a full bucket spilt add up exactly to what was there and what came in |
| TokenBuckets.NothingSpilt | backend/app/core/token_bucket.py:30-35 | a refill for which there is room spills nothing |
| TokenBuckets.GrantedAtOnceIff | backend/app/core/token_bucket.py:37-46 | calls at one instant are all granted exactly when together they ask for no more than the bucket then holds, and take exactly what they ask for |
| TokenBuckets.NewBucketGrants | backend/app/core/token_bucket.py:23-43 | a new bucket grants its capacity at once and not a token more |
| TokenBuckets.RefilledMeaning | backend/app/core/token_bucket.py:30-35 | the bucket gains its rate times the time passed, up to its capacity; a clock that goes back changes nothing |
| TokenBuckets.RetryIsLeast | backend/app/core/token_bucket.py:40-46 | a call is granted exactly when nothing is missing; a refusal names the least whole number of seconds, at least one, in which what is missing comes in, a minute if nothing comes in |
| TokenBuckets.GrantedIsBounded | backend/app/core/token_bucket.py:30-46 | over any run and any interval the tokens granted are at most capacity + refill * length |
| TokenBuckets.GrantedFromNow | backend/app/core/token_bucket.py:30-46 | from the bucket's own time on, at most what it holds plus what refills |
| TokenBuckets.RetryIsExact | backend/app/core/token_bucket.py:37-46 | after a refusal of n <= capacity with a positive refill, a retry a whole number of seconds later succeeds exactly when that number is at least the returned one, however many refused polls happen in between |
| TokenBuckets.PollsDoNotMatter | backend/app/core/token_bucket.py:30-46 | refused polls do not change what the bucket holds later |
| TokenRegistry.TokenRegistry.TakeTokens | backend/app/core/token_bucket.py:60-74 | sweep if due, find or create the bucket, take from it: the whole registry after one call and its answer |
| TokenRegistry.TokenRegistry.Sweep | backend/app/core/token_bucket.py:64-69 | at most every ten minutes exactly the buckets idle for longer are dropped |
| TokenRegistry.SweptMeaning | backend/app/core/token_bucket.py:64-69 | a bucket outlasts a call exactly when a sweep came in the last ten minutes or somebody took from the bucket in the last ten minutes, and then as it was |
| TokenRegistry.SweepIsUnseen | backend/app/core/token_bucket.py:60-74 | for any number of keys, each with a shape that ten minutes refill or that can never grant, every call sequence gets the same answers as from a registry that never drops a bucket |
| TokenRegistry.SweepIsSeen | backend/app/core/token_bucket.py:60-74 | as soon as one key has another shape, some call sequence gets a different answer |
| TokenRegistry.SweepIsTransparentIff | backend/app/core/token_bucket.py:60-74 | whatever shapes the keys have, the sweep is unobservable exactly when every key has capacity <= 600 * refill or capacity < 1 |
| RateWindow.RateLimiter.CheckRate | backend/app/core/rate_limit.py:76-84 | the window of the key and the verdict after one request; the windows of other keys unchanged |
| RateWindow.RefusedIff | backend/app/core/rate_limit.py:76-84 | a request is refused exactly when at least limit accepted ones lie in the last 60 seconds |
| RateWindow.RemainingIs | backend/app/core/rate_limit.py:76-84 | what a verdict says is left is the limit less the accepted requests of the last 60 seconds, this one included |
| RateWindow.AtMostLimitPerWindow | backend/app/core/rate_limit.py:76-84 | any closed interval of 60 seconds contains at most limit accepted requests |
| RateWindow.RunHolds | backend/app/core/rate_limit.py:78-83 | the deque is always the tail of the accepted times, and what it lacks has left the window |
| RenameMatching.MatchRenames | backend/app/rag/diff_parser.py:259-286 | the rename block: per file exactly the chosen pairs, no entry for a file without any, and the old and new names taken out of the deleted and added sets |
| RenameMatching.RenamedIff | backend/app/rag/diff_parser.py:277-282 | a file maps one name to another exactly when a candidate of the two is chosen, and has no entry without one |
| RenameMatching.AddedIsKeptIff | backend/app/rag/diff_parser.py:259-286 | an added name stays among the added ones exactly when in every file each of its candidates lost its old name to one ranked at least as high |
| RenameMatching.DeletedIsKeptIff | backend/app/rag/diff_parser.py:259-284 | a deleted name stays among the deleted ones exactly when in every file each of its candidates lost its new name to another deleted name with a candidate ranked at least as high |
| RenameMatching.KeptByCandidates | backend/app/rag/diff_parser.py:259-284 | from the candidates alone: a name without any is kept, a name with one that ranks at least as high as all it clashes with is not |
| RenameMatching.DeletionIsLost | backend/app/rag/diff_parser.py:259-284 | one file renames a declaration, another deletes one of that name without a partner: the deletion is lost |
| RenameMatching.PairUp | backend/app/rag/diff_parser.py:275-282 | the greedy loop with its two used sets makes exactly the one stable choice |
| RenameMatching.CollectPairs | backend/app/rag/diff_parser.py:264-274 | the double loop gathers exactly the pairs above the threshold |
| RenameMatching.GreedyIsOneToOne | backend/app/rag/diff_parser.py:275-282 | no name is used twice, and only candidates are chosen |
| RenameMatching.GreedyMakesStable | backend/app/rag/diff_parser.py:275-282 | every candidate left out clashes with a chosen one that ranks at least as high |
| RenameMatching.StableIsUnique | backend/app/rag/diff_parser.py:275-282 | only one choice from the candidates has that property |
| RenameMatching.ChosenIsMaximal | backend/app/rag/diff_parser.py:275-282 | no candidate can be added to the choice |
| RenameMatching.BestIsChosen | backend/app/rag/diff_parser.py:275-282 | a candidate that ranks at least as high as all it clashes with is chosen |
| RenameMatching.UnpairedIff | backend/app/rag/diff_parser.py:275-282 | a deleted name is left unpaired exactly when each of its candidates lost its new name to a chosen one ranked at least as high |
| RenameMatching.LaterNameWins | backend/app/rag/diff_parser.py:277 | of two candidates with a name in common the one with the greater ratio is chosen, with the same ratio the one whose other name comes later |
| RenameMatching.ChosenIsHalf | backend/app/rag/diff_parser.py:264-282 | the choice has at least half the total similarity of any one-to-one choice from the same candidates |
| RenameMatching.FilePairingIsHalf | backend/app/rag/diff_parser.py:259-282 | the same for the pairing of a file |
| RenameMatching.CandidateIff | backend/app/rag/diff_parser.py:265-274 | two names are candidates exactly when neither is among the modified ones and they can be written with the same words, each as often, in whatever order, or their declarations are more than 0.55 alike |
| RenameMatching.NameTieIff | backend/app/rag/diff_parser.py:270-271 | for lists of words without underscores, the joined names tie exactly when the lists are equal as multisets |
| RenameMatching.RatioMeaning | backend/app/rag/diff_parser.py:267-272 | the ratio is what the matcher says of the declarations, the names standing for missing ones, but at least 0.75 for names made of the same words |
| RenameMatching.SplitOfJoined | backend/app/rag/diff_parser.py:270 | there is only one way to write a name as words with underscores between them |
| RenameMatching.SplitIsExact | backend/app/rag/diff_parser.py:270 | splitting a name at underscores and joining it again gives the name, and no part contains an underscore |
| CommentScanner.BlockCommentSpans | backend/app/rag/ingestion/tree_sitter.py:368-414 | the flat loop with its depth counter and string flag finds exactly the comments of the recursive reading |
| CommentScanner.CommentEndsAtFirstReturn | backend/app/rag/ingestion/tree_sitter.py:401-411 | a comment is closed at j exactly when j is the first point at which its counted nesting returns to zero |
| CommentScanner.OneReading | backend/app/rag/ingestion/tree_sitter.py:380-411 | there is exactly one division of a source into plain characters, quoted strings with escapes, and nested comments |
| CommentScanner.ScannerReportsTheComments | backend/app/rag/ingestion/tree_sitter.py:368-414 | the spans are the comments of that division, so each starts at an opener outside strings and other comments |
| CommentScanner.SpansAreInOrder | backend/app/rag/ingestion/tree_sitter.py:368-414 | the spans lie in the source, are not empty, increase and do not overlap |
| CommentScanner.SpansAreDelimited | backend/app/rag/ingestion/tree_sitter.py:401-414 | every span begins at /* and ends behind */ or at the end of the source |
| CommentScanner.FirstSpan | backend/app/rag/ingestion/tree_sitter.py:380-411 | behind a stretch without quotes and openers the next comment runs from its opener to the first closer, if nothing opens in between |
| CommentScanner.StringEnds | backend/app/rag/ingestion/tree_sitter.py:389-396 | a string ends just past the first unescaped quote like the one that opened it, or at the end of the source |
| CommentScanner.StringEndsIff | backend/app/rag/ingestion/tree_sitter.py:389-396 | the same counted: the first such quote after an even number of backslashes |
| CommentScanner.UnclosedQuoteHidesComments | backend/app/rag/ingestion/tree_sitter.py:397-400 | a quote character nothing closes hides every comment after it |
| RustComments.ScannerAgreesIff | backend/app/rag/ingestion/tree_sitter.py:368-414 | for every source: the spans are Rust's block comments exactly when none of those begins inside what the scanner takes for a string or comment and no span begins inside a comment or literal of Rust's division |
| RustComments.SameCommentsIff | backend/app/rag/ingestion/tree_sitter.py:368-414 | the same for any two divisions of a source |
| RustComments.TameSourcesAgree | backend/app/rag/ingestion/tree_sitter.py:368-414 | without lifetimes and raw strings, and with line comments free of quotes and openers, they always agree |
| RustComments.LifetimeHidesComment | backend/app/rag/ingestion/tree_sitter.py:397-400 | one lifetime before one comment: Rust has the comment, the scanner finds none |
| CommentScanner.BraceMatchedEnd | backend/app/rag/ingestion/tree_sitter.py:237-260 | just past the brace closing the first one found before the fallback, cut at the fallback; the fallback when there is no such brace or it is never closed |
| CommentScanner.BalanceCounts | backend/app/rag/ingestion/tree_sitter.py:237-260 | the depth of the brace loop is the number of opening less the number of closing braces passed |

## Left out

- TraversalIsCones: proved in one direction, under a condition weaker than "no symbol but the root lies in both cones"; the reason no equivalence is stated is given above.
- IncrementalIsRebuildIff: compares extracted symbols and edges; bare nodes (targets nothing defines), usage modes, provenance and metadata values are not compared.
- RunsAreSafe: has no rollback step, since the cleanup deletes the generation a rollback would go back to.
- ServedIsWhatActiveMadeIff: compares backends, not what their generations still hold after a cleanup or an incremental build; backends are numbered as they are built, so two on one generation count as two.
- MutualNeighbourIff: is about the neighbours of the root; for symbols further away the condition of SoleNeighbourIff, on the run, is what is proved.
- Neo4jStore.Neo4jGraphIndex.UpsertSymbol: of the metadata only whether there is a kind is kept; relationship properties (usage modes, edge source) are not stored, since no modelled rule reads them.
- FullIndex: its new generation gets the edges of the snapshot, as RebuildGraph does.
- RebuildGraph: the refinement of edges by a rust-analyzer index is not modelled; edges come from the snapshot.
- MatchRenames: the line scan that fills its inputs is not modelled; the similarity ratio is an arbitrary real function, and flattening the pairings of several files into one mapping is left out.
- ReadRust: divides a source only as far as it decides where block comments are; everything that is neither a comment nor a literal is read character by character, and sources that Rust rejects get some division.
- Symbol ids are taken to be non-empty; for an empty one the code falls back on the printed chunk. Chunk fields that no rule looks at, the time stamp and the number of files are left out. The digest is a function of the set of ids, collision-free where an equivalence needs it.
- The extraction of chunks, calls and type references from source text: arbitrary functions of the text and of all chunks, except that extractors label chunks with the path they are given.
- The semantic index, observations, notifications, metrics, git, HTTP and the query cache: calls without logic of their own here.
- Postgres storage of snapshots: its edge table has no relation column; the in-memory repository is modelled instead. The build registry is modelled through its rows and statuses; build ids are places in the order of registration.
- `get_neighbors` beyond one hop, `search_symbols`, test lookups, module edges and edge provenance: single queries over the modelled state.
- Risk scores, thresholds of the reinforcement agent, the reranker, routes and authentication.
