# Verified models of the agent's stateful components

Each module models one component whose pieces of state have to agree with each other over every run, and proves
that they do, or exactly when they do. Code that changes state step by step is a class or a method with loops, proved
against a specification function; the laws are lemmas about those functions, over all inputs, runs and reachable states.
Run `dafny verify dfyconfig.toml` to check everything.

| module | component |
|---|---|
| `PagStore`, `PagReplication` | the graph store with its revision counter and trace callback, and the desktop client that replays the trace |
| `PagIndexer`, `PagSyncLaws` | incremental indexing of changed files into that store, and its algebra |
| `PagPaging` | the paged slice of the graph and the client loop that collects it |
| `BashChatStore`, `ChatWorker` | the shell-call rows and the chat worker's timeline: two copies of one activity |
| `KbLifecycle` | the knowledge base: writes, promotion, supersession, time-to-live, search |
| `MergedConfig`, `ConfigStore` | layered configuration, and writing one key into nested dictionaries in place |
| `StreamAssembler`, `StreamTextMerge`, `TraceFraming` | assembling tool calls from a stream, merging text by overlap and emitting increments, splitting socket text into lines |
| `RuntimeContract` | the AgentMemory state machine and its command envelopes |
| `ToolMessages`, `TuiState` | the two filters for tool messages, and saving and loading the terminal UI's contexts |
| `ShellSessions` | the bounded table of shell processes |
| `TokenEconomy` | log counters, their merge for display and the efficiency score |
| `WorkflowTrace` | the event trace of a workflow run |
| `ConflictSuffix` | stable keys and their conflict suffixes |
| `Prelude`, `Text`, `Ordering` | options, `str.strip`, sorting |

## What the code does that one might not expect

These are stated as theorems, each with the exact condition or a concrete input.

- `mark_stale` and the deletes neither advance the revision nor call back, so a replica that heard every event equals
  the store exactly when no row that existed during the run is absent at its end (`ReplayIsExactIffNothingVanished`).
- The client never checks the first revision it hears: from a namespace without a revision exactly the misses before
  the first event go unnoticed (`MissesAreSilentIffFirst`, with `FirstGapFromEmptyIsSilent` as the smallest run); from
  a revision on every gap is noticed (`GapsAreDetected`).
- A single edge upsert may lack an end; the desktop client then keeps what it drew before (`LinksFollowIff`).
- Deleting nodes by path leaves the edges at them (`DeleteByPathDangles`), and a re-index drops the edge from the
  directory that contains the file (`SyncDropsParentEdge`).
- A normalised path may begin with a blank; the delete then looks for another path and leftovers stay
  (`LeftoverDroppedIffClean`). The order of syncs can matter exactly when two different paths differ only in outer
  blanks, both count as text, and such files may be segmented (`SyncCommutesIff`, `SyncDependsOnPathSetIff`); on a
  given disk it does exactly when one deletes or overwrites segments of the other (`SyncCommutesOnIff`).
- Stepping by more than the store's cap skips rows once there are more rows than the cap (`PagingVisitsAllIff`).
- `tool.call_finished` never changes the status of a shell call, since its second branch in the chat worker cannot be
  reached (`StatusIsLastReported`).
- The store's copy of an execution's output differs from the timeline's exactly when the call failed with an error text
  (`StoredOutputVerbatimIff`).
- Rewriting a reviewed record keeps its status but not its body or its audit trail (`ReviewSurvivesRewrite`,
  `ReviewedCanLoseItsBody`). A write closes the record it names as superseded exactly when it is another one
  (`SupersessionIff`).
- Merging three layers is associative exactly when no mapping, hidden under a scalar, shows again under a later mapping
  (`MergeAssociativeIff`).
- An increment that repeats the text so far is lost (`RepeatedIncrementIsLost`); a stream of increments arrives complete
  exactly when each shares nothing with the text before it (`NothingLostIff`).
- The request filter does not look at tool messages without an id (`RequestFilterCleanIff`).
- Blanks around a registered command name are accepted, and exactly then the payload rules of the command do not apply
  (`PayloadRulesApplyIff`).
- A shell that ended or was idle too long is replaced without its command numbers starting over (`NumberingStep`).
- After merging two logs for display, the accesses by tool add up to the total exactly when one log dominates the other
  (`DisplayedAccessesAddUpIff`), the other breakdowns exactly when the live log counts at least as much as the filed one
  (`DisplayedBreakdownsAddUpIff`).
- Normalising a key twice can differ from normalising it once, exactly when the cut at 512 characters leaves an
  underscore at the end (`NormalizeIdempotentIff`).

## Model

| member | source | states |
|---|---|---|
| `PagStore.SqlitePagStore.BumpGraphRev` | tools/agent_core/memory/sqlite_pag.py:254-269 | the counter of one namespace grows by one, nothing else changes |
| `PagStore.SqlitePagStore.UpsertNode` | tools/agent_core/memory/sqlite_pag.py:309-382 | new tables, revision, delivered event and reply are those of the specified step; blank ids do nothing |
| `PagStore.SqlitePagStore.UpsertEdge` | tools/agent_core/memory/sqlite_pag.py:384-447 | the same for one edge |
| `PagStore.SqlitePagStore.UpsertEdgesBatch` | tools/agent_core/memory/sqlite_pag.py:449-535 | the loop writes exactly the well-formed entries in order, advances the revision once or not at all, and calls back once |
| `PagStore.UpsertNodeMeans` | tools/agent_core/memory/sqlite_pag.py:309-382 | a node upsert stores the given fields, a blank state as fresh, advances the revision by one and tells the compact columns; all other rows stay |
| `PagStore.UpsertEdgeMeans` | tools/agent_core/memory/sqlite_pag.py:384-447 | an edge upsert stores the given fields and tells class, type and both ends |
| `PagStore.BatchMeans` | tools/agent_core/memory/sqlite_pag.py:449-535 | after a batch an edge exists exactly when it did before or an entry writes it; it holds class, type, ends, confidence and contract of the last such entry, with the defaults, and is the old row when there is none |
| `PagStore.BatchTells` | tools/agent_core/memory/sqlite_pag.py:449-535 | the one event of a batch tells every entry that writes an edge, in order, with its own class, type and ends |
| `PagStore.MarkStaleMeans` | tools/agent_core/memory/sqlite_pag.py:887-925 | no row comes or goes; a node is re-marked exactly when it is named or no id is given, only its state and time change, and the reply counts those nodes; no revision, no event, no other namespace |
| `PagStore.DeleteStaleMeans` | tools/agent_core/memory/sqlite_pag.py:927-969 | a node stays exactly when fresh, an edge exactly when it does not end at a stale node; what stays is unchanged and the reply counts what went |
| `PagStore.DeleteByPathMeans` | tools/agent_core/memory/sqlite_pag.py:971-995 | a node goes exactly when level and path match; all edges stay and the reply counts what went |
| `PagStore.DeleteEdgesMeans` | tools/agent_core/memory/sqlite_pag.py:997-1023 | an edge goes exactly when one of its ends is a non-blank id given; all nodes stay and the reply counts what went |
| `PagReplication.StepEvents` | tools/agent_core/memory/sqlite_pag.py:254-269 | a call emits at most one event, carrying the revision it advanced to, and advances one namespace by at most one |
| `PagReplication.RevsAreConsecutive` | tools/agent_core/memory/sqlite_pag.py:254-535 | in a fully traced run the revisions delivered for a namespace are consecutive and end at the store's |
| `PagReplication.ReplayEqualsStore` | tools/agent_core/memory/sqlite_pag.py:254-535 | over any fully traced run of upserts the fold of the payloads equals the store's projection after every call |
| `PagReplication.ReplayIsExactIffNothingVanished` | tools/agent_core/memory/sqlite_pag.py:887-1023 | with deletes mixed in, the replica is exact if and only if no row that ever existed is gone at the end |
| `PagReplication.RunShadows` | tools/agent_core/memory/sqlite_pag.py:254-535 | after any fully traced run the fold of the payloads agrees on every row of the store and holds exactly the rows that ever existed |
| `PagReplication.ClientNeverAhead` | desktop/src/renderer/runtime/pagGraphTraceDeltas.ts:94-105 | whatever was traced, the client's revision never exceeds the store's |
| `PagReplication.GapsAreDetected` | desktop/src/renderer/runtime/pagGraphTraceDeltas.ts:94-104 | a client in step with a non-empty store that hears no complaint has heard every event |
| `PagReplication.MissesAreSilentIffFirst` | desktop/src/renderer/runtime/pagGraphTraceDeltas.ts:94-104 | from a namespace without a revision, a client ends quiet at the store's revision, or having heard nothing, exactly when every missed write came before the first event it heard |
| `PagReplication.LinksFollowIff` | desktop/src/renderer/runtime/memoryGraphState.ts:70-84 | the links the client draws are the replica's edges after every event exactly when no event carries an edge that lacks an end |
| `PagReplication.BatchesAreDrawn` | tools/agent_core/memory/sqlite_pag.py:470-479 | a batch never carries such an edge |
| `PagReplication.BatchRefinesSingles` | tools/agent_core/memory/sqlite_pag.py:449-535 | a batch leaves the same rows as single upserts of its well-formed entries, and advances the revision by one, or by none when there are none |
| `PagReplication.DeleteStaleIsClean` | tools/agent_core/memory/sqlite_pag.py:927-969 | a graph without dangling edges stays so, only fresh nodes are left, and a second call does nothing |
| `PagReplication.DeleteByPathDangles` | tools/agent_core/memory/sqlite_pag.py:971-995 | the result has no dangling edge exactly when no edge touched a deleted node |
| `PagReplication.CutThenDropStaysClosed` | tools/agent_core/memory/sqlite_pag.py:971-1023 | cutting the edges at the nodes before deleting the nodes leaves none dangling |
| `PagIndexer.NormRelMeans` | tools/agent_core/memory/pag_indexer.py:302-305 | a path loses the blanks around it and then the dots and slashes in front, its backslashes become slashes and nothing else changes; the result has no backslash, no dot or slash in front and no blank at its end |
| `PagIndexer.NormRelFixedIff` | tools/agent_core/memory/pag_indexer.py:302-305 | a path is returned unchanged exactly when it is of that form and does not begin with a blank |
| `PagIndexer.PagIndexer.UpsertFileBNode` | tools/agent_core/memory/pag_indexer.py:442-466 | writes the file's node and touches nothing outside the namespace |
| `PagIndexer.PagIndexer.UpsertCBoundaryNode` | tools/agent_core/memory/pag_indexer.py:565-610 | writes one segment's node and its containment edge |
| `PagIndexer.PagIndexer.ReadAndUpsertCDecomposition` | tools/agent_core/memory/pag_indexer.py:510-563 | writes all segments in order and, where the file imports itself, that edge |
| `PagIndexer.PagIndexer.ReindexCForBFile` | tools/agent_core/memory/pag_indexer.py:228-253 | the three store calls amount to the specified re-index of the file |
| `PagIndexer.PagIndexer.SyncChanges` | tools/agent_core/memory/pag_indexer.py:190-226 | syncs exactly the distinct normalised paths in sorted order, or a prefix up to the first directory, where it raises |
| `PagIndexer.WorklistPaths` | tools/agent_core/memory/pag_indexer.py:205-206 | the work list holds exactly the non-empty normalised paths, each once, ascending |
| `Ordering.TextLeqMeans` | tools/agent_core/memory/pag_indexer.py:205-206 | texts ascend by the code point at the first place where they differ, a beginning before what it begins |
| `PagSyncLaws.SyncShape` | tools/agent_core/memory/pag_indexer.py:208-253 | syncing a path is one rewrite: drop, age, overlay |
| `PagSyncLaws.SyncedNodeMeans` | tools/agent_core/memory/pag_indexer.py:208-466 | what stands under any node id after a sync, in fields: the file's node and the last segment of that id, a stale mark for a missing file, nothing for an old segment at the path, else the old row |
| `PagSyncLaws.SyncedEdgeMeans` | tools/agent_core/memory/pag_indexer.py:228-610 | the same for any edge id: the containment and import edges derived, nothing for another edge at the file, else the old edge |
| `PagSyncLaws.SyncCommutes` | tools/agent_core/memory/pag_indexer.py:190-253 | two paths that do not collide on the disk can be synced in either order |
| `PagSyncLaws.SyncCommutesOnIff` | tools/agent_core/memory/pag_indexer.py:190-253 | from every content, the order is irrelevant exactly when they do not collide: differ only in outer blanks, both text, and one deletes or overwrites segments of the other |
| `PagSyncLaws.SyncCommutesIff` | tools/agent_core/runtime/memory_c_segmentation.py:115-123 | on every disk and from every content the order is irrelevant exactly when the paths are equal, differ in more than outer blanks, one is not text, or they are never segmented |
| `PagSyncLaws.SyncIdempotent` | tools/agent_core/memory/pag_indexer.py:190-253 | on an unchanged disk a second sync changes nothing |
| `PagSyncLaws.SyncDependsOnPathSet` | tools/agent_core/memory/pag_indexer.py:190-226 | the content after syncing a list depends only on the set of its paths, when none collide on the disk |
| `PagSyncLaws.SyncDependsOnPathSetOnIff` | tools/agent_core/memory/pag_indexer.py:190-226 | from every content it does so exactly then |
| `PagSyncLaws.SyncDependsOnPathSetIff` | tools/agent_core/runtime/memory_c_segmentation.py:458-473 | on every disk and from every content it does so exactly when any two of its paths are independent in the sense of `SyncCommutesIff` |
| `PagSyncLaws.SyncHistoriesAgree` | tools/agent_core/memory/pag_indexer.py:190-226 | any two histories of calls that name the same paths end in the same content |
| `PagSyncLaws.SyncFrame` | tools/agent_core/memory/pag_indexer.py:228-253 | rows foreign to the path stay as they were, and no foreign row appears |
| `PagSyncLaws.SyncManyFrame` | tools/agent_core/memory/pag_indexer.py:190-226 | the same for any list of paths |
| `PagSyncLaws.SyncCallsFrame` | tools/agent_core/memory/pag_indexer.py:190-226 | the same for any history of calls |
| `PagSyncLaws.NewRowsOwned` | tools/agent_core/runtime/memory_c_segmentation.py:328-338 | every row derived from a file sits at its own id or under an id that spells its stripped path |
| `PagSyncLaws.LeftoverDroppedIffClean` | tools/agent_core/memory/pag_indexer.py:237-247 | a leftover segment disappears exactly when the path has no outer blank |
| `PagSyncLaws.SyncDropsParentEdge` | tools/agent_core/memory/pag_indexer.py:237-241 | the only edge into the file that survives a re-index is its own import edge |
| `PagSyncLaws.BlankPathsDoNotCommute` | tools/agent_core/memory/sqlite_pag.py:971-995 | two paths that differ in an outer blank for which the order matters |
| `PagPaging.ClampLimitInRange` | tools/ailit/memory_cli.py:210-213 | the clamped limit is within 1 and the cap, and unchanged exactly when it was |
| `PagPaging.HasMoreIsExact` | tools/ailit/memory_cli.py:90-163 | in the probing and in the counting branch a page is a window of the rows, and there is more exactly when the window ends before them |
| `PagPaging.PagingVisitsAllIff` | tools/ailit/memory_cli.py:90-163 | stepping by the limit visits every row once, in order, exactly when the limit is within the cap or one capped page is all |
| `PagPaging.LoadPages` | desktop/src/renderer/runtime/loadPagGraphMerged.ts:48-75 | the client loop ends with all rows |
| `PagPaging.LoadMerged` | desktop/src/renderer/runtime/loadPagGraphMerged.ts:29-117 | nodes and edges are loaded completely |
| `BashChatStore.ShellStore.UpsertRunningCall` | tools/ailit/bash_chat_store.py:43-70 | updates the call's first row or appends one |
| `BashChatStore.ShellStore.AppendOutputDelta` | tools/ailit/bash_chat_store.py:73-87 | appends to the output of the call's row, if there is one |
| `BashChatStore.ShellStore.Finish` | tools/ailit/bash_chat_store.py:90-106 | sets the status and a non-empty error |
| `BashChatStore.ShellStore.RecordExecution` | tools/ailit/bash_chat_store.py:109-186 | replaces or appends the record and keeps the newest rows |
| `BashChatStore.StartedRow` | tools/ailit/bash_chat_store.py:43-70 | a started call has the new command and the first tool it had; a new row runs and has no output; other rows stay |
| `BashChatStore.RecordedRow` | tools/ailit/bash_chat_store.py:109-186 | a recorded call has the record's command, status and stored output and keeps its tool and error; other rows stay |
| `BashChatStore.StoredOutputMeans` | tools/ailit/bash_chat_store.py:109-186 | what is stored of an output, with the error text of a failed call on a line of its own |
| `BashChatStore.NewestMeans` | tools/ailit/bash_chat_store.py:183-184 | beyond the limit the last rows stay, in order |
| `BashChatStore.RowsStayUnique` | tools/ailit/bash_chat_store.py:43-186 | no operation makes a second row for a call; the limit holds after a record |
| `BashChatStore.StoredOutputVerbatimIff` | tools/ailit/bash_chat_store.py:109-186 | the stored output is the given one exactly when the call succeeded or had no error text |
| `ChatWorker.ThoughtConsistent` | tools/ailit/chat_stop_worker.py:90-96 | a delta's text is appended to the assistant's text and to what the thoughts spell, which stay separated, and the index stays exact |
| `ChatWorker.ChatStopWorker.EnsureBlock` | tools/ailit/chat_stop_worker.py:98-123 | a block and an index entry for the call, made when missing |
| `ChatWorker.ChatStopWorker.OnEvent` | tools/ailit/chat_stop_worker.py:125-290 | the handler's branches take the worker to the specified next state, store included |
| `ChatWorker.RunIsConsistent` | tools/ailit/chat_stop_worker.py:90-290 | in every run the index and the shell blocks are inverse to each other, no two thoughts are adjacent, and they spell the assistant's text |
| `ChatWorker.EverythingSaidIsShown` | tools/ailit/chat_stop_worker.py:128-136 | in every run the assistant's text, and what the thoughts of the timeline spell, is the concatenation of all its deltas, in order |
| `ChatWorker.TimelineInOrder` | tools/ailit/chat_stop_worker.py:90-290 | in every run the timeline has a stretch of speech and the block of a call exactly where each was first heard |
| `ChatWorker.ListsAreComplete` | tools/ailit/chat_stop_worker.py:125-290 | in every run the file changes and the executions are those of the events, in order |
| `ChatWorker.CallShowsLastStart` | tools/ailit/chat_stop_worker.py:125-290 | in every run a call shows the tool and command of its last start and the last error reported for it |
| `ChatWorker.TimelineSimulatesStore` | tools/ailit/chat_stop_worker.py:125-290 | without execution records, timeline blocks and store rows are the same calls in the same order with equal command, status, error and output |
| `ChatWorker.OutputIsConserved` | tools/ailit/chat_stop_worker.py:125-290 | in every run a call has a block exactly when it was started, and the block shows the output of its last execution record, followed by every chunk since |
| `ChatWorker.StatusIsLastReported` | tools/ailit/chat_stop_worker.py:125-290 | in every run the status shown is that of the call's last `bash.finished` or `bash.execution`, running before; `tool.call_finished` never changes it |
| `ChatWorker.ExecutionAgreement` | tools/ailit/bash_chat_store.py:109-186 | from any consistent state: the block shows the record; the row is kept exactly when it is not popped beyond the limit, and then agrees exactly when stored verbatim |
| `ChatWorker.AgreementFromRecordOn` | tools/ailit/chat_stop_worker.py:125-290 | in every run, from a kept record up to the next record the copies of the call agree exactly when it was stored verbatim |
| `KbLifecycle.PromotionAllowedIff` | tools/agent_core/memory/promotion_policy.py:39-102 | allowed are exactly draft to reviewed, reviewed to promoted and anything open to deprecated, each with its gates |
| `KbLifecycle.SqliteKb.Write` | tools/agent_core/memory/sqlite_kb.py:263-383 | refuses superseded ids, closes what is superseded, keeps creation time and status |
| `KbLifecycle.SqliteKb.UpdateRecordPromotion` | tools/agent_core/memory/sqlite_kb.py:385-402 | sets the status of a known record |
| `KbLifecycle.SqliteKb.AppendAuditEvent` | tools/agent_core/memory/sqlite_kb.py:205-241 | appends one entry to the record's audit trail |
| `KbLifecycle.SqliteKb.ApplyTtlToDeprecated` | tools/agent_core/memory/sqlite_kb.py:169-203 | closes exactly the deprecated records without an upper bound |
| `KbLifecycle.SqliteKb.KbWriteFact` | tools/agent_core/memory/kb_tools.py:262-335 | the tool call is the specified step, with its refusals |
| `KbLifecycle.SqliteKb.KbPromote` | tools/agent_core/memory/kb_tools.py:373-449 | the tool call is the specified step, with its refusals and audit entry |
| `KbLifecycle.SqliteKb.Search` | tools/agent_core/memory/sqlite_kb.py:444-503 | every result matches, has the asked scope and namespace and, unless expired ones are wanted, is valid now; results are newest first; such a record is missing only when as many newer or equal ones as asked for, within 1 and 50, are there; a blank query finds nothing |
| `KbLifecycle.WriteFactMeans` | tools/agent_core/memory/kb_tools.py:262-335 | when a write is refused and with which reason, and every field of the written, the superseded and the other records after one that is accepted |
| `KbLifecycle.PromoteMeans` | tools/agent_core/memory/kb_tools.py:373-449 | the refusals of a promotion in their order, and every field of the record, its audit entry included, after one that is accepted |
| `KbLifecycle.ApplyTtlMeans` | tools/agent_core/memory/sqlite_kb.py:169-203 | a sweep closes exactly the deprecated records without an upper bound, counts them, and leaves all others |
| `KbLifecycle.StatusNeverFalls` | tools/agent_core/memory/kb_tools.py:262-449 | over any history a record stays, and its status only moves up |
| `KbLifecycle.StepRaises` | tools/agent_core/memory/kb_tools.py:262-449 | no call removes a record or lowers a status |
| `KbLifecycle.SupersededIsFinal` | tools/agent_core/memory/kb_temporal.py:6-21 | a superseded record keeps its content, its upper bound never exceeds the clock, and no search over valid records returns it again |
| `KbLifecycle.PromotedWasReviewedFirst` | tools/agent_core/memory/promotion_policy.py:39-102 | every promoted record was first accepted by a review and then by a promotion |
| `KbLifecycle.ReviewSurvivesRewrite` | tools/agent_core/memory/sqlite_kb.py:297-383 | a rewritten reviewed record would still pass its review exactly when the new content does |
| `KbLifecycle.ReviewedCanLoseItsBody` | tools/agent_core/memory/sqlite_kb.py:297-383 | a history that ends in a reviewed record without a body |
| `KbLifecycle.SupersessionIff` | tools/agent_core/memory/sqlite_kb.py:297-383 | an accepted write closes the record it names exactly when that is not the one it writes |
| `KbLifecycle.SupersededIff` | tools/agent_core/memory/sqlite_kb.py:297-383 | over any history a record is superseded exactly when an accepted write of another record named it while it existed |
| `MergedConfig.DeepMerge` | tools/ailit/merged_config.py:19-34 | the recursive loop computes the key-wise merge |
| `MergedConfig.LayeredLookup` | tools/ailit/merged_config.py:183-196 | for any number of layers the merged scalar at a path is that of the last layer with a value there or a non-mapping above it |
| `MergedConfig.MergeLookup` | tools/ailit/merged_config.py:19-34 | the same for two layers |
| `MergedConfig.MergeIdempotent` | tools/ailit/merged_config.py:19-34 | merging a tree with itself changes nothing |
| `MergedConfig.MergeAbsorbsIff` | tools/ailit/merged_config.py:19-34 | the overlay is the result exactly when it covers the base |
| `MergedConfig.MergeAssociativeIff` | tools/ailit/merged_config.py:19-34 | merging is associative exactly when no mapping shows again from under a scalar |
| `MergedConfig.ApplyEnv` | tools/ailit/merged_config.py:103-157 | the environment overlay is the merge of one more layer |
| `MergedConfig.MergeFiles` | tools/ailit/merged_config.py:183-196 | the project loop folds the files from the root down and fails at the first that is no mapping |
| `MergedConfig.Load` | tools/ailit/merged_config.py:183-196 | it fails exactly when a file's root is no mapping; else the scalar at every path is the environment's where it decides, else that of the first file from the project upwards that decides it, else the global file's, else the default |
| `MergedConfig.LayersAnswer` | tools/ailit/merged_config.py:183-196 | that precedence for the fold of all layers |
| `MergedConfig.FirstSayingMeans` | tools/ailit/merged_config.py:183-196 | the file that answers decides the path and none before it does |
| `MergedConfig.VariablesMean` | tools/ailit/merged_config.py:103-157 | which variable gives the key, and which caps are set, each at least 1 |
| `MergedConfig.EnvironmentWins` | tools/ailit/merged_config.py:103-157 | at every path the environment decides it beats all files, at every other the files decide |
| `MergedConfig.EnvironmentDecides` | tools/ailit/merged_config.py:103-157 | it decides the two keys, the run flag and each cap exactly when the variable is set, with that value |
| `ConfigStore.Descend` | tools/ailit/config_store.py:92-101 | one turn of the loop: an existing mapping is entered, anything else is replaced by an empty one first |
| `ConfigStore.SetPathInPlace` | tools/ailit/config_store.py:85-102 | the loop over shared mutable dictionaries writes exactly the path; the empty path is refused |
| `ConfigStore.SetPathIsMerge` | tools/ailit/config_store.py:85-102 | writing a scalar is merging a layer that holds nothing else |
| `ConfigStore.SetPathReadsBack` | tools/ailit/config_store.py:85-102 | the written path reads back the value |
| `ConfigStore.SetPathFrame` | tools/ailit/config_store.py:85-102 | a path that is no prefix and no extension reads as before, unless a scalar lay above it on the way |
| `ConfigStore.SetPathThroughEmpty` | tools/ailit/config_store.py:92-101 | making the intermediate mapping first does not change where the write ends up |
| `StreamAssembler.Assembler.TakePart` | tools/agent_core/normalization/stream_assembler.py:101-124 | a part fills its slot and reports the slot's arguments so far |
| `StreamAssembler.Assembler.Run` | tools/agent_core/normalization/stream_assembler.py:26-139 | text and reasoning events spell the two texts; one tool event per part, in order, with the last id and name and all fragments of its index so far; then one final event with the payload of `PayloadMeans` |
| `StreamAssembler.PayloadMeans` | tools/agent_core/normalization/stream_assembler.py:142-190 | content is all text; one call per index seen, ascending, with its concatenated fragments, its last non-empty name and its last id, none when that is empty; first model and id, last usage and finish reason, with their defaults |
| `StreamAssembler.ChunksMean` | tools/agent_core/normalization/stream_assembler.py:40-72 | which chunks count: those of the data lines, in order, up to the first end marker |
| `StreamAssembler.DeltasGrow` | tools/agent_core/normalization/stream_assembler.py:101-124 | the arguments told for an index are growing prefixes of the final ones |
| `StreamAssembler.LastDeltaIsFinal` | tools/agent_core/normalization/stream_assembler.py:101-124 | the last event of an index tells its final slot |
| `StreamAssembler.ArgumentsAreFragments` | tools/agent_core/normalization/stream_assembler.py:101-124 | an index's arguments are its fragments in arrival order |
| `StreamAssembler.CallsAreOrdered` | tools/agent_core/normalization/stream_assembler.py:142-184 | the calls are the indices seen, each once, in increasing order, each with the fragments, name and id of its own parts |
| `StreamAssembler.HeadersFromChunks` | tools/agent_core/normalization/stream_assembler.py:26-139 | model and id come from the first chunk that has them, usage and finish reason from the last |
| `StreamAssembler.InterleavingIrrelevant` | tools/agent_core/normalization/stream_assembler.py:26-184 | streams with the same text and the same parts per index have the same payload |
| `StreamTextMerge.MergeStreamText` | tools/agent_core/normalization/stream_text_merge.py:12-36 | the descending search finds the merge of the specification |
| `StreamTextMerge.SharedText` | tools/agent_core/normalization/stream_text_merge.py:23-36 | an overlap in characters: the end of the one text is the beginning of the other, a proper part of both, one character only between short texts |
| `StreamTextMerge.MergePrefixes` | tools/agent_core/normalization/stream_text_merge.py:12-36 | when one text begins with the other the longer is the result |
| `StreamTextMerge.MergeExtends` | tools/agent_core/normalization/stream_text_merge.py:12-36 | the result extends the normalised previous text |
| `StreamTextMerge.MergeDropsLargestOverlap` | tools/agent_core/normalization/stream_text_merge.py:23-36 | in the overlap case exactly the largest admissible overlap is dropped, and the chunk can be read at the end |
| `StreamTextMerge.MergeAppendsIff` | tools/agent_core/normalization/stream_text_merge.py:12-36 | plain appending happens exactly when nothing is shared |
| `StreamTextMerge.NothingLostIff` | tools/agent_core/normalization/stream_text_merge.py:12-36 | a stream of increments arrives complete exactly when each chunk shares nothing with all the text before it |
| `StreamTextMerge.RepeatedIncrementIsLost` | tools/agent_core/normalization/stream_text_merge.py:12-36 | an increment that is lost |
| `StreamTextMerge.MergingToIncremental.Consume` | tools/agent_core/normalization/stream_to_incremental.py:55-68 | the channel's total becomes the merge, the other stays, and what is emitted turns the old total into the new one |
| `StreamTextMerge.EmitMeans` | tools/agent_core/normalization/stream_to_incremental.py:55-68 | nothing is sent exactly for an unchanged total, an increment is exactly the new end, a snapshot is the total when it does not extend the old one |
| `StreamTextMerge.NoSnapshotOfNormal` | tools/agent_core/normalization/stream_to_incremental.py:55-68 | no snapshot is sent as long as normalising leaves the total alone |
| `StreamTextMerge.ClientHoldsTotal` | tools/agent_core/normalization/stream_to_incremental.py:41-68 | after any chunks on both channels a client that appends increments and replaces on snapshots holds the total |
| `StreamTextMerge.ChannelsAreIndependent` | tools/agent_core/normalization/stream_to_incremental.py:41-68 | a channel's total depends on its own chunks only |
| `StreamTextMerge.SnapshotsEndWithLast` | tools/agent_core/normalization/stream_to_incremental.py:41-68 | growing snapshots end with exactly the last one |
| `TraceFraming.TraceClient.OnData` | desktop/src/main/traceSocketPool.ts:56-74 | broadcasts the rows of the complete lines and keeps what follows the last newline |
| `TraceFraming.BroadcastOnce` | desktop/src/main/traceSocketPool.ts:56-74 | each line that parses is broadcast once, in the place given by the lines before it that parse, and nothing else is |
| `TraceFraming.LinesSplit` | desktop/src/main/traceSocketPool.ts:56-74 | lines of a text read in two pieces |
| `TraceFraming.ChunkingIndependent` | desktop/src/main/traceSocketPool.ts:56-74 | any chunking broadcasts the rows of the whole text and leaves the same buffer |
| `TraceFraming.LinesRestore` | desktop/src/main/traceSocketPool.ts:56-74 | the text is its lines, each ended by a newline, and the buffer |
| `TraceFraming.LinesHoldNone` | desktop/src/main/traceSocketPool.ts:56-74 | neither lines nor buffer hold a newline |
| `RuntimeContract.CheckedTextsAreRuns` | tools/agent_core/runtime/agent_memory_runtime_contract.py:197-218 | texts beginning with start pass the check step by step exactly when they name the states of a run |
| `RuntimeContract.CheckMeans` | tools/agent_core/runtime/agent_memory_runtime_contract.py:197-218 | two texts pass exactly when, blanks aside, they name states of which the second may follow the first; unknown exactly when one of them names none |
| `RuntimeContract.Successors` | tools/agent_core/runtime/agent_memory_runtime_contract.py:60-94 | the states that may follow each state |
| `RuntimeContract.TailsAreTerminal` | tools/agent_core/runtime/agent_memory_runtime_contract.py:60-94 | once blocked a run stays blocked, and finish can only be last |
| `RuntimeContract.RunLengthBound` | tools/agent_core/runtime/agent_memory_runtime_contract.py:60-94 | a run with t plan visits has at most 4t + 4 states before a blocked tail |
| `RuntimeContract.RunLengthBoundIsTight` | tools/agent_core/runtime/agent_memory_runtime_contract.py:60-94 | for every t a finishing run reaches the bound |
| `RuntimeContract.FinishedRunsPassedAllStages` | tools/agent_core/runtime/agent_memory_runtime_contract.py:197-218 | a finished run passed the frontier, then a plan, then the finish decision just before |
| `RuntimeContract.JsonExtractObject` | tools/agent_core/runtime/agent_memory_runtime_contract.py:383-396 | returns the balanced piece at the first brace, or there is none |
| `RuntimeContract.DepthCounts` | tools/agent_core/runtime/agent_memory_runtime_contract.py:383-396 | the depth is the number of opening braces less that of closing ones |
| `RuntimeContract.ExtractUnwraps` | tools/agent_core/runtime/agent_memory_runtime_contract.py:383-396 | an object wrapped in prose without an earlier brace is the only balanced piece |
| `RuntimeContract.CanonicalizationAcceptsIff` | tools/agent_core/runtime/agent_memory_runtime_contract.py:358-380 | a command-like object is accepted exactly when it validates with its schema version put right |
| `RuntimeContract.ParsePipelineText` | tools/agent_core/runtime/agent_memory_runtime_contract.py:399-436 | the lenient reading of an answer, through the extracted object |
| `RuntimeContract.StrictImpliesLenient` | tools/agent_core/runtime/agent_memory_runtime_contract.py:399-461 | what the strict reading accepts the lenient one returns unchanged |
| `RuntimeContract.LenientCommandsAreWhole` | tools/agent_core/runtime/agent_memory_runtime_contract.py:399-436 | a command returned by the lenient reading is a whole valid envelope |
| `RuntimeContract.PayloadRulesApplyIff` | tools/agent_core/runtime/agent_memory_runtime_contract.py:310-355 | every payload accepted in an envelope follows its command's rules exactly when the command's name has no blanks around it |
| `RuntimeContract.PaddedCommandSkipsPayloadRules` | tools/agent_core/runtime/agent_memory_runtime_contract.py:310-355 | a padded command name is accepted with any payload |
| `ToolMessages.SanitizeForOpenAiTools` | tools/ailit/tui_chat_controller.py:44-73 | the loop computes the specified filter |
| `ToolMessages.KeptIff` | tools/ailit/tui_chat_controller.py:44-73 | kept are the other messages and exactly the tool messages separated only by tool messages from an assistant that issued their id |
| `ToolMessages.TuiFilterIdempotent` | tools/ailit/tui_chat_controller.py:44-73 | a second pass changes nothing |
| `ToolMessages.SanitizeToolMessages` | tools/agent_core/normalization/openai_request.py:15-38 | the loop computes the specified request filter |
| `ToolMessages.SentIff` | tools/agent_core/normalization/openai_request.py:15-38 | sent, in order, is every message but the tool messages with an id that no assistant before them issued |
| `ToolMessages.RequestFilterFixesTuiOutput` | tools/agent_core/normalization/openai_request.py:15-38 | the request filter is the identity on what the UI filter lets through |
| `ToolMessages.RequestFilterCleanIff` | tools/agent_core/normalization/openai_request.py:15-38 | its result has no orphan exactly when no tool message lacked an id |
| `ToolMessages.MessagesToJsonable` | tools/ailit/tui_message_codec.py:10-23 | one row per message, without tool calls |
| `ToolMessages.MessagesFromJsonable` | tools/ailit/tui_message_codec.py:26-42 | one message per row |
| `ToolMessages.RestoredChat` | tools/ailit/tui_context_persistence.py:60-116 | what comes back of a chat are its non-tool messages with their calls erased |
| `ToolMessages.SurvivorsStable` | tools/ailit/tui_context_persistence.py:31-116 | a second save and load changes nothing more |
| `TuiState.TuiContextManager.constructor` | tools/ailit/tui_context_manager.py:93-105 | one context at the resolved root; the manager's invariant holds from the start |
| `TuiState.TuiContextManager.NewContext` | tools/ailit/tui_context_manager.py:139-162 | succeeds exactly for a valid new name, keeps the others and the manager's invariant |
| `TuiState.TuiContextManager.RenameActive` | tools/ailit/tui_context_manager.py:174-196 | runtime and draft move to the new name, everything else stays, a failed rename changes nothing |
| `TuiState.TuiContextManager.ActivateNext` | tools/ailit/tui_context_manager.py:198-205 | the next name of the sorted cycle becomes active |
| `TuiState.NextIsSuccessor` | tools/ailit/tui_context_manager.py:198-205 | the next context is the first name after the active one, or the first of all after the last |
| `TuiState.NextPrevInverse` | tools/ailit/tui_context_manager.py:198-214 | forth and back, in either order, is the same context |
| `TuiState.CycleVisitsAll` | tools/ailit/tui_context_manager.py:198-205 | stepping forward reaches every context within one cycle |
| `TuiState.TuiContextManager.ReplaceFromSerialized` | tools/ailit/tui_context_manager.py:246-258 | the runtimes are installed and the wanted name becomes active, or the first by name when there is none |
| `TuiState.SaveAppState` | tools/ailit/tui_context_persistence.py:31-57 | the payload holds one block per context, by name |
| `TuiState.LoadAppState` | tools/ailit/tui_context_persistence.py:60-116 | fails exactly for another version or when nothing can be restored; restores every named block; the saved name is active, or the first by name |
| `TuiState.RestoredNames` | tools/ailit/tui_context_persistence.py:60-116 | a name is restored exactly when it is not blank and a block has it, from the last such block |
| `TuiState.RevivedMeans` | tools/ailit/tui_context_persistence.py:60-116 | what a block restores, field by field, with the defaults for what it leaves out |
| `TuiState.LoadedIsSane` | tools/ailit/tui_context_persistence.py:60-116 | every loaded context has a stripped name that its profile knows, an agent id and a resolved root |
| `TuiState.SaveThenLoad` | tools/ailit/tui_context_persistence.py:31-116 | the same names, profiles, usage totals and active name, every chat without tool messages and calls |
| `ShellSessions.ShellSessionManager.Cleanup` | tools/agent_core/shell_session.py:177-189 | the two loops drop the dead and the idle and dispose of the idle |
| `ShellSessions.ShellSessionManager.GetOrCreate` | tools/agent_core/shell_session.py:212-233 | the specified step; a live process under the key, unless the bound is below one |
| `ShellSessions.ShellSessionManager.NextNumber` | tools/agent_core/shell_session.py:205-210 | one more than the key's last number |
| `ShellSessions.RunValid` | tools/agent_core/shell_session.py:162-233 | over every run the table stays within its bound, has no key or process twice, and holds every process that still runs |
| `ShellSessions.CleanupKeepsIff` | tools/agent_core/shell_session.py:177-189 | kept is exactly what runs and was not idle for too long |
| `ShellSessions.VictimIsLeastRecentlyUsed` | tools/agent_core/shell_session.py:223-229 | there is a victim only in a full table, and it was used longest ago |
| `ShellSessions.LastUseMeans` | tools/agent_core/shell_session.py:48-90 | a process is last used at its start and from then on at its last command that found it running; nothing else moves that moment |
| `ShellSessions.RunOpMeans` | tools/agent_core/shell_session.py:85-160 | a command ends its process exactly when it is killed, and changes neither the table nor another process |
| `ShellSessions.SettleRemovesOnly` | tools/agent_core/shell_session.py:212-233 | which entries stay, in both directions |
| `ShellSessions.SessionsAreSticky` | tools/agent_core/shell_session.py:212-222 | a key in use is answered with its own process, nothing is started or evicted |
| `ShellSessions.NumberingStep` | tools/agent_core/shell_session.py:191-229 | numbers start over only at a reset, an eviction or disposing of everything |
| `ShellSessions.NumbersAreConsecutive` | tools/agent_core/shell_session.py:205-210 | between those, the numbers handed out follow on each other without gap or repetition |
| `ShellSessions.NumbersStartAtOne` | tools/agent_core/shell_session.py:198-210 | after one of those they are 1, 2, 3, … |
| `TokenEconomy.MergeEventsIntoCumulative` | tools/ailit/token_economy_aggregates.py:94-265 | every counter grows by the sum over the rows, every breakdown by its occurrences, and breakdowns grow by what their counter does |
| `TokenEconomy.RowGain` | tools/ailit/token_economy_aggregates.py:94-265 | a log of one row gives each counter that row's amount |
| `TokenEconomy.PagerAmounts` | tools/ailit/token_economy_aggregates.py:103-114 | pages created and used, and the bytes a page leaves out when its sizes make sense |
| `TokenEconomy.BudgetAmounts` | tools/ailit/token_economy_aggregates.py:115-122 | budget rows, and what they cut off unless the total grew or is negative |
| `TokenEconomy.PruneAmounts` | tools/ailit/token_economy_aggregates.py:123-131 | prune passes, pruned tools and freed bytes |
| `TokenEconomy.CompactionAmounts` | tools/ailit/token_economy_aggregates.py:132-138 | restored files and injected characters |
| `TokenEconomy.ExposureAmounts` | tools/ailit/token_economy_aggregates.py:139-158 | exposures of either kind with their schema characters and savings |
| `TokenEconomy.ReadAmounts` | tools/ailit/token_economy_aggregates.py:172-183 | file reads, range reads and repeated reads |
| `TokenEconomy.TallyAmount` | tools/ailit/token_economy_aggregates.py:157-264 | each of the twelve counters of rows gets one from a row of its kind |
| `TokenEconomy.BreakdownGains` | tools/ailit/token_economy_aggregates.py:184-264 | a breakdown counts the rows of its kind by name, `unknown` when they have none |
| `TokenEconomy.ModeMeans` | tools/ailit/token_economy_aggregates.py:157-163 | the last mode is the last one enforced that is not blank, without blanks around it |
| `TokenEconomy.AccumulatesConcat` | tools/ailit/token_economy_aggregates.py:94-265 | two parts of a log one after the other are the whole log |
| `TokenEconomy.OrderIrrelevant` | tools/ailit/token_economy_aggregates.py:94-265 | all counters and breakdowns are the same for any order of the rows |
| `TokenEconomy.LastModeOrderFreeIff` | tools/ailit/token_economy_aggregates.py:157-163 | the last mode is independent of the order exactly when all modes agree |
| `TokenEconomy.BreakdownsAddUp` | tools/ailit/token_economy_aggregates.py:184-264 | the entries of a breakdown add up to its counter |
| `TokenEconomy.AccumulatingStaysSensible` | tools/ailit/token_economy_aggregates.py:172-183 | range reads and repeated reads stay within the reads |
| `TokenEconomy.DisplayStaysSensible` | tools/ailit/token_economy_aggregates.py:285-318 | so they do after the merge for display |
| `TokenEconomy.DisplayedCounter` | tools/ailit/token_economy_aggregates.py:285-318 | every counter that either log has is shown with the larger of its numbers; the live mode wins |
| `TokenEconomy.DisplayedBreakdown` | tools/ailit/token_economy_aggregates.py:285-318 | but for the accesses by tool the live breakdown is shown where there is one |
| `TokenEconomy.DisplayedAccesses` | tools/ailit/token_economy_aggregates.py:285-318 | of the accesses by tool the larger number is shown for every tool that either log has |
| `TokenEconomy.DisplayedAccessesAddUpIff` | tools/ailit/token_economy_aggregates.py:285-318 | the merged accesses by tool add up exactly when one side dominates, and otherwise exceed the total |
| `TokenEconomy.DisplayedBreakdownsAddUpIff` | tools/ailit/token_economy_aggregates.py:285-318 | the other breakdowns add up exactly when the live counter is at least the filed one, and otherwise fall short |
| `TokenEconomy.ScoreAtMostHundred` | tools/ailit/token_economy_aggregates.py:361-401 | the raw score of sensible counters is at most 100 |
| `TokenEconomy.DisplayedScoreAtMostHundred` | tools/ailit/token_economy_aggregates.py:361-401 | so is that of any two logs, accumulated and merged |
| `TokenEconomy.HundredIsReached` | tools/ailit/token_economy_aggregates.py:361-401 | a log that, accumulated, displayed and scored, reaches the bound |
| `TokenEconomy.StartingScore` | tools/ailit/token_economy_aggregates.py:361-401 | before anything happened the score is 24 |
| `TokenEconomy.LayersUndershoot` | tools/ailit/token_economy_aggregates.py:894-900 | the sum of the rounded layers falls short of the rounded sum by 0 to 2, as the remainders say |
| `WorkflowTrace.IterRunEvents` | tools/workflow_engine/engine.py:103-276 | the trace reads back as the header, stages, gates and tasks of the workflow, each with its own mode; one session per executed task, answers reported in order |
| `WorkflowTrace.CliReachesFirstOnly` | tools/workflow_engine/engine.py:222-228 | the CLI body opens the first message and reaches no other |
| `WorkflowTrace.ModesStayLocal` | tools/workflow_engine/engine.py:188-195 | another mode for one changes that session only |
| `WorkflowTrace.ModeNames` | tools/agent_core/session/perm_tool_mode.py:96-102 | the four names mean themselves in any case and with blanks around them, every other text means explore |
| `WorkflowTrace.ModeMeans` | tools/workflow_engine/engine.py:148-195 | a task's own mode counts unless it is blank, then that of the run, then edit |
| `WorkflowTrace.CallMeans` | tools/workflow_engine/engine.py:188-240 | system prompts, mode and user text of each session, the CLI body in the first only |
| `WorkflowTrace.ShapesMean` | tools/workflow_engine/engine.py:160-260 | what the trace tells of each stage and task: id, gate, mode, bypass and whether it ran |
| `WorkflowTrace.FirstMessageHoldsBoth` | tools/workflow_engine/user_task_merge.py:4-12 | the merged message is the stripped body and, below a rule, the stripped own text, or the body alone when that is blank |
| `WorkflowTrace.ReadingIsExact` | tools/workflow_engine/engine.py:121-276 | an accepted trace is, up to the answers, the rendering of its reading |
| `WorkflowTrace.DecodesUniquely` | tools/workflow_engine/engine.py:121-276 | traces with the same reading differ at most in the answers |
| `WorkflowTrace.FinishedLength` | tools/workflow_engine/engine.py:121-276 | the length is 3, one for a run id, and per stage two, its gate and two per task |
| `ConflictSuffix.NormalizedShape` | tools/agent_core/legacy/semantic_c_extraction.py:87-92 | a key has only safe characters, no two underscores in a row, none in front, and 1 to 512 characters |
| `ConflictSuffix.CleaningKeepsLetters` | tools/agent_core/legacy/semantic_c_extraction.py:87-92 | cleaning loses no safe character and keeps their order; only underscores come and go |
| `ConflictSuffix.NormalizeIdempotentIff` | tools/agent_core/legacy/semantic_c_extraction.py:87-92 | normalising again changes nothing exactly when the cut leaves no underscore at the end |
| `ConflictSuffix.NormalizeNotIdempotent` | tools/agent_core/legacy/semantic_c_extraction.py:87-92 | a proposal for which it does |
| `ConflictSuffix.WithConflictSuffix` | tools/agent_core/legacy/semantic_c_extraction.py:94-105 | the loop ends after fewer than as many suffixes as there are keys, with the first candidate that is free |
| `ConflictSuffix.CandidatesDiffer` | tools/agent_core/legacy/semantic_c_extraction.py:100-104 | the texts tried are pairwise different |
| `ConflictSuffix.DigitsMean` | tools/agent_core/legacy/semantic_c_extraction.py:100-104 | suffix numbers are decimal digits without a zero in front |
| `ConflictSuffix.TakenCandidatesFit` | tools/agent_core/legacy/semantic_c_extraction.py:94-105 | a finite set holds only so many of them |
| `ConflictSuffix.AssignedKeysDistinct` | tools/agent_core/legacy/semantic_c_extraction.py:94-105 | keys given one after the other differ from each other and from those that were there |
| `ConflictSuffix.AssignmentExists` | tools/agent_core/legacy/semantic_c_extraction.py:94-105 | any proposals can be given keys |
| `ConflictSuffix.AssignmentUnique` | tools/agent_core/legacy/semantic_c_extraction.py:94-105 | in one way only |

## Left out

- SQLite, YAML and JSON text, files, sockets, processes and threads: tables are maps, JSON is a datatype, liveness and the clock are inputs, locked handlers are single steps.
- Text search with FTS5 and its index; the LIKE clause of `search` is a predicate parameter.
- Hashes, NFC and regular expressions other than those of key normalisation: functions with the properties used (truncated digests have 16 printable characters, edge ids tell their parts apart, NFC is idempotent, a resolved path is not empty and resolves to itself).
- `index_project` and the walk over directories, ignore rules and the decomposition service: what is found at a path is an input; which paths are text and which are never segmented are two functions of the path.
- Pending link claims of the graph store, and the lists of recent rows in both stores.
- The desktop client keys nodes and links by id over all namespaces; the replica models one namespace at a time.
- The loading loop of the desktop client also drops rows with an empty or a repeated id and stops at a failed slice; the rows are assumed not to change between pages.
- Cancelling and finishing a chat turn, and the fields of an execution record that neither copy compares.
- Which configuration keys may be set, and how their texts become values; YAML aliases, by which one dictionary could hang in two places.
- The normalisation of the assembled payload after the stream ends.
- Provider, presenter and prompt texts; the sessions behind workflow tasks and the change lists taken from their events.
- An exception inside a session, which would end a workflow trace early.
- Killing a process is instantaneous in `ShellSessions`; starting one never fails.
- TokenEconomy.MergeEventsIntoCumulative: the event types are constructors, not texts, and numbers are already read as integers.
- TokenEconomy.ScoreAtMostHundred: arithmetic is exact, so nothing is said about rounding to a whole score.
- ChatWorker.TimelineSimulatesStore: for runs without execution records, which may pop rows and store another output; `AgreementFromRecordOn` says what holds from a record on.
