# BrainFlow: verified model of merge, workflow kernel, graph views and sync

A Dafny model of the parts of BrainFlow whose correctness is not visible from reading one function, with machine-checked proofs.
`dafny verify dfyconfig.toml` checks everything. Four components are modelled; `Wrappers`, `Sequences` and `Digraph` are shared.

**Three-way merge** (`crates/sync/src/merge.rs`): `Lcs`, `BlockMerge`, `BlockOrder`, `TextBlocks`, `MarkdownMerge`, `MarkdownMeaning` for
Markdown; `Ordering`, `JsonMerge`, `JsonMergeLaws`, `JsonMeaning`, `JsonIdLaws`, `JsonDisjointEdits`, `JsonMergeLoops` for JSON. Objects
are maps; the merge walks their keys in ascending order, as the sorted maps of the source do.

**Workflow kernel** (`executor.py`, `policy_gate.py`, `crates/policy`): `CycleGate`, `Topo`, `KahnOrder`, `Workflow`, `Permissions`,
`Reachability`, `PolicyGate`, `GateComparison` for admission and ordering; `RunModel`, `RunFates`, `RunLedger`, `RunSuccess`, `RunLaws`,
`RunSafety`, `RunSilence`, `RunOrder`, `RunReplay`, `RunReplayLimits`, `DagExecutor` for execution. A workflow is read from JSON scalars
by each gate as its language reads them: Python's `str` and `int`, Rust's `as_str` and `as_u64`. Handlers and the approval callback are
arbitrary functions that answer with a result or an exception and may ask for cancellation.

**Graph views** (`pathTracing.ts`, `collapse.ts`, `lod.ts`, `crates/graph`): `PathTracing`, `GraphModel`, `Outline`, `Quotient`,
`Collapse`, `Cluster`, `ViewOrder`.

**Sync state machine** (`state.rs`, `recovery.rs`, `queue.rs`): `SyncModel`, `SyncLaws`, `SyncRuns`, `SyncEnds`, `SyncQueue`,
`SyncEngine`. A call leaves a trace of all writes and of the start of every git operation; a crash cuts a trace at any point. The journal
is replaced as a whole; queue and history are rewritten in place, so that a trace also passes through the moment when such a file reads as
empty. Every outcome of git, validation and file writing, including writes that fail at once or half-way, is a parameter.

Code that works by changing things step by step is a method with loops, or a class with fields (`CycleGate.CycleChecker`,
`DagExecutor.RunState`, `DagExecutor.Executor`, `SyncEngine.Store`, `SyncEngine.Engine`); each such method is proved equal to a
specification function, and the properties are lemmas about that function.

## What the proofs found

Each item is a lemma with a concrete instance, an exact condition, or both.

- The cycle check of both gates can accept a cycle through a node without a review loop, depending on the order in which the node set
  happens to be iterated (`CycleGate.UnboundedCycleCanPass`), although `docs/WORKFLOW_IR.md` and the comment in `crates/policy/src/lib.rs`
  promise that it is rejected. It accepts in every order if and only if every node of every cycle carries a review loop
  (`CycleGate.AcceptsAnyOrderIff`), and rejects in every order that starts at a node that breaks this (`CycleGate.LooplessStartRejects`).
  What one acceptance does guarantee is `CycleGate.GateIsSound`.
- The two gates disagree in both directions. A workflow that the host accepted is accepted by the worker in every order if and only if
  Python finds both budgets within their caps and every node of every cycle carries a review loop
  (`GateComparison.HostAcceptanceCarriesOverIff`). It need not be: the gates may iterate in different orders
  (`GateComparison.OrderSplitsTheGates`), read a budget given as a text (`GateComparison.TextBudgetSplitsTheGates`), or read an edge end
  given as a number (`GateComparison.NumberedEndSplitsTheGates`) differently. What the worker accepts, the host accepts in the same order
  if and only if it finds no fault of its own (`GateComparison.HostAcceptsIff`), which it can (`GateComparison.LoopedIslandSplitsTheGates`).
  Their path checks differ exactly below the run directory (`Permissions.ChecksDifferOnRuns`).
- A handler that raises an exception with an empty message leaves its node unfinished, and the run still reports success
  (`RunOrder.SilentFailureReportsSuccess`). Which nodes a successful run leaves unfinished is told from handlers, approvals and the run
  state before it (`RunSilence.SuccessIsIncompleteIff`, and `RunSilence.MuteNodesStayUnfinished` for handlers fixed per node).
- A run that is denied an approval and then resumed with it ends like a run approved at once if the nodes it passed over on the way got no
  attempt and find no cached result. Otherwise they are tried again, at the cost of steps, or succeed from the cache, and the ends differ
  (`RunReplay.ResumeEquivalence`, both directions; an instance is `RunReplayLimits.PassedOverIsRetried`). Only a step budget that stops both
  runs can hide this, and only after an earlier execution left nodes marked as running (`RunReplayLimits.BudgetHidesTheRetry`).
- The step budget is overshot by up to the retries of one node (`RunOrder.StepBoundIsTight`). A saved run loses its cache
  (`RunOrder.SaveLoadLosesOnlyCache`).
- In a clean JSON merge a field that both sides add with different values silently takes the local value; the two merge orders
  agree if and only if that does not happen (`JsonMergeLaws.SwapGivesSameValue`). One side alone cannot delete a field
  (`JsonIdLaws.FieldsSurvive`), a collection with an item that has no id reads as empty (`JsonIdLaws.UnidentifiedReadsAsEmpty`), and
  an item can change its identity in a clean merge (`JsonIdLaws.ItemIdCanChange`); it keeps it if and only if the first id key at which
  a text survives gives it (`JsonIdLaws.ItemKeepsIdIff`).
- Edge keys of the group view collide when ids contain bars (`Quotient.BarKeyCollision`); the edges are exact if and only if keys
  tell the edges apart (`Quotient.KeptAreExactlyTheImages`, `Collapse.EdgesAreExactImages`). A collapsed group with the empty id leaves
  dangling edges (`Collapse.EmptyGroupIdDangles`), and nothing else does (`Collapse.EdgesStayListedIff`). Every remaining edge but the
  first is renamed, and two edges can get the same id (`Collapse.EdgeIdsCanClash`); `Collapse.EdgeIdsDifferIff` says when.
- A text split into blocks and written back can split differently when a carriage return is left before a newline
  (`TextBlocks.SplitIsStableIff`).
- `docs/GITHUB_SYNC.md` lets a failed validation lead to a conflict; the code goes to an error state that does not block the next
  cycle (`SyncRuns.InvalidResultIsNotHeld`, read off the definition). The model follows the code.
- A cycle enters safe mode exactly for an unsafe repository (`SyncEnds.EntersSafeModeIff`), and that survives a restart if and only if its
  journal write succeeded (`SyncRuns.SafeModeHoldsIff`, `SyncEnds.UnsafeRepositoryHoldsIff`). Resolving conflicts is not
  journaled, and a resolution whose push fails forgets the conflict at the next change in the vault
  (`SyncRuns.ResolutionIsUnjournaled`; `SyncRuns.ResolutionKeepsConflictIff` and `SyncRuns.FailedPushForgetsConflict` read this off the
  definitions).
- Every cycle that queues a commit passes through a moment at which a crash loses all commits queued before, because the queue file is
  rewritten in place (`SyncQueue.PuttingOffCanLoseTheQueue`); a crash at any other moment keeps them (`SyncQueue.CrashKeepsQueueIff`).
- A vault closed while debouncing reopens in that state without a deadline and waits for another change
  (`SyncRuns.ReopenedDebounceWaits`).

## Model

| member | source | states |
|---|---|---|
| Lcs.LcsIsOptimal | crates/sync/src/merge.rs:163-192 | the pairs are strictly increasing in both indices, join equal blocks, and no common subsequence is longer |
| Lcs.LcsBoundsEmbeddings | crates/sync/src/merge.rs:163-192 | no block list embedded in both sides is longer than the number of pairs |
| Lcs.LcsEndsLatest | crates/sync/src/merge.rs:163-192 | of the longest common subsequences the one found ends as late in the side as any can, and those before its last pair are found in the same way among the blocks before it |
| Lcs.LcsIndexPairs | crates/sync/src/merge.rs:163-192 | the table and the in-place traceback compute such a longest common subsequence |
| BlockMerge.AlignToBaseAligns | crates/sync/src/merge.rs:154-161 | a base block is aligned with a side block exactly when the longest common subsequence pairs them; no side block is used twice |
| BlockMerge.AlignSide | crates/sync/src/merge.rs:154-161 | the filling loop produces that alignment |
| BlockMerge.MergeConservesBlocks | crates/sync/src/merge.rs:69-139 | exact conservation: both sides' blocks, with one copy in place of two for each base block both kept and each remote block mirrored by a local insert |
| BlockMerge.MergeKeepsEverything | crates/sync/src/merge.rs:69-139 | every block value occurs in the merge at least as often as in local and as in remote |
| BlockMerge.MergeLengthBound | crates/sync/src/merge.rs:69-139 | the merge is no longer than the two sides together |
| BlockMerge.MergeCleanIffSameKept | crates/sync/src/merge.rs:69-139 | the merge is clean if and only if both sides align the same base blocks; no block is ever marked as edited on both sides |
| BlockOrder.MergeOrder | crates/sync/src/merge.rs:69-139 | told by the common subsequences alone, the merge is three stretches: the base blocks that either side still pairs, each once, in base order, plain if both pair it and marked as kept by exactly the side that does; the blocks local adds, in local order; the blocks remote adds, in remote order, without the first place in remote of each block that local adds |
| BlockMerge.MergeBlocksLcs | crates/sync/src/merge.rs:69-139 | the merge loops over the output and the two flag arrays compute the merge whose order, markers and counts the lemmas above tell |
| TextBlocks.SplitJoinRoundTrip | crates/sync/src/merge.rs:194-223 | splitting joined blocks gives the blocks back if and only if each is solid and free of carriage returns before newlines, or there is one closed blank block |
| TextBlocks.SplitIsSolid | crates/sync/src/merge.rs:194-215 | splitting any text with a visible line yields blocks without blank lines that end in a visible character, all free of carriage returns before newlines exactly when no line before another visible line still ends in one |
| TextBlocks.SplitIsStableIff | crates/sync/src/merge.rs:194-223 | a text split, joined and split again gives the same blocks if and only if, with a visible line, no line before another visible line still ends in a carriage return, and without one, it is empty or ends in a newline |
| MarkdownMeaning.SplitKeepsVisible | crates/sync/src/merge.rs:194-215 | splitting keeps every visible character of any text, in order |
| MarkdownMeaning.JoinIs | crates/sync/src/merge.rs:217-223 | each block but the last is followed by exactly one blank line, the last by one newline if it has none |
| TextBlocks.SplitBlocks | crates/sync/src/merge.rs:194-215 | the line loop with its current block computes the split |
| MarkdownMerge.MergeMarkdownThreeWay | crates/sync/src/merge.rs:17-43 | the method computes that merge of texts: shortcuts, index alignment for equal lengths, LCS merge otherwise |
| MarkdownMeaning.OneSidedTextMerge | crates/sync/src/merge.rs:17-30 | a text that only one side changed, or both in the same way, is that side's text |
| MarkdownMeaning.AlignedTextMerge | crates/sync/src/merge.rs:17-66 | with as many blocks on all sides: a conflict exactly when some block was changed by both sides in different ways, which then stands there in both versions; otherwise the text of the changed blocks |
| MarkdownMeaning.AlongsideTextMerge | crates/sync/src/merge.rs:17-152 | with different numbers of blocks: a conflict exactly when the sides do not pair the same base blocks, and the blocks in the order of the three stretches either way |
| MarkdownMerge.MergeBlocksAligned | crates/sync/src/merge.rs:45-66 | the slot-wise merge of lists of equal length |
| MarkdownMerge.ConflictMeansMarked | crates/sync/src/merge.rs:45-139 | a conflict is reported if and only if some block carries markers |
| MarkdownMerge.CleanlinessIsSymmetric | crates/sync/src/merge.rs:17-152 | swapping local and remote never decides whether the merge is clean |
| MarkdownMerge.CleanMergeResplits | crates/sync/src/merge.rs:17-66 | a clean merge, written out and read back, gives exactly the merged blocks; local and remote are each empty, or have a visible line and no carriage return left before a newline inside a block |
| MarkdownMerge.RemergeIsStable | crates/sync/src/merge.rs:17-66 | merging a clean index-aligned result with the same remote over the same base again is clean and gives the same blocks; local and remote as before |
| JsonMerge.ArrayToIdMap | crates/sync/src/merge.rs:387-397 | the loop reads an array as items by id, a later item replacing an earlier one, and gives up when an item has no id |
| JsonMergeLaws.CleanIsSymmetric | crates/sync/src/merge.rs:237-474 | swapping local and remote never decides whether the recursive merge is clean |
| JsonMergeLaws.SwapGivesSameValue | crates/sync/src/merge.rs:237-474 | a clean merge gives the same value in both orders if and only if no object reached has a field, absent from the base, that the sides set differently |
| JsonMeaning.MergeCleanIff | crates/sync/src/merge.rs:237-474 | the merge is clean if and only if the versions are mergeable, told by recursion on the values alone: two are equal; or all are objects of which each field that all three hold and each collection is mergeable; or all are arrays of identified items that are mergeable |
| JsonMeaning.MergeMeans | crates/sync/src/merge.rs:237-474 | the merge yields a value without conflicts exactly for mergeable versions, and then the woven one and no other: what the side that changed something holds, and where both did, woven field by field, or item by item in ascending order of the ids |
| JsonMeaning.ConflictReports | crates/sync/src/merge.rs:237-474 | a conflict of objects or of arrays of identified items reports exactly the fields that are not mergeable and the ids in question; any other conflict keeps the local value and reports the root or the array |
| JsonMergeLaws.ObjectsClean | crates/sync/src/merge.rs:266-326 | an object merge is clean exactly when each collection and each plain field is; which fields and items are is told by `JsonMeaning.MergeCleanIff` |
| JsonMergeLaws.ObjectResult | crates/sync/src/merge.rs:266-326 | what the merged object holds at each key, collections first, then plain fields |
| JsonIdLaws.IdCollectionMerge | crates/sync/src/merge.rs:406-474 | ids ascend strictly; an id is listed exactly when a side has it and its own merge keeps an item; a clean result holds exactly the union of both sides' ids; one that is lost is reported |
| JsonIdLaws.KeyFate | crates/sync/src/merge.rs:406-474 | what becomes of one id in every combination of base, local and remote: clean, edited on both sides, edited against deleted, added on both sides, absent; with the flag each reports; which edits merge cleanly is told by `JsonMeaning.MergeCleanIff` |
| JsonIdLaws.ItemKeepsIdIff | crates/sync/src/merge.rs:379-385 | an item held by all three versions under one id keeps it if and only if two versions are equal or the first of the four id keys at which a text survives gives that id |
| JsonIdLaws.SameFirstKeyKeepsId | crates/sync/src/merge.rs:379-385 | it does keep it when all three versions hold it under the same first key |
| JsonIdLaws.ItemIdCanChange | crates/sync/src/merge.rs:379-385 | a clean merge after which an item goes by another id |
| JsonIdLaws.FieldsSurvive | crates/sync/src/merge.rs:266-377 | a clean object merge has a field exactly when either side still has it |
| JsonIdLaws.UnidentifiedReadsAsEmpty | crates/sync/src/merge.rs:280-300 | a collection in which an item has no id merges like an empty one |
| JsonIdLaws.DisjointObjectMerge | crates/sync/src/merge.rs:266-377 | disjoint edits of one flat object merge cleanly to the object that holds them all |
| JsonDisjointEdits.DisjointEditsCommute | crates/sync/src/merge.rs:237-474 | disjoint edits of a document with id collections merge cleanly, hold every edit of either side and every unchanged base value, and the order of the sides does not matter |
| JsonMergeLoops.MergeIdMaps | crates/sync/src/merge.rs:406-474 | the loop over all ids builds the merged items and the list of unresolved ids |
| JsonMergeLoops.MergePlainFields | crates/sync/src/merge.rs:302-326 | the loop over the plain keys adds the kept fields and lists the failed ones |
| JsonMergeLoops.MergeObjectsByKey | crates/sync/src/merge.rs:266-326 | collections and plain fields together give the object merge, whose value and conflicts `JsonMeaning.MergeMeans` and `JsonMeaning.ConflictReports` tell |
| CycleGate.GateIsSound | services/ai-worker/brainflow_worker/kernel/policy_gate.py:95-129 | accepted: every cycle has an arc between two nodes with review loops; rejected: every reported cycle is a closed walk with a node without one; for every order of trying the nodes |
| CycleGate.GateAcceptsIffAcyclic | services/ai-worker/brainflow_worker/kernel/policy_gate.py:104-129 | where no arc joins two nodes with review loops, the gate accepts exactly the acyclic graphs |
| CycleGate.GateAcceptsLoopedCycles | services/ai-worker/brainflow_worker/kernel/policy_gate.py:104-129 | where every node of every cycle has a review loop, the gate accepts |
| CycleGate.LooplessStartRejects | services/ai-worker/brainflow_worker/kernel/policy_gate.py:104-129 | an order that starts at a node without a review loop on some cycle leads to a rejection |
| CycleGate.AcceptsAnyOrderIff | services/ai-worker/brainflow_worker/kernel/policy_gate.py:104-129 | the gate accepts whatever the order if and only if every node of every cycle carries a review loop |
| CycleGate.UnboundedCycleCanPass | services/ai-worker/brainflow_worker/kernel/policy_gate.py:104-129 | a graph with a cycle through a node without review loop that is accepted in one order of the nodes and rejected in every order that starts at that node |
| CycleGate.CycleChecker.Visit | services/ai-worker/brainflow_worker/kernel/policy_gate.py:112-127 | the recursive search over the shared sets, stack and error list does exactly what the pure search does |
| CycleGate.CheckCycles | services/ai-worker/brainflow_worker/kernel/policy_gate.py:104-129 | the gate as a loop over all nodes, in some order |
| Workflow.EndpointNames | services/ai-worker/brainflow_worker/kernel/policy_gate.py:99-100 | an edge end is read as the one node that it names: the node's id, which holds no colon, alone or with a port after a colon |
| PolicyGate.LinksAreArrows | services/ai-worker/brainflow_worker/kernel/policy_gate.py:95-102 | the edges that either gate walks are exactly the pairs of declared nodes that some edge of the document names as source and target |
| PolicyGate.FaultsListed | services/ai-worker/brainflow_worker/kernel/policy_gate.py:78-93 | exactly the faults of the entries are reported: no object or no id, unknown class, unbounded review loop, strong tool under a class that applies automatically |
| PolicyGate.NeedsListed | services/ai-worker/brainflow_worker/kernel/policy_gate.py:82-86 | exactly the approvals are listed that some entry asks for by its class, legacy names replaced |
| PolicyGate.WorkerGate | services/ai-worker/brainflow_worker/kernel/policy_gate.py:70-142 | the worker's gate reports exactly its errors and the approvals needed, or raises exactly when Python cannot read a budget; when it accepts is told on the document by `PolicyGate.WorkerAlwaysAcceptsIff` |
| PolicyGate.AcceptedCyclesAreBounded | services/ai-worker/brainflow_worker/kernel/policy_gate.py:70-142 | in an accepted workflow every entry is fine, every review loop is bounded by 1 to 10 iterations, both budgets pass, and every cycle of the edges that the document names has an arc between two nodes with review loops |
| PolicyGate.WorkerAlwaysAcceptsIff | services/ai-worker/brainflow_worker/kernel/policy_gate.py:70-142 | the worker accepts a workflow in every order of its node set if and only if every entry is fine, both budgets pass, and every node of every cycle of the edges that the document names carries a review loop; told on the document |
| PolicyGate.LooplessGateAgreesWithOrdering | services/ai-worker/brainflow_worker/kernel/policy_gate.py:95-129 | without review loops the cycle check accepts exactly the workflows that Kahn's algorithm orders |
| PolicyGate.HostGate | crates/policy/src/lib.rs:223-691 | the host's gate reports exactly its errors, the approvals needed and what its root and reachability pass finds, and accepts when there is no error; when it does is told on the document by `GateComparison.HostAlwaysAcceptsIff` |
| GateComparison.HostAlwaysAcceptsIff | crates/policy/src/lib.rs:223-691 | the host accepts a workflow in every order of its nodes if and only if the schema is supported, every entry is fine, the budgets pass, every node of every cycle of the edges that the document names carries a review loop of 1 to 10 iterations, and every node is reached from a root, or there is no root and every node carries such a loop |
| Reachability.Reached | crates/policy/src/lib.rs:643-667 | the breadth-first loop finds exactly the nodes reachable from a root |
| Reachability.ReachabilityPass | crates/policy/src/lib.rs:609-685 | the pass reports exactly the missing root and the unreachable nodes |
| Reachability.AcyclicPassesReachability | crates/policy/src/lib.rs:609-685 | the pass never rejects an acyclic workflow |
| GateComparison.HostAcceptanceCarriesOverIff | crates/policy/src/lib.rs:223-691 | a workflow that the host accepted in some order is accepted by the worker in every order if and only if Python finds both budgets within their caps and every node of every cycle, edges read as Python reads them, carries a review loop; the approvals needed are the same |
| GateComparison.HostAcceptsIff | crates/policy/src/lib.rs:223-691 | in the same order, and when both read the edges alike, the host accepts and the worker's budgets pass if and only if the worker accepts and the host finds no fault in schema, entries and reachability |
| GateComparison.HostAlwaysImpliesWorkerAlways | crates/policy/src/lib.rs:223-691 | over all orders the host is the stricter gate, provided that both read edges and budgets alike |
| GateComparison.OrderSplitsTheGates | crates/policy/src/lib.rs:223-691 | a workflow that the host accepts in one order and the worker rejects in every order that starts at a certain node |
| GateComparison.TextBudgetSplitsTheGates | crates/policy/src/lib.rs:223-691 | any workflow the host accepts is, with a step budget over the cap given as a text, still accepted by the host and rejected by the worker in every order |
| GateComparison.NumberedEndSplitsTheGates | crates/policy/src/lib.rs:223-691 | a workflow with a number as the end of an edge that the host accepts and the worker rejects, both in every order |
| GateComparison.LoopedIslandSplitsTheGates | crates/policy/src/lib.rs:609-685 | a workflow accepted by the worker and rejected by the host, both in every order |
| Permissions.SafePathStaysInOverlay | services/ai-worker/brainflow_worker/kernel/policy_gate.py:35-49 | a path that either check accepts resolves, inside the vault, to a place below a managed directory |
| Permissions.PathPassesIff | services/ai-worker/brainflow_worker/kernel/policy_gate.py:35-49 | the worker lets a path pass if and only if, without its leading slashes and read with forward slashes, it begins with one of the five directories and nowhere has two dots between slashes or ends |
| Permissions.ChecksDifferOnRuns | crates/policy/src/lib.rs:165-203 | the path checks of worker and host differ exactly on clean paths below the run directory |
| Topo.TopoOrderIsTopological | services/ai-worker/brainflow_worker/kernel/executor.py:87-109 | the order lists every node once with every edge forward if and only if the graph is acyclic; otherwise it is the declaration order |
| KahnOrder.TopoOrderServes | services/ai-worker/brainflow_worker/kernel/executor.py:87-109 | of an acyclic workflow the nodes without predecessors come first, as they are declared; the others follow by the place of the last predecessor and, below one predecessor, by the last edge from it |
| Topo.CountIndegrees | services/ai-worker/brainflow_worker/kernel/executor.py:87-96 | the loop over the edges counts indegrees and collects successors |
| Topo.TopoLayers | services/ai-worker/brainflow_worker/kernel/executor.py:87-109 | the queue loop with falling indegrees computes that order |
| RunLaws.TryNodeIsOk | services/ai-worker/brainflow_worker/kernel/executor.py:223-268 | the retry loop of one node: calls counted as steps, at most one commit, artifact and token books exact, nothing else touched |
| RunFates.AttemptsAre | services/ai-worker/brainflow_worker/kernel/executor.py:223-278 | the retry loop makes as many attempts as deliver nothing and at most one more; how it ends, and the whole state then: no attempt left, told to stop, delivered, or over the token budget; told from the handler's replies and the tokens they spend |
| RunSuccess.FirstAttemptCommits | services/ai-worker/brainflow_worker/kernel/executor.py:160-267 | a visit that is not cancelled, done or cached, with budgets left and approved if need be, whose handler returns a result within the token budget and with no artifact or one it may write: the node succeeds with that result, the result is cached, the artifact recorded, a step and the tokens booked, and nothing else changes |
| RunSuccess.CachedNodeCommits | services/ai-worker/brainflow_worker/kernel/executor.py:212-221 | a visit whose result is cached succeeds without a call or a step |
| RunLaws.PassedOverIff | services/ai-worker/brainflow_worker/kernel/executor.py:223-278 | a node ends neither done nor failed exactly when it gets no attempt, or every attempt left fails, none but the last asks for cancellation and the last raises an empty message; told from the handler and the steps and tokens spent before |
| RunLaws.VisitNodeIsOk | services/ai-worker/brainflow_worker/kernel/executor.py:160-278 | one visit with budget, approval, cache and attempts keeps the same books |
| RunSafety.ExecuteIsOk | services/ai-worker/brainflow_worker/kernel/executor.py:134-290 | what one execution keeps, resumed or not, from any state that earlier ones can leave |
| RunLedger.ExecutionEnds | services/ai-worker/brainflow_worker/kernel/executor.py:134-290 | how an execution from any state ends, with its steps, tokens, files, artifacts, approvals and cache, told by an account of job and environment that knows no node states |
| RunLedger.OverBudgetIff | services/ai-worker/brainflow_worker/kernel/executor.py:174-188 | an execution fails for a budget if and only if by that account the budget is reached before a node, or overdrawn by a result |
| RunLedger.CancelledExecution | services/ai-worker/brainflow_worker/kernel/executor.py:124-156 | a cancelled run is executed no further |
| RunSuccess.SmoothRunSucceeds | services/ai-worker/brainflow_worker/kernel/executor.py:134-290 | a fresh run in which at each node the budgets have something left, the approval is granted if needed and the handler delivers at its first attempt succeeds, or needs a review when criteria are set and no artifact was written; every node has succeeded with its handler's result or from the cache, and one call was made for each node whose key no earlier node has |
| RunSafety.HistoryIsSafe | services/ai-worker/brainflow_worker/kernel/executor.py:124-290 | over any sequence of executions on any inputs, resumed or not, cancellations and reloads: steps equal handler calls and exceed the budget by at most the largest retry count, files equal recorded artifacts within their budget, an artifact outside the overlay takes an approval, success implies tokens within budget and an artifact where results are asked for, and no node is committed more often than the workflow was executed; while all executions resume, each node is committed at most once and every artifact is the output of a succeeded node |
| RunSafety.HistoryGrows | services/ai-worker/brainflow_worker/kernel/executor.py:124-290 | over such sequences, at any later time nothing recorded is gone, no handler starts after a cancel request, and cancelled stays cancelled; and succeeded nodes are as they were if all later executions resume |
| RunSafety.LastCallsAreSafe | services/ai-worker/brainflow_worker/kernel/executor.py:160-234 | every handler call of every execution, resumed or not: no cancel request pending, node not marked as succeeded, and approved in the same execution if it needs approval |
| RunSafety.ArtifactsStayInOverlay | services/ai-worker/brainflow_worker/kernel/executor.py:235-254 | while executions resume, every recorded artifact was written by a node that succeeded with it and that was approved if its class needs approval, and otherwise lies in the overlay; in any history an artifact outside the overlay takes an approval |
| RunSilence.VisitLeavesUnfinishedIff | services/ai-worker/brainflow_worker/kernel/executor.py:160-278 | a visit, resumed or not, lets the run go on with the node unfinished exactly when it gets as far as the handler, and the handler, asked with the steps and tokens spent so far, stays silent |
| RunSilence.SuccessIsIncompleteIff | services/ai-worker/brainflow_worker/kernel/executor.py:134-290 | a run that was executed to success, resumed or not, leaves a node unfinished if and only if it passes it over |
| RunSilence.MuteNodesStayUnfinished | services/ai-worker/brainflow_worker/kernel/executor.py:134-290 | with handlers fixed per node and cache keys of their own, a successful run leaves exactly the nodes unfinished that were not cached, not done before if it resumed, and whose handler raises an empty message or that get no attempt |
| RunOrder.ExecuteInOrder | services/ai-worker/brainflow_worker/kernel/executor.py:134-290 | on an acyclic workflow, in an execution that resumes or not, a handler starts only when every predecessor has succeeded or was passed over in the same execution, and when nothing was passed over success means that every node succeeded |
| RunOrder.HistoryInOrder | services/ai-worker/brainflow_worker/kernel/executor.py:40-290 | over every sequence of executions on any inputs, resumed or not, cancellations and reloads in which nothing is passed over: handlers start after their predecessors succeeded, and success means that every node succeeded |
| RunOrder.LoudNeverPassesOver | services/ai-worker/brainflow_worker/kernel/executor.py:223-278 | nothing is passed over when every node has an attempt and no handler raises an empty message |
| RunOrder.SilentFailureReportsSuccess | services/ai-worker/brainflow_worker/kernel/executor.py:266-290 | a run that reports success although its only node never succeeded |
| RunOrder.StepBoundIsTight | services/ai-worker/brainflow_worker/kernel/executor.py:174-232 | the step budget is exceeded by exactly the retries of a node |
| RunOrder.SaveLoadLosesOnlyCache | services/ai-worker/brainflow_worker/kernel/executor.py:40-70 | saving and loading gives a run back exactly when its cache is empty; otherwise only the cache is lost |
| RunReplay.ResumeEquivalence | services/ai-worker/brainflow_worker/kernel/executor.py:158-278 | handlers being fixed per node: a run stopped by a denied approval and resumed with approval ends with the same status, node states, outputs, cache, artifacts, budgets and error as one approved at once if no node passed over on the way got an attempt or finds a cached result; and only then, when no listed node was marked as running before or the step budget does not stop the run approved at once |
| RunReplayLimits.PassedOverIsRetried | services/ai-worker/brainflow_worker/kernel/executor.py:158-278 | a fresh run in which a node passed over before a denial is tried again: three steps instead of two |
| RunReplayLimits.BudgetHidesTheRetry | services/ai-worker/brainflow_worker/kernel/executor.py:158-278 | a run in which passed-over nodes are tried again and the step budget stops both runs in the same state |
| DagExecutor.RunState.CancelRun | services/ai-worker/brainflow_worker/kernel/executor.py:124-132 | cancelling sets the request and, unless the run is finished, the status, a missing error and one event |
| DagExecutor.RunState.Save | services/ai-worker/brainflow_worker/kernel/executor.py:40-53 | the saved form of a run |
| DagExecutor.Executor.TakeResult | services/ai-worker/brainflow_worker/kernel/executor.py:233-267 | spend tokens, check the path, record the artifact, commit the node; when a node is committed is told by `RunSuccess.FirstAttemptCommits` and `RunFates.AttemptsAre` |
| DagExecutor.Executor.Attempt | services/ai-worker/brainflow_worker/kernel/executor.py:223-269 | the retry loop over the mutable run state does what the specification says |
| DagExecutor.Executor.VisitOne | services/ai-worker/brainflow_worker/kernel/executor.py:160-278 | one node: skip, budget, approval, cache, attempts |
| DagExecutor.Executor.WalkNodes | services/ai-worker/brainflow_worker/kernel/executor.py:158-278 | the walk over the ordered nodes, ended by the first visit that halts the run |
| DagExecutor.Executor.ExecuteRun | services/ai-worker/brainflow_worker/kernel/executor.py:134-290 | one execution on the run state, final check included; how it ends is told by `RunLedger.ExecutionEnds` and `RunSuccess.SmoothRunSucceeds` |
| PathTracing.WalkBack | apps/desktop/src/graph/pathTracing.ts:44-55 | following the predecessor links and reversing gives a real path of the recorded length |
| PathTracing.TryBfs | apps/desktop/src/graph/pathTracing.ts:22-61 | a found trace is a real path and no walk is shorter; nothing found means nothing reachable |
| PathTracing.ShortestPath | apps/desktop/src/graph/pathTracing.ts:13-67 | a shortest directed path if there is one, else a shortest path ignoring direction; not found exactly when the nodes are not connected at all |
| PathTracing.NothingShorter | apps/desktop/src/graph/pathTracing.ts:22-61 | when the search reaches the target at one level, every walk to it is at least that long |
| GraphModel.Validate | crates/graph/src/lib.rs:242-264 | the loop reports the first edge with a missing end or an incompatible type, or nothing exactly when all edges are fine |
| GraphModel.EdgePassesIff | crates/graph/src/lib.rs:242-264 | an edge passes exactly when both its ends are ids of nodes, of types that its own type may join; of several nodes with one id the last counts |
| GraphModel.ProjectionIsJoined | crates/graph/src/lib.rs:308-384 | every view of a validated graph has edges between listed nodes only, and unique ids if the graph has |
| GraphModel.ProjectionIsExact | crates/graph/src/lib.rs:297-384 | a view shows, in the graph's order, exactly the nodes of its types and exactly the edges of its types between ids that it shows; the knowledge view shows everything |
| Outline.IndegreeZero | crates/graph/src/lib.rs:422-437 | the roots, counted as nodes of indegree zero, are exactly those to which no edge leads |
| Outline.ChildrenAt | crates/graph/src/lib.rs:422-428 | the children of a node are the targets of its edges, in their order |
| Outline.FinishedIsShortest | crates/graph/src/lib.rs:422-459 | when the queue is empty exactly the nodes reachable from a root are listed, each at its shortest distance |
| Outline.OutlineOf | crates/graph/src/lib.rs:422-472 | reached nodes followed by the others list every id once, with shortest depth and children, or depth zero and no children |
| Outline.ListReachable | crates/graph/src/lib.rs:422-459 | the breadth-first loop terminates although ids are queued repeatedly, and lists the reached nodes |
| Outline.OutlineFrom | crates/graph/src/lib.rs:422-472 | the outline of a view lists every id once with label, depth and children: first, breadth first from the roots in ascending order, the first of each id in line; then the nodes that no root reaches, as the view lists them |
| Quotient.KeptAreExactlyTheImages | apps/desktop/src/graph/collapse.ts:63-78 | contracting keeps exactly the images of the edges, loops dropped, if and only if the keys tell those images apart |
| Quotient.PathsSurvive | apps/desktop/src/graph/collapse.ts:59-78 | every path maps to a path between the images of its ends that is no longer |
| Quotient.BarKeyInjective | apps/desktop/src/graph/collapse.ts:69 | without bars in the ids the edge keys are unique |
| Quotient.BarKeyCollision | apps/desktop/src/graph/collapse.ts:69-70 | with bars two different edges share a key and the second is lost |
| Quotient.ArrowKeyInjective | apps/desktop/src/graph/lod.ts:98 | without the separators in ids and types the edge keys are unique |
| Collapse.NodesArePartitioned | apps/desktop/src/graph/collapse.ts:21-58 | for groups inferred from the nodes: ungrouped nodes are kept as they are, and each collapsed group in use becomes one node whose members are exactly that group's nodes |
| Collapse.MembersAreExact | apps/desktop/src/graph/collapse.ts:21-43 | a node is mapped to exactly the collapsed group it names |
| Collapse.DiscoveredGroupsAreExact | apps/desktop/src/graph/collapse.ts:83-97 | discovered groups have distinct ids, are not empty, and hold exactly the nodes that name them |
| Collapse.DiscoveredGroupsAreInferred | apps/desktop/src/graph/collapse.ts:21-35 | passing the discovered groups explicitly changes nothing |
| Collapse.ExplicitGroupsWin | apps/desktop/src/graph/collapse.ts:21-35 | explicit groups win over inferred ones, and the last explicit group with an id over the others |
| Collapse.ExplicitNodes | apps/desktop/src/graph/collapse.ts:36-58 | whatever the explicit groups: a node stays exactly when no group counts it as a member, and there is one synthetic node for each group, with the members that count |
| Collapse.EdgesAreExactImages | apps/desktop/src/graph/collapse.ts:59-78 | when some group is collapsed, the edges are images of the edges, loops dropped, no two with the same ends and type, and exactly all these images if and only if the keys tell them apart |
| Collapse.NoBarsKeepKeysApart | apps/desktop/src/graph/collapse.ts:63-78 | the keys do so when no id or group id contains a bar |
| Collapse.EdgesStayListedIff | apps/desktop/src/graph/collapse.ts:57-78 | where the keys tell edges apart, the edges of the collapsed view join listed nodes if and only if no edge that is not drawn into one group has an end in a collapsed group with the empty id |
| Collapse.KeptStayListedIff | apps/desktop/src/graph/collapse.ts:57-78 | the same for any keys, over the edges that are kept |
| Collapse.StaysListedIff | apps/desktop/src/graph/collapse.ts:57-62 | the node that stands for a listed node is listed if and only if that node is not in a collapsed group with the empty id |
| Collapse.EmptyGroupIdDangles | apps/desktop/src/graph/collapse.ts:57-62 | collapsing a group with the empty id leaves an edge whose end is not listed |
| Collapse.EdgeIdsDifferIff | apps/desktop/src/graph/collapse.ts:63-78 | different edge ids stay different if and only if no later surviving edge is renamed to the id of the first surviving edge, which keeps its own; an edge survives if it is not drawn into one group and is the first of its key |
| Collapse.EdgeIdsCanClash | apps/desktop/src/graph/collapse.ts:71-76 | a view in which two edges with different ids get the same id |
| Collapse.PathsSurviveCollapse | apps/desktop/src/graph/collapse.ts:59-78 | where the keys tell edges apart, every path of the view survives collapsing and does not get longer |
| Collapse.CollapsedIdsUnique | apps/desktop/src/graph/collapse.ts:38-58 | ids stay unique when no node has the synthetic id of a collapsed group |
| Collapse.CollapsingInTurn | apps/desktop/src/graph/collapse.ts:13-80 | where the keys tell edges apart, collapsing two groups in turn gives the same nodes and the same edges up to order and edge ids as collapsing both at once |
| ViewOrder.CollapsedOrder | apps/desktop/src/graph/collapse.ts:13-80 | a collapsed view lists the nodes outside the collapsed groups as they stood, then one stand-in for each group in the order of the groups' first nodes, its members in order; and the surviving edges in their order, the first under its own id, the others with a suffix |
| Collapse.RerouteEdges | apps/desktop/src/graph/collapse.ts:63-78 | the edge loop with its set of seen keys keeps the first edge of each key under its new ends |
| Collapse.CollapseGroups | apps/desktop/src/graph/collapse.ts:13-80 | the loops together compute the collapsed view, explicit groups included |
| Collapse.ListGroups | apps/desktop/src/graph/collapse.ts:83-97 | the loop computes the discovered groups |
| Cluster.RankIsStableSort | apps/desktop/src/graph/lod.ts:57-65 | ranking sorts by falling degree, loses no node and keeps the order of nodes of equal degree |
| Cluster.DegreeCounts | apps/desktop/src/graph/lod.ts:57-62 | the degree is the number of edges that leave the node plus the number that lead to it |
| Cluster.HubsHaveHighestDegree | apps/desktop/src/graph/lod.ts:63-68 | no clustered node has a higher degree than a hub |
| Cluster.NodesArePartitioned | apps/desktop/src/graph/lod.ts:66-91 | every node is either a hub, mapped to itself, or a member of the cluster it is mapped to, never both |
| Cluster.MembersAreExact | apps/desktop/src/graph/lod.ts:71-91 | a cluster is never empty and its members are exactly the nodes mapped to it |
| Cluster.ClustersAreBalanced | apps/desktop/src/graph/lod.ts:68-84 | as many clusters as planned are made, unless there is nothing to cluster, and their sizes differ by at most one |
| Cluster.EdgesAreExactImages | apps/desktop/src/graph/lod.ts:91-108 | the edges are images of the edges, loops dropped, no two alike, under distinct ids, and exactly all these images if and only if the keys tell them apart |
| Cluster.NoArrowsKeepKeysApart | apps/desktop/src/graph/lod.ts:91-108 | the keys do so when no id contains the arrow and no edge type the colon |
| Cluster.EdgesStayListed | apps/desktop/src/graph/lod.ts:85-108 | edges between listed nodes lead between listed nodes afterwards |
| Cluster.PathsSurviveClustering | apps/desktop/src/graph/lod.ts:91-108 | where the keys tell edges apart, every path of the view survives clustering and does not get longer |
| Cluster.ClusteredIdsUnique | apps/desktop/src/graph/lod.ts:71-85 | ids stay unique when no node has a cluster's id |
| ViewOrder.ClusteredOrder | apps/desktop/src/graph/lod.ts:52-110 | a clustered view lists the hubs by rank, then the numbered clusters, each with every k-th of the remaining nodes, and numbers its edges in the order in which they are first met |
| Cluster.PagesCoverAll | apps/desktop/src/graph/lod.ts:37-49 | the pages one behind the other give back all nodes in order |
| Cluster.CountDegrees | apps/desktop/src/graph/lod.ts:57-62 | the loop counts both ends of every edge |
| Cluster.SortByDegree | apps/desktop/src/graph/lod.ts:63-65 | a stable sort by falling degree |
| Cluster.ClusterByDegree | apps/desktop/src/graph/lod.ts:52-110 | the loops together compute the clustered view |
| SyncLaws.OperationsAreJournaled | crates/sync/src/state.rs:258-411 | every commit, fetch, integrate, validate and push of a cycle starts while the journal on disk names it |
| SyncLaws.CycleDoes | crates/sync/src/state.rs:258-411 | the operations done are the first ones of the fixed pipeline, up to the first that does not go through |
| SyncLaws.PushesIff | crates/sync/src/state.rs:258-411 | a cycle pushes if and only if the vault was not blocked, intact and without secrets, online and signed in, commit and fetch worked, the integration was clean and the result valid, all in this call, and every phase could be journaled |
| SyncEnds.CycleEnds | crates/sync/src/state.rs:258-411 | how every cycle ends, told by the first thing that stops it: state, outcome, last error, conflicts, wait, time of the last success and history |
| SyncEnds.EntersSafeModeIff | crates/sync/src/state.rs:258-347 | a cycle that may run ends in safe mode if and only if the repository fails its check, or the integration is reached and fails with a message that contains one of the two named texts; the caller is told so when the journal could be written |
| SyncEnds.UnsafeRepositoryHoldsIff | crates/sync/src/state.rs:258-347 | such a repository holds the vault in safe mode over every later run exactly when that state could be written to the journal |
| SyncEnds.TickEnds | crates/sync/src/state.rs:240-255 | a tick runs a cycle exactly when a debounce window has passed, and otherwise does nothing |
| SyncEnds.ChangeThenTick | crates/sync/src/state.rs:225-255 | a change in a configured, unblocked vault starts a window of 1500 milliseconds: a tick within it does nothing, the first after it runs a cycle |
| SyncEnds.ResolveEnds | crates/sync/src/state.rs:414-440 | a resolution commits, validates and pushes, in this order and each only if the one before went well; its memory, disk and outcome in every case |
| SyncRuns.CrashResumes | crates/sync/src/recovery.rs:85-132 | a crash at the start of any operation reopens in the state meant for it; during integrate, always in conflict |
| SyncRuns.ConflictsAreNotForgotten | crates/sync/src/state.rs:332-368 | once an integration leaves conflicts the vault is in conflict, and from the start of that integration a crash at any moment reopens in conflict, even if the journal write fails |
| SyncRuns.HeldForever | crates/sync/src/state.rs:225-264 | a vault held in conflict, awaiting the user or in safe mode stays so over every run of changes, ticks, cycles and crashes at any moment, and no git operation is done |
| SyncRuns.ConflictsHold | crates/sync/src/state.rs:362-368 | conflicts found by a cycle hold the vault in that sense |
| SyncRuns.SafeModeHoldsIff | crates/sync/src/state.rs:266-347 | a cycle that ends in safe mode holds the vault if and only if the journal write succeeded; when a cycle ends so is told by `SyncEnds.EntersSafeModeIff` |
| SyncRuns.BackoffDoubles | crates/sync/src/state.rs:321-410 | after k failed fetches or pushes since the last success or reopening the wait is the smaller of 2000 times 2 to the k and 300000, over every run |
| SyncRuns.CycleBackoff | crates/sync/src/state.rs:321-410 | one cycle resets, doubles or keeps the wait, and the time of the last success changes if and only if it pushes successfully |
| SyncRuns.SuccessIsRecorded | crates/sync/src/state.rs:384-399 | after a successful push: idle, no error, queue empty and the push last in the history as far as they could be written, success reported if and only if the idle state was journaled |
| SyncRuns.CycleEndsJournaled | crates/sync/src/state.rs:258-411 | a cycle that is not refused ends with journal and memory agreeing unless a journal write failed or validation could not run, so reopening resumes in the same state |
| SyncRuns.ResolutionIsUnjournaled | crates/sync/src/state.rs:414-440 | whenever resolving conflicts commits, validates or pushes, the disk is what it was before |
| SyncRuns.ReopenedDebounceWaits | crates/sync/src/state.rs:118-255 | a reopened vault never starts a cycle by the clock alone |
| SyncQueue.EnqueueFacts | crates/sync/src/queue.rs:59-75 | queueing keeps the queue, adds the commit unless it is queued, and queueing it again changes nothing |
| SyncQueue.HistoryKeepsTheLast | crates/sync/src/queue.rs:98-117 | after any events the history is the last two hundred of all |
| SyncQueue.CycleQueues | crates/sync/src/state.rs:258-411 | at every moment of a cycle the queue is as before, or has the put-off commit added, or is empty: while its file is being rewritten, after a successful push, or after a write that failed half-way |
| SyncQueue.QueuedUntilPushed | crates/sync/src/queue.rs:59-82 | over every run, with crashes at any moment and inside any write, no commit is queued twice, the history stays capped, and queued commits stay queued in order until something is pushed or a rewriting of the queue file stops half-way |
| SyncQueue.CrashKeepsQueueIff | crates/sync/src/queue.rs:43-57 | a crash during a step that pushes nothing keeps the queued commits if and only if it does not come inside a rewriting of the queue file or nothing was queued; inside a rewriting all are lost |
| SyncQueue.PuttingOffCanLoseTheQueue | crates/sync/src/queue.rs:51-75 | every cycle that queues a commit passes through a moment at which a crash leaves the queue empty |
| SyncQueue.PutOffIsQueued | crates/sync/src/state.rs:296-319 | a commit that is put off is on the queue afterwards if the queue could be written |
| SyncEngine.Store.PushHistory | crates/sync/src/queue.rs:98-117 | append and drop the oldest over two hundred |
| SyncEngine.Store.FindQueued | crates/sync/src/queue.rs:59-64 | finds a queued commit with the same summary and paths exactly when there is one |
| SyncEngine.Store.Enqueue | crates/sync/src/queue.rs:59-75 | the queue after the call; the commit returned is the queued one with the same summary and paths, or else the new one |
| SyncEngine.Store.DrainQueue | crates/sync/src/queue.rs:77-83 | empties the queue and returns what was on it |
| SyncEngine.Store.RecoverFromInterrupt | crates/sync/src/recovery.rs:85-132 | maps the interrupted operation to a state, clears it and notes it |
| SyncEngine.Engine.constructor | crates/sync/src/state.rs:118-140 | opening recovers and saves the journal and starts from it |
| SyncEngine.Engine.Persist | crates/sync/src/state.rs:159-174 | writes state and operation to the journal, or fails and leaves it |
| SyncEngine.Engine.OnFsChange | crates/sync/src/state.rs:225-237 | starts the debounce window unless the vault is blocked or not configured |
| SyncEngine.Engine.OnTick | crates/sync/src/state.rs:240-255 | runs a cycle once the debounce deadline has passed |
| SyncEngine.Engine.RunCycle | crates/sync/src/state.rs:258-411 | memory, disk, trace and outcome of a cycle are those of the state machine, whose ends `SyncEnds.CycleEnds` tells from what the cycle meets |
| SyncEngine.Engine.ResolveConflicts | crates/sync/src/state.rs:414-440 | memory, disk, trace and outcome of a resolution are those of the state machine |

## Left out

- Git, GitHub authentication, keyring, HTTP and the file system: their results are parameters; `integrate_origin` only as clean, conflicts or error.
- `configure_clone` and `configure_create_private` of the sync engine, which set states unconditionally.
- A failed save while opening a vault: no engine exists then and the disk is unchanged, so opening is modelled as the load and save that succeed.
- Timestamps, UUIDs, event texts, note texts and error wording: event kinds and the names of interrupted operations only.
- Files that something else made unreadable: queue and history then read as empty, an unreadable journal is reported.
- The exact conflict-marker strings: a merged block is plain or carries the two sides.
- JSON numbers as such: a number is an opaque value with equality. Item ids are strings, as in the source.
- Cache keys and content hashes: an arbitrary key per node.
- Cancellation from another thread: a handler or approval callback may set the request whenever it is called.
- A handler or callback that calls `cancel` itself, which also sets status, error and event at once: after the last node the status would be overwritten with succeeded.
- The order in which either gate iterates its set of node ids: every order is covered.
- In workflow documents: an `edges` entry that is no list of objects, infinite numbers, and Python's recursion limit. What `int` and `str` make of a text or a compound value is a parameter.
- The width of the depth counter of the outline and of the backoff counter: the former is unbounded here, the latter never exceeds 300000.
- Labels of nodes, groups and clusters; `applyLod`, its focus neighbourhood and its thresholds.
- The TypeScript copy of the graph code, patches and diffs of graphs, and building graphs from workflows.
- Frontmatter, wikilinks, intake, redaction, model scoring, plugins, publishing and all user-interface code.
- PathTracing.ShortestPath: says that the path is real and shortest, not which of several shortest paths it is, which the source does not promise.
- Cluster.SortByDegree: the library sort is modelled as an insertion sort; only that it is stable and descending is used.
