# Verified core of torch_npu: graph trees, silent-fault detection, traced graphs

A Dafny model of three parts of torch_npu whose correctness spans many operations, and proofs of what they
promise. `dafny verify dfyconfig.toml` checks the whole project.

**NPU graph trees** (`GraphTree`, `LivenessVectors`, `Aliasing`, `Recording`, `TreeBook`, `ManagerState`,
`Manager`). Recorded graphs share one memory pool. A storage is an identifier with a data pointer and an alive
flag; the program may clear the flag at any time, and only running or recording a node sets it. The allocator
is the set of addresses it believes allocated; a capture may write any address that does not stay allocated.
The main result is about whole sessions, in any order of calls and releases: within one generation, a storage
that the program has not given up stays alive at its address, and no replay, capture or warmup writes there
(`WithinOneGeneration`, on the log that `Session` keeps); and when generations change, the same holds from a
forward's completion to that of its backward (`ForwardIsProtected`). What a call is answered with is determined: the
oldest recording that fits is replayed, and a recording fits exactly in the situation it was made in
(`Run`, `FitsExactlyWhen`). It rests on an invariant that every recording, replay,
warmup, checkpoint and death keeps: what is alive on the current path was alive when the current node was
recorded, outputs with equal recorded device pointers name one storage, and every live storage of the generation
belongs to the path or its warmups.

**Silent-fault detector** (`SilentCheck`, `Ring`, `Strikes`, `StrikeTheorems`, `StrikeForgetting`,
`StrikeCompleteness`, `Barrier`, `BarrierHaste`). A 1024-slot ring of asynchronously copied statistics refines a
queue; the exponentially weighted average is bounded by what it accepted, and both decisions about a sample are
exact in terms of it; the strike counter is sound and complete on every stream of abnormals, and forgetting expired
history is invisible to it exactly under a condition on its configuration; the two-counter barrier makes all ranks
read the same sum in every round, and that sum is positive exactly when a report was pending somewhere.

**Traced graphs and index lowerings** (`Mangling`, `TracedGraphs`, `MergeMeaning`, `Lowering`, `Subtraction`,
`Reduction`, `IndexLowering`). A traced graph is an ordered list of named nodes with an evaluator over any value
type and any interpretation of the functions. Merging and subtracting preserve meaning; the reduction loader
visits every element once; masked index lowerings meet array specifications; size names round-trip exactly when
a caller-checkable condition on the text holds.

Where the code does less than one would expect, the code is modelled and the exact condition is proved:

- with CPU outputs tolerated, freeing after a checkpoint is exact only as long as none of them has died
  (`CheckpointIsExact`, `DeadCpuOutputBreaksCheckpoint`): _graph_tree.py lines 1347-1353 give them weak references,
  and lines 2543-2544 free their host pointers;
- strikes are reused when `strikes_num` is 2 (`ReuseExactlyAtTwo`), because asd.py line 579 takes the last
  counted entry without looking at `striked`;
- forgetting changes decisions when the cooldown exceeds the window (`ForgettingIsHarmlessExactlyWhen`);
- mangled names do not round-trip for texts with spaces or with certain letters (`RoundTripExactly`), and then
  collide exactly as `CollisionExactly` says;
- the barrier alone does not keep ranks together: without the pause between rounds they can disagree
  (`WithoutSeparationRanksDisagree`).

Modelling decisions:

- The pointers of arguments, the storages the program gives up during a call, generation counters, mutation
  reports and static-pointer comparisons are part of the call. So are three functions of the world in which it
  runs: what the function does when captured, what it does when run eagerly, and which storages die when the
  managed inputs are dropped. They are arbitrary within what the allocator permits and the program gives up
  (`Behaves`).
- The manager runs with disable_cpu_input_check off, its default, so that recording a CPU output raises.
- A tensor passed to `run` is held by its caller, so a path output it lies on is alive (`Held`).
- Reals stand for floats; NaN and infinity are constructors.
- Events reach the strike counter in order, each processed before the next one happens (`Ordered`).
- The sleep at the end of a barrier round is the guard `Separated`: no rank starts a round before all ranks have
  finished the previous one.
- Traced-graph references are by node name, as the merging code itself looks nodes up.

## Model

| member | source | states |
|---|---|---|
| `GraphTree.CheckedLivenessIsRecorded` | torch_npu/npu/_graph_tree.py:1717-1757 | when the indices that were dead before the recording and those that died during it are dead now, every path output still alive was alive when the recording finished |
| `GraphTree.CheckEnsuresReplayable` | torch_npu/npu/_graph_tree.py:1687-1757 | a child whose managed pointers match, whose expected-dead indices are dead and whose preserved inputs are kept can be replayed: the liveness of its path is contained in the recorded one, and every older output it aliases is alive |
| `GraphTree.ReplayIsSafe` | torch_npu/npu/_graph_tree.py:19-34 | replay safety: under the path invariant no address the recording may write belongs to a storage that is alive |
| `GraphTree.PriorSurvivesRelease` | torch_npu/npu/_graph_tree.py:1743-1748 | dropping the managed inputs that are not preserved never kills an older output that the replayed graph aliases |
| `GraphTree.IncarnateKeepsInv` | torch_npu/npu/_graph_tree.py:1066-1087 | after a replay the child is the current node and the whole invariant holds again: nothing on the path is alive that the recording saw dead, equal recorded device pointers name one storage, no two live storages share device memory, and every live storage is an output on the path |
| `GraphTree.KillKeepsInv` | torch_npu/npu/_graph_tree.py:1480-1491 | the program may drop any storages at any time without breaking the invariant |
| `GraphTree.AliasingReproduced` | torch_npu/npu/_graph_tree.py:1089-1171 | two different outputs of a node share a storage after reconstruction exactly when their recorded data pointers are equal device pointers; a CPU output always gets a storage of its own |
| `GraphTree.AliasingWithPath` | torch_npu/npu/_graph_tree.py:1162-1167 | an output recorded at the address of an older path output alive then gets that output's storage |
| `GraphTree.NewStorageIsElsewhere` | torch_npu/npu/_graph_tree.py:1648-1651 | a storage that comes alive with a replay overlaps none that was already alive in device memory |
| `GraphTree.CheckpointIsExact` | torch_npu/npu/_graph_tree.py:2510-2557 | restoring the checkpoint and freeing the pointers dead since then leaves exactly the device addresses of live storages and frees no live alias; every freed pointer was allocated in the checkpoint if and only if no CPU output on the path has died |
| `Recording.DeadCpuOutputBreaksCheckpoint` | torch_npu/npu/_graph_tree.py:1294-1296 | a reachable state, one recording with one CPU output that has died, in which the only pointer freed was never allocated |
| `Recording.WithoutCpuOutputsFreeingIsSafe` | torch_npu/npu/_graph_tree.py:1298-1304 | where CPU outputs are refused, which is the default, every freed pointer was allocated |
| `GraphTree.FastDeathCheckIsExact` | torch_npu/npu/_graph_tree.py:1193-1198 | scanning only live_indices_after_graph finds all dead exactly when scanning every output on the path does, and exactly when nothing in the pool is alive |
| `LivenessVectors.GetDifferentIndices` | torch_npu/npu/_graph_tree.py:1498-1512 | raises exactly on unequal shapes; otherwise lists each index where the two matrices differ once and no other |
| `LivenessVectors.CheckLiveness` | torch_npu/npu/_graph_tree.py:1480-1491 | raises exactly when an index without a weak reference comes before any live one; otherwise true exactly when all the indices are dead |
| `LivenessVectors.ExpectedDeadHaveRefs` | torch_npu/npu/_graph_tree.py:1487-1488 | for a child of the current node every expected-dead index has a weak reference, so the check never raises |
| `LivenessVectors.GetLiveness` | torch_npu/npu/_graph_tree.py:1515-1522 | the matrix has the shape of the path's outputs and is true exactly at the live indices |
| `LivenessVectors.DataPtrsDeadSinceInvocation` | torch_npu/npu/_graph_tree.py:1577-1594 | the comparison never raises, every differing index has a recorded data pointer, and the list holds exactly the pointers of outputs recorded alive that have died, host pointers of CPU outputs included |
| `LivenessVectors.LiveIndices` | torch_npu/npu/_graph_tree.py:1360-1364 | lists every live index of the path once |
| `Aliasing.FindLiveAlias` | torch_npu/npu/_graph_tree.py:1466-1478 | the first live path output at the address, in path order, or none exactly if there is none |
| `Aliasing.ClassifyOne` | torch_npu/npu/_graph_tree.py:1292-1337 | one output: raises exactly for a CPU tensor with memory that is not tolerated; a tolerated CPU tensor stands alone, persistent or empty memory is static, memory of a live older output names the first such output, new memory is fresh the first time and afterwards names where it first appeared |
| `Aliasing.MarkPreserved` | torch_npu/npu/_graph_tree.py:1321-1325 | marks exactly the inputs that lie on the aliased older output |
| `Aliasing.MarkOne` | torch_npu/npu/_graph_tree.py:1317-1337 | one more classified output keeps unaliased_in_all_paths, the marked ancestors' outputs and the preserved inputs exact |
| `Aliasing.ClassifyOutputs` | torch_npu/npu/_graph_tree.py:1268-1337 | raises exactly if some output is refused; otherwise every output is classified as specified, unaliased_in_all_paths starts true exactly for fresh outputs no other output shares, and exactly the aliased older outputs and the inputs on them are marked |
| `Aliasing.ClassifiedIsUnique` | torch_npu/npu/_graph_tree.py:1287-1337 | the recorded pointers determine the alias record |
| `Aliasing.NewNamesFresh` | torch_npu/npu/_graph_tree.py:730-741 | an AliasesNewOutput index is smaller than its own and belongs to a fresh output |
| `Aliasing.ReconstructOutputs` | torch_npu/npu/_graph_tree.py:1089-1149 | ints and None come back as they are, persistent outputs as the static tensors, and all others on storages: the ones the new weak references name; two of them share one exactly when their recorded device pointers are equal; a first replay caches exactly the outputs unaliased everywhere |
| `Recording.NewLivenessOK` | torch_npu/npu/_graph_tree.py:906-915 | the liveness a recording stores: what survives it was alive before it, what was alive before it was alive after the parent, and the two expected-dead lists are exactly the differences |
| `Recording.WithNodeKeepsInv` | torch_npu/npu/_graph_tree.py:1277-1281 | right after capture the path invariant holds and the new node is itself replayable, with recorded liveness equal to present liveness |
| `Recording.RecordKeepsInv` | torch_npu/npu/_graph_tree.py:1355-1364 | after recording, the invariant holds at the new node, the allocator's blocks are exactly the device addresses of live storages, and the capture wrote to no storage that survived it |
| `Recording.AllRecordedAreLive` | torch_npu/npu/_graph_tree.py:1355-1358 | right after a recording nothing recorded alive has died, so nothing would be freed |
| `TreeBook.AddRecording` | torch_npu/npu/_graph_tree.py:1493-1495 | after adding a recording every dictionary still lists exactly the recordings with its parent, each once and under its own function id |
| `TreeBook.FlatIsLookedUp` | torch_npu/npu/_graph_tree.py:2116-2116 | a recording kept in a dictionary is found under its function id |
| `TreeBook.Shutdown` | torch_npu/npu/_graph_tree.py:2181-2200 | the worklist terminates and visits every recording exactly once |
| `TreeBook.NumDescendants` | torch_npu/npu/_graph_tree.py:1759-1766 | terminates and counts exactly the recordings below a node |
| `TreeBook.CountUnder` | torch_npu/npu/_graph_tree.py:1761-1766 | the sum over siblings counts the union of their subtrees |
| `TreeBook.CountRecordings` | torch_npu/npu/_graph_tree.py:2266-2267 | the recordings reachable from the roots are as many as the graph ids issued |
| `ManagerState.UnmarkKeeps` | torch_npu/npu/_graph_tree.py:1372-1380 | unaliased_in_all_paths stays exact in every ancestor: true exactly for outputs that neither their own node nor any recorded descendant aliases |
| `ManagerState.CheckpointStepOK` | torch_npu/npu/_graph_tree.py:2529-2543 | every freed pointer was allocated, after the checkpoint the pool is the set of live device addresses and every cache on the path is empty, with the rest of the manager's invariant intact |
| `ManagerState.RecordSpares` | torch_npu/npu/_graph_tree.py:1200-1266 | a recording keeps every storage its function does not give up, in place, and writes to none of them |
| `ManagerState.RecordStep` | torch_npu/npu/_graph_tree.py:2202-2228 | record_function: from any consistent state with an up-to-date allocator and no warmup node current, one recording is added under the current node, recording and new world are those that the capture determines, `written` is what the capture wrote, nothing the program still holds is lost or written, and the manager's invariant holds with it current |
| `ManagerState.ExecuteStep` | torch_npu/npu/_graph_tree.py:2230-2237 | execute_node: a replayable child becomes current with the invariant intact, everything alive stays alive, and its recorded writes touch no live address |
| `ManagerState.EagerStep` | torch_npu/npu/_graph_tree.py:2239-2264 | run_eager: below any node, a warmup leaves the tree alone, keeps the invariant and everything the program still holds, and writes, as its node records, over none of it; each of its outputs is a live storage at the output's address |
| `ManagerState.InputRefs` | torch_npu/npu/_graph_tree.py:828-835 | for each tensor argument the first live path output it lies on, if any |
| `ManagerState.Observe` | torch_npu/npu/_graph_tree.py:1200-1337 | whatever the capture does within what the allocator permits and the program gives up, what is stored about it satisfies the conditions a recording needs |
| `ManagerState.PlaceOutput` | torch_npu/npu/_graph_tree.py:649-660 | an output of a warmup at the address of a live storage is that storage, any other is a new one; no two live storages come to share memory |
| `ManagerState.PlaceOutputs` | torch_npu/npu/_graph_tree.py:649-665 | every output of a warmup gets a live storage at its address, and every live storage is accounted for by the path or the warmup chain |
| `ManagerState.FirstFit` | torch_npu/npu/_graph_tree.py:2114-2129 | the loop over recorded children stops at the first one that fits, or reports for all of them that none does and whether pointers moved |
| `ManagerState.TriedAll` | torch_npu/npu/_graph_tree.py:2114-2129 | when the loop ends without a match, no recording of the function at this node fits, and the mismatch flag says whether the pointers of any of them had moved |
| `ManagerState.FitsExactlyWhen` | torch_npu/npu/_graph_tree.py:1687-1736 | in any later world, a recording fits again exactly when the arguments that lay on its path are where they were, no output that its parent left alive is alive that was dead when it was recorded, and static pointers match where that is asked |
| `ManagerState.DropsExactlyWhen` | torch_npu/npu/_graph_tree.py:1738-1756 | and the check after dropping its inputs succeeds exactly when no output alive before the recording now survives that had died by its end |
| `ManagerState.HeldIsNeverOverwritten` | torch_npu/npu/_graph_tree.py:19-34 | over any stretch of a session in which no new generation may start, a storage that the program never gives up stays alive at its address, and no replay, capture or warmup writes there |
| `ManagerState.OneGeneration` | torch_npu/npu/_graph_tree.py:2338-2348 | calls that all carry the current generation never start a new one |
| `ManagerState.WithinOneGeneration` | torch_npu/npu/_graph_tree.py:19-34 | replay safety over whole sessions: within one generation, whatever the program still holds is alive at its address and is never written |
| `ManagerState.PendingIsAwaiting` | torch_npu/npu/_graph_tree.py:1995-2007 | over any session, running_forwards_with_pending_backwards says exactly whether a completed forward still awaits the completion of a backward |
| `ManagerState.GenerationIsLastRun` | torch_npu/npu/_graph_tree.py:2202-2264 | current_gen is the generation of the last call that ran something in the pool |
| `ManagerState.ForwardIsProtected` | torch_npu/npu/_graph_tree.py:2338-2345 | from the completion of a forward to that of the next backward, if no step is marked, whatever the program holds stays alive, in place and unwritten, even when generations change |
| `ManagerState.NewGenerationStartsOver` | torch_npu/npu/_graph_tree.py:2338-2348 | a call in another generation than the last one that ran starts a new path if the step is marked or no forward awaits its backward, unless it replays or warms up below an execution |
| `ManagerState.PathContinues` | torch_npu/npu/_graph_tree.py:2338-2404 | and only then: while anything is alive, a call in the same generation, or an unmarked one while a forward awaits its backward, runs below the node that was current |
| `ManagerState.WarmupComesFirst` | torch_npu/npu/_graph_tree.py:2083-2106 | a function is recorded or replayed only after it was warmed up, unless warmups are skipped, and never where they are forced; it warms up again only where they are forced or below a warmup that something alive holds open |
| `Manager.NPUGraphTreeManager.constructor` | torch_npu/npu/_graph_tree.py:1893-1993 | a new manager has no current node, no recordings, no live storages, nothing warmed up or noted, generation -1 and no pending backward, and satisfies the invariant |
| `Manager.NPUGraphTreeManager.Drop` | torch_npu/npu/_graph_tree.py:1480-1491 | dropping storages between calls keeps the invariant and everything else alive, including the allocator's view while recording or warming up |
| `Manager.NPUGraphTreeManager.AllOutputsAreDead` | torch_npu/npu/_graph_tree.py:690-691 | for a graph node and for a warmup node the answer is whether anything at all in the pool is alive |
| `Manager.NPUGraphTreeManager.EndPath` | torch_npu/npu/_graph_tree.py:2504-2508 | the manager returns to NONE with no current node |
| `Manager.NPUGraphTreeManager.TryEnd` | torch_npu/npu/_graph_tree.py:2350-2404 | the path ends exactly when the generation differs and the step is marked or no backward is pending, or when nothing in the pool is alive; otherwise nothing changes |
| `Manager.NPUGraphTreeManager.ApplyCheckpoint` | torch_npu/npu/_graph_tree.py:2510-2543 | every freed pointer was allocated, afterwards the allocator's blocks are exactly the addresses of live outputs, and exactly the caches on the path are cleared; its own guard never fires |
| `Manager.NPUGraphTreeManager.CheckInvariants` | torch_npu/npu/_graph_tree.py:1687-1757 | each status is returned exactly in its case, a mismatch changes nothing, the inputs are dropped exactly when the child fits, only what the program gives up dies, and after that success is returned exactly when everything expected dead is dead, which makes the child replayable |
| `Manager.NPUGraphTreeManager.ExecuteNode` | torch_npu/npu/_graph_tree.py:2230-2237 | the recorded writes touch no live address, everything alive stays alive, EXECUTION holds with that node current, and its cached outputs are filled in if they were cleared |
| `Manager.NPUGraphTreeManager.RecordFunction` | torch_npu/npu/_graph_tree.py:2202-2228 | one recording is added under the current node, the one its capture determines, and RECORDING holds with it current; `written` is what the capture wrote, and nothing the program still holds is lost or written |
| `Manager.NPUGraphTreeManager.RunEager` | torch_npu/npu/_graph_tree.py:2239-2264 | a warmup node below the node that was current becomes current, records what its run wrote and holds its outputs, and the function counts as warm; no recording is added, exactly what the run gives up dies, and nothing the program still holds is lost or written |
| `Manager.NPUGraphTreeManager.Run` | torch_npu/npu/_graph_tree.py:1995-2007 | from every valid state every call keeps the invariant and adds at most one recording; unless it may start a new generation, every storage the program does not give up stays alive, in place and unwritten. The answer is determined: the plain function for one known to be unsuitable at the node where the call is decided; otherwise warmup exactly when the function is not ready or follows a warmup that cannot be left; otherwise recording while recording, else the oldest fitting recording at that node, else, if the path may be left, the oldest fitting root, else a new recording, or the plain function exactly where a recording is to be skipped. A fitting recording is replayed exactly when its inputs drop as they did, and raises otherwise; nothing else raises. What runs, runs below the node that was current or starts a new path as the generation rule says; what is noted about mutations is what was asked; current_gen moves exactly when something ran in the pool and pending backwards follow the mode; the self-call nests at most once (termination) |
| `Manager.NPUGraphTreeManager.RunInner` | torch_npu/npu/_graph_tree.py:2061-2179 | the same for _run |
| `Manager.NPUGraphTreeManager.RunSettled` | torch_npu/npu/_graph_tree.py:2072-2106 | a function known to be unsuitable at this node, as asked now if it was not before, runs on its own; otherwise the answer is the one Run promises |
| `Manager.NPUGraphTreeManager.EndStalePath` | torch_npu/npu/_graph_tree.py:2066-2070 | a recording or warmup is left exactly when it may be, and nothing else changes |
| `Manager.NPUGraphTreeManager.Proceed` | torch_npu/npu/_graph_tree.py:2088-2109 | warms up exactly when the function is not ready or a warmup is current; past that point the current node is never a warmup node, so the guard cannot fire |
| `Manager.NPUGraphTreeManager.WarmUp` | torch_npu/npu/_graph_tree.py:2096-2106 | the allocator is up to date when the warmup runs, whatever the state was; nothing the program still holds is lost or written, and the warmup node records what was written |
| `Manager.NPUGraphTreeManager.RunGraph` | torch_npu/npu/_graph_tree.py:2110-2179 | while recording, the call is recorded; otherwise the oldest fitting recording answers it, else the oldest fitting root if the path may be left, else it is recorded or, where that is to be skipped, left to the plain function |
| `Manager.NPUGraphTreeManager.ChildNodes` | torch_npu/npu/_graph_tree.py:2110-2116 | yields exactly the recordings of the function whose parent is the current node, oldest first |
| `Manager.NPUGraphTreeManager.TryChildren` | torch_npu/npu/_graph_tree.py:2114-2129 | if some recording fits, the oldest such is replayed if its inputs drop as recorded and raises otherwise; if none fits nothing has changed and the mismatch flag is exact |
| `Manager.NPUGraphTreeManager.ReplayChild` | torch_npu/npu/_graph_tree.py:2120-2122 | a fitting child is replayed exactly when every output that died during its recording is dead once its inputs are dropped, and raises otherwise |
| `Manager.NPUGraphTreeManager.EndForRoot` | torch_npu/npu/_graph_tree.py:2135-2140 | the call is retried as a root exactly when the function is a root and the path can end; otherwise nothing changes |
| `Manager.NPUGraphTreeManager.SkipGraph` | torch_npu/npu/_graph_tree.py:2142-2163 | skips exactly on a reported mutation or when pointers of a recording here have moved and this makes the count of re-recordings at this node exceed the limit; when it does not skip after a mismatch and the limit is active, the function has been re-recorded here less often than the limit |
| `Manager.NPUGraphTreeManager.RecordUnlessSkipped` | torch_npu/npu/_graph_tree.py:2142-2179 | runs the plain function exactly where a recording is to be skipped and records otherwise; each recording that a pointer mismatch leads to is entered under its node and function, and nothing else is, so that with the limit active there are never more than it allows |
| `Manager.NPUGraphTreeManager.PrepareRecording` | torch_npu/npu/_graph_tree.py:2168-2170 | a recording starts with an up-to-date allocator, no warmup ancestor and cleared caches on its path, and on a new path if the old one may be left |
| `Manager.NPUGraphTreeManager.Session` | torch_npu/npu/_graph_tree.py:2061-2179 | over every sequence of calls and releases the invariant holds throughout, and the log accounts for each step as Run and Drop state it; a call is made whenever the tensors passed to it are alive; WithinOneGeneration, ForwardIsProtected, PathContinues and WarmupComesFirst say what follows |
| `Strikes.Detector.AbnormalProcess` | torch_npu/asd/asd.py:550-616 | verdict and new history are those of the specification; the checksum flag is raised exactly on a warning with checksum enabled |
| `Strikes.Detector.ProcessAll` | torch_npu/asd/asd.py:503-517 | a new detector fed any stream of abnormals gives the verdicts, and is left with the history, that the theorems speak of |
| `Strikes.Detector.Judge` | torch_npu/asd/asd.py:553-605 | the backward search decides counted, logged and warned as specified |
| `Strikes.Detector.CollectStrikes` | torch_npu/asd/asd.py:579-587 | the inner loop collects the positions and last entry the specification names |
| `Strikes.Detector.RemoveExpired` | torch_npu/asd/asd.py:607-616 | removes exactly the leading entries older than the window |
| `Strikes.DecideMarksOnly` | torch_npu/asd/asd.py:588-594 | a decision changes nothing in the history but strike marks |
| `StrikeTheorems.ScanFinds` | torch_npu/asd/asd.py:581-587 | the scan returns open entries in descending order without gaps and stops at the last one needed, or has found all there are |
| `StrikeTheorems.OpensBounded` | torch_npu/asd/asd.py:588-616 | after each event fewer than strikes_num counted entries are unstruck |
| `StrikeTheorems.WarningsAreSound` | torch_npu/asd/asd.py:550-616 | on every stream with strikes_num >= 3, each warning names exactly strikes_num counted abnormals, none named by an earlier warning, pairwise a cooldown apart and spanning at most the window |
| `StrikeForgetting.TwoStrikesReuse` | torch_npu/asd/asd.py:579-579 | with strikes_num = 2 there is a stream of promptly processed abnormals in which the second is named by two warnings |
| `StrikeForgetting.ReuseExactlyAtTwo` | torch_npu/asd/asd.py:579-594 | no stream reuses a strike exactly when strikes_num is not 2, and the same over streams whose expired entries are removed at the time of the event |
| `StrikeForgetting.ForgettingIsHarmless` | torch_npu/asd/asd.py:607-616 | when the cooldown fits into the window, deleting expired history never changes a counted or a warning decision, on any stream |
| `StrikeForgetting.LateDisagrees` | torch_npu/asd/asd.py:607-616 | when the cooldown exceeds the window, a concrete stream on which deletion changes a decision |
| `StrikeForgetting.ForgettingIsHarmlessExactlyWhen` | torch_npu/asd/asd.py:607-616 | deletion is harmless on all streams exactly when the cooldown is at most the window or not positive |
| `StrikeForgetting.SearchNeverFallsOff` | torch_npu/asd/asd.py:564-606 | the history is empty or keeps a counted entry, so the search never runs off its start and every counted abnormal is logged |
| `StrikeForgetting.PromptForgettingIsInvisible` | torch_npu/asd/asd.py:607-616 | if the expiry clock is the event time, the forgetting detector gives the very same verdicts, event log included |
| `StrikeCompleteness.CountsExactly` | torch_npu/asd/asd.py:564-605 | on every ordered stream an abnormal counts if all counted ones before it are at least a cooldown back, and, where the cooldown fits into the window, only then; only counted ones are logged |
| `StrikeCompleteness.OneStrikeWarns` | torch_npu/asd/asd.py:557-577 | with strikes_num 1 every counted, logged abnormal warns and names itself alone; with less nothing warns |
| `StrikeCompleteness.WarningsAreComplete` | torch_npu/asd/asd.py:578-594 | on every ordered stream with strikes_num >= 3, a counted abnormal before which strikes_num - 1 counted abnormals, named by no earlier warning, lie within the window does warn, and names exactly those and itself |
| `SilentCheck.StepCases` | torch_npu/asd/asd.py:513-519 | a sample either enters the average, unflagged, with weight 0.01 and is counted, or leaves average and count alone |
| `SilentCheck.DecisionIsExact` | torch_npu/asd/asd.py:536-547 | with a trusted average, a finite value is flagged exactly when it is not 0, above alpha1 times the bias-corrected average and more than that away from the value before it, and accepted exactly when it is not 0, not flagged and at most alpha2 times that average; with an untrusted one it is never flagged and accepted exactly when it is not 0 |
| `SilentCheck.NonFiniteNeverEnters` | torch_npu/asd/asd.py:533-534 | NaN and infinities are always flagged and never change average or count |
| `SilentCheck.AverageIsBounded` | torch_npu/asd/asd.py:530-548 | over any samples the bias-corrected average lies between the least and the greatest accepted value |
| `SilentCheck.FlaggingIsJustified` | torch_npu/asd/asd.py:536-543 | a finite sample is flagged only after ten acceptances, only when above, and away from the sample before it by more than, alpha1 times every lower bound of the accepted values; and is flagged when above, and away by more than, alpha1 times an upper bound |
| `SilentCheck.LearnsUntilTrusted` | torch_npu/asd/asd.py:536-547 | until ten values have been accepted, and while the average is 0, every finite value other than 0 is accepted and none is flagged |
| `SilentCheck.AcceptanceIsBounded` | torch_npu/asd/asd.py:544-547 | once the average is trusted, only values other than 0 and at most alpha2 times the greatest accepted one are accepted, and every unflagged one at most alpha2 times the least is |
| `Ring.FoldPerName` | torch_npu/asd/asd.py:497-519 | the statistics of each name are the sequential fold over that name's samples alone |
| `Ring.FlaggedExactly` | torch_npu/asd/asd.py:499-519 | exactly those items are handed on as abnormal that the samples of their own name before them flag |
| `Ring.EmptyHead` | torch_npu/asd/asd.py:494-496 | the slot at the head reads empty exactly when its copy has not landed or everything was drained, also when head equals tail |
| `Ring.FullRing` | torch_npu/asd/asd.py:476-478 | the slot at the tail is unnamed exactly when the ring is not full |
| `Ring.EnqueueKeeps` | torch_npu/asd/asd.py:470-475 | a push into a free slot appends one item and disturbs no other |
| `Ring.ConsumeKeeps` | torch_npu/asd/asd.py:521-525 | clearing the head removes exactly the oldest item |
| `Ring.LandKeeps` | torch_npu/asd/asd.py:472-472 | a late copy changes nothing about which items the ring holds |
| `Ring.Queue.constructor` | torch_npu/asd/asd.py:320-324 | an empty ring of 1024 slots is valid |
| `Ring.Queue.Land` | torch_npu/asd/asd.py:472-472 | a landing copy keeps the ring consistent |
| `Ring.Queue.LandSome` | torch_npu/asd/asd.py:476-478 | any number of copies landing in any order keeps the ring consistent; synchronize lands all |
| `Ring.Queue.Push` | torch_npu/asd/asd.py:470-478 | with a free slot, the item is appended to what was pushed and the ring stays a queue; a push that fills the ring waits for all copies |
| `Ring.Queue.Enqueue` | torch_npu/asd/asd.py:470-475 | the item is appended to what was pushed |
| `Ring.Queue.Tally` | torch_npu/asd/asd.py:499-519 | statistics and flags become those of the drained items with this one appended |
| `Ring.Queue.Consume` | torch_npu/asd/asd.py:497-525 | the item read at the head is the next one pushed and is drained exactly once |
| `Ring.Queue.ClearHead` | torch_npu/asd/asd.py:521-525 | the head moves on by one item |
| `Ring.Queue.StatsPerName` | torch_npu/asd/asd.py:499-519 | at any time a name's statistics are the fold over its own drained samples |
| `Ring.Queue.FlaggedPerName` | torch_npu/asd/asd.py:499-519 | at any time what was handed on as abnormal are exactly the drained items that their own names' samples flag |
| `Ring.Queue.Drain` | torch_npu/asd/asd.py:491-528 | with copies landing meanwhile, the loop terminates; what is drained stays a prefix of what was pushed, and it stops only at an item still on its way or when all is drained |
| `Barrier.RanksAgree` | torch_npu/asd/asd.py:680-688 | in every run, whatever a rank has read in a round is the sum of what all ranks posted in it, hence the same for all, and positive exactly when some flag was up |
| `Barrier.FlagIsReport` | torch_npu/asd/asd.py:680-704 | in terms of the actions alone, a rank's flag is up exactly when its detector has reported something that no step of its own has cleared since |
| `Barrier.ReportsAreSeen` | torch_npu/asd/asd.py:680-688 | in every run, what any rank reads in a round is positive exactly when some rank had an uncleared report when it posted for that round: no report is lost and none is made up |
| `Barrier.ReportReachesAll` | torch_npu/asd/asd.py:680-704 | a report before a rank's post for a round, with no sum taken note of by that rank in between, is read by every rank that reads that round |
| `Barrier.StoreIsRestored` | torch_npu/asd/asd.py:705-712 | whenever all ranks stand between the same two rounds the store is (0, 0, world_size) |
| `Barrier.RoundTurnsOver` | torch_npu/asd/asd.py:710-714 | a finished round leaves the store restored and the next round starts as the first did |
| `Barrier.StepKeepsRound` | torch_npu/asd/asd.py:680-714 | every step of every rank, and every raising of a flag, keeps the round invariant or begins the next round |
| `Barrier.WaitEndsWhenAllCame` | torch_npu/asd/asd.py:685-708 | a rank gets past a wait only when every rank has come to it |
| `Barrier.FlagsClearOnlyWhenPosted` | torch_npu/asd/asd.py:688-704 | a raised flag goes down only by its own rank's step in a round whose sum is positive, and in such a round it does |
| `Barrier.HindmostCanStep` | torch_npu/asd/asd.py:685-708 | a rank that is not ahead of any other can always step: no deadlock |
| `Barrier.RoundsComplete` | torch_npu/asd/asd.py:680-714 | enough steps, in any interleaving, complete any number of rounds on every rank |
| `BarrierHaste.WithoutSeparationRanksDisagree` | torch_npu/asd/asd.py:714-714 | with the waits alone, a run of two ranks in which they read different sums in the same round: the sleep is needed |
| `Mangling.MapOperatorsToStrings` | torch_npu/_inductor/lowering_fx.py:114-118 | the loop of replacements computes the mangled name |
| `Mangling.MapStringsToOperators` | torch_npu/_inductor/lowering_fx.py:121-124 | the loop of replacements computes the demangled text |
| `Mangling.EncodeIsCharwise` | torch_npu/_inductor/lowering_fx.py:116-117 | replacing operators one after the other is writing out each character on its own |
| `Mangling.MangleSpells` | torch_npu/_inductor/lowering_fx.py:101-118 | a name is an underscore and then, from left to right, a, sub, m, d, l, r, p for + - * / ( ) and the dot, nothing for a space, and every other character itself |
| `Mangling.DemangleMangle` | torch_npu/_inductor/lowering_fx.py:114-124 | for every text, demangling its name gives what decoding the text without spaces gives |
| `Mangling.RoundTripExactly` | torch_npu/_inductor/lowering_fx.py:114-124 | the round trip returns the text exactly when it has no space, none of the letters a m d l r p, and no 'sub' |
| `Mangling.RoundTripUpToSpaces` | torch_npu/_inductor/lowering_fx.py:114-124 | up to the spaces that are dropped, the round trip returns the text exactly when no operator name occurs in the rest |
| `Mangling.ArithmeticRoundTrip` | torch_npu/_inductor/lowering_fx.py:101-124 | every arithmetic expression over digits, s and u symbols and the mapped operators comes back, without the spaces sympy prints |
| `Mangling.CollisionExactly` | torch_npu/_inductor/lowering_fx.py:114-118 | two texts get one name exactly when decoding identifies them |
| `Mangling.NamesAreDistinct` | torch_npu/_inductor/lowering_fx.py:156-169 | size expressions get one placeholder name exactly when they are the same up to spaces, and no mangled name is a symbol's name |
| `TracedGraphs.EvalSolves` | torch_npu/_inductor/lowering_fx.py:127-131 | in a duplicate-free closed graph evaluation gives every node the value of its function on its arguments' values |
| `TracedGraphs.SolutionIsUnique` | torch_npu/_inductor/lowering_fx.py:127-131 | no other assignment does |
| `TracedGraphs.SharedByName` | torch_npu/_inductor/lowering_fx.py:244-248 | graphs that define shared names alike compute them alike |
| `TracedGraphs.MergeNodes` | torch_npu/_inductor/lowering_fx.py:244-250 | the loop copies exactly the nodes not yet present, and never looks up a missing name |
| `TracedGraphs.MergeGraph` | torch_npu/_inductor/lowering_fx.py:237-250 | the same over nested lists of graphs |
| `TracedGraphs.CreateSymInputs` | torch_npu/_inductor/lowering_fx.py:156-169 | one placeholder for each size name not yet there |
| `TracedGraphs.MergeKeywords` | torch_npu/_inductor/lowering_fx.py:270-280 | keyword sizes are merged as graphs of one placeholder |
| `TracedGraphs.MergeTracedGraphs` | torch_npu/_inductor/lowering_fx.py:233-289 | the result is the merge that the theorems below are about |
| `TracedGraphs.MergeFxGraphs` | torch_npu/_inductor/lowering_fx.py:292-313 | the union of the graphs, and the last node of each |
| `MergeMeaning.MergedContents` | torch_npu/_inductor/lowering_fx.py:244-288 | a merged graph holds its inputs' nodes, size placeholders and the new call, nothing else |
| `MergeMeaning.MergedFits` | torch_npu/_inductor/lowering_fx.py:233-289 | the merged graph is duplicate-free and topologically closed, contains every input node and size, and is itself a graph of the session |
| `MergeMeaning.MergePreserves` | torch_npu/_inductor/lowering_fx.py:244-250 | every node of an input graph has in the merged graph the value it has in its own |
| `MergeMeaning.MergeAppliesFunction` | torch_npu/_inductor/lowering_fx.py:284-288 | the new last node is the function applied to the values of the inputs |
| `MergeMeaning.SessionPersists` | torch_npu/_inductor/lowering_fx.py:233-289 | a merge leaves every older graph of the session consistent |
| `MergeMeaning.FxMergePreserves` | torch_npu/_inductor/lowering_fx.py:292-313 | every node has in the union the value it has in its own graph |
| `MergeMeaning.ConsistentGraphsFormSession` | torch_npu/_inductor/lowering_fx.py:244-248 | graphs that agree pairwise are graphs of one session, so the theorems apply to them |
| `Lowering.NodeNamesDiffer` | torch_npu/_inductor/lowering_fx.py:71-71 | names made from different counter values differ, whatever the operations are called |
| `Lowering.LoweringSession.constructor` | torch_npu/_inductor/lowering_fx.py:71-71 | a session starts with no graphs and the counter at 0 |
| `Lowering.LoweringSession.FetchInput` | torch_npu/_inductor/lowering_fx.py:220-229 | a buffer without a graph becomes a placeholder graph consistent with all others |
| `Lowering.LoweringSession.Lower` | torch_npu/_inductor/lowering_fx.py:1426-1432 | each lowering merges under the next counter name; all graphs of the session, the new one included, stay mutually consistent |
| `Lowering.LoweringSession.GraphsAreConsistent` | torch_npu/_inductor/lowering_fx.py:244-248 | any two graphs of a session compute their shared names alike |
| `Lowering.LoweringSession.NextNameIsNew` | torch_npu/_inductor/lowering_fx.py:71-71 | the next name is not in use |
| `Subtraction.PlaceStand` | torch_npu/_inductor/lowering_fx.py:323-325 | the placeholder stands for graph2's last node exactly when node_name is not a node of graph1 |
| `Subtraction.CopyKept` | torch_npu/_inductor/lowering_fx.py:326-330 | one node is skipped or copied; the KeyError is raised exactly when it refers to a removed node |
| `Subtraction.CopyAll` | torch_npu/_inductor/lowering_fx.py:326-330 | the same for all nodes |
| `Subtraction.SubtractGraph` | torch_npu/_inductor/lowering_fx.py:316-333 | fails exactly when a kept node or the result refers to a removed node; otherwise returns the difference and its placeholder, which is named as asked |
| `Subtraction.DifferenceNames` | torch_npu/_inductor/lowering_fx.py:323-330 | what remains: exactly the nodes of graph1 that are not in graph2 or are symbolic sizes, and one placeholder, called node_name unless that is a node of graph1, or as graph2's last node when no name is given; the symbolic sizes are those of graph1 |
| `Subtraction.DifferenceOK` | torch_npu/_inductor/lowering_fx.py:316-333 | the difference is duplicate-free and closed |
| `Subtraction.SubtractionIsSubstitution` | torch_npu/_inductor/lowering_fx.py:316-333 | with the placeholder bound to graph2's result, every name the difference can speak of has its value in graph1 |
| `Subtraction.SubtractionKeepsResult` | torch_npu/_inductor/lowering_fx.py:331-331 | in particular both have the same result |
| `Reduction.SplitAxes` | torch_npu/_inductor/lowering_fx.py:685-695 | kept and reduced dimensions and their sizes, in order |
| `Reduction.WriteAt` | torch_npu/_inductor/lowering_fx.py:706-710 | the positions written hold their values, all others are untouched |
| `Reduction.Scatter` | torch_npu/_inductor/lowering_fx.py:706-710 | every position of the new index is filled, from the kept or the reduced index |
| `Reduction.Loader` | torch_npu/_inductor/lowering_fx.py:697-711 | raises exactly on mismatched lengths; otherwise reads the combined index |
| `Reduction.EveryElementIsRead` | torch_npu/_inductor/lowering_fx.py:697-711 | every element of the input is read by a pair of indices within the declared ranges, with or without keepdims |
| `Reduction.NoElementIsReadTwice` | torch_npu/_inductor/lowering_fx.py:697-711 | each pair within the ranges reads an element within the input, and that element determines the pair |
| `Reduction.SumIsConserved` | torch_npu/_inductor/lowering_fx.py:697-728 | for any rank, shape and axes, summing the sums over reduced indices gives the sum of the whole tensor |
| `Reduction.LoaderConservesSum` | torch_npu/_inductor/lowering_fx.py:713-728 | the same through the loader and its declared ranges, with or without keepdims |
| `IndexLowering.LengthCountsSteps` | torch_npu/_inductor/lowering_fx.py:1440-1440 | position k lies in the source exactly when start + k*step lies before the end |
| `IndexLowering.MasksAre` | torch_npu/_inductor/lowering_fx.py:1453-1479 | the masks that are kept hold together exactly on the slice, the quotient is the slice position, and the list is empty only when everything is selected |
| `IndexLowering.SliceScatterMeets` | torch_npu/_inductor/lowering_fx.py:1444-1489 | never raises or reads the source out of range; source element k exactly at start + k*step, x everywhere else |
| `IndexLowering.ResliceReturnsSource` | torch_npu/_inductor/lowering_fx.py:1437-1489 | slicing the result again returns the source |
| `IndexLowering.ConstantPadMeets` | torch_npu/_inductor/lowering_fx.py:1699-1737 | in terms of the padding list alone, for any signs: the k-th pair widens the k-th dimension from the end, and the result is x at the index shifted by the first entries of the pairs where that lies in x, and the fill value elsewhere; x is never read out of range |
| `IndexLowering.ConstantPadNd` | torch_npu/_inductor/lowering_fx.py:1691-1745 | raises exactly on odd padding length; its ranges are the widened sizes, it can be read everywhere in them, and its elements are those of x at the shifted index or the fill value |
| `IndexLowering.CropUndoesPad` | torch_npu/_inductor/lowering_fx.py:1704-1737 | cropping by the same amounts undoes padding, whatever the fill values |

## Left out

- Device and C++ calls, streams, real graph capture and reference counts: only their effect on liveness and addresses is modelled.
- Behaviour across generations: when a new generation starts, storages of the old one are deliberately given up and no longer protected (`EndPath`).
- Exceptions raised by a model while it runs, warnings, logging, history recording and deferred error messages on overwritten storages.
- Static-input stability outside re-recording, copying of inputs into recorded buffers, and tensor metadata other than the data pointer.
- Log relay between ranks, thread start and stop, pickling, the checksum computation and its own cooldown, the older detectors and hook registration in asd.py.
- Floating-point rounding in the average.
- CPU outputs in whole sessions: with disable_cpu_input_check on, `CheckpointIsExact` says when a checkpoint still works; what the manager does after the allocator rejects a pointer is not modelled.
- Recording.RecordKeepsInv: `writes` means memory handed out by the allocator during the capture; a live managed input that the function mutates in place keeps its storage and is not among it.
- ManagerState.RecordSpares: the same reading of `writes`.
- Ring.Queue.Push: requires a free slot at the tail, because the code does not block when it overwrites an occupied one.
- Ring.Queue.Enqueue: the same.
- StrikeTheorems.WarningsAreSound: stated for strikes_num >= 3 and events in order; `ReuseExactlyAtTwo` settles the other values for reuse.
- StrikeForgetting.SearchNeverFallsOff: for the forgetting detector it assumes that expired entries are removed at the time of the event; a later clock can empty the history, which `ForgettingIsHarmless` covers.
- Lowering.LoweringSession.FetchInput: assumes that graph inputs and sizes are not called like an operation with a counter, which the generator of buffer names ensures.
- Renaming by torch.fx when a requested placeholder name is taken or is not an identifier: names are kept as requested.
- Subtraction.SubtractionIsSubstitution: assumes, when no node name is given, that graph2's last node is not a symbolic size of graph1, since torch.fx would rename the second placeholder.
- Subtraction.DifferenceOK: the same assumption.
- Subtraction.SubtractionKeepsResult: the same assumption.
- Tuples nested in merge inputs, which merge_graph does not enter although parse_args does: nested inputs are lists.
- Printing of sympy expressions, axis validation, normalisation of slice bounds and broadcasting of the source: their results are inputs.
- IndexLowering.ConstantPadNd: assumes at most as many padded dimensions as there are dimensions, which the operator checks before lowering.
- The code generator create_fx_from_snodes_by_traced_graph, code templates, dtype promotion and the other operator registrations: wrappers over inductor.
