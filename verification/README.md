# Verified models of a systems notebook's algorithmic cores

This project models, in Dafny, the parts of the repository that carry real algorithms, and proves what each
of them is for. `dafny verify dfyconfig.toml` checks everything.

- **A doubly buffered value and the topologies built on it.** `DoublyBuffered` is the protocol of
  `double_buffer/brpc_double.cpp` as a state machine: one step per lock, unlock, load, store or callback, for
  any number of readers, modifiers and threads that join or leave the wrapper list. `DoublyBufferedThreads` lets
  one thread both read and modify and settles when that can deadlock. `TopologyLifetime` puts
  `ModuleTopologyManager`'s reference counts, two-copy edits, storage and `wait_and_delete` on top of the
  protocol. `TopologyChoice` says what a request gets and what an edit does in terms of the published history,
  `TopologyReclaim` settles which topologies are reclaimed in the end, and `TopologyProgress` that a call can
  always be finished. All theorems are about every interleaving.
- **Schedulers.** `TopologySort` (the wave sort with its set of parallel modules), `TopologyPackers` (the
  short topology forms that feed it), `TopologyValidation` (the checks in front of it), `Typelist` and
  `TaskDsl` (the compile-time quicksort over a partial order), `DagExecutor` (the depth-first executor) and
  `CycleDetection`. `Graphs` and `Sequences` hold what they share: paths, reachability, acyclicity and the
  pigeonhole argument.
- **Paged attention.** `PagedKv` (block pool, tables, copy-on-write, accounting) as values, `PagedKvReading` for
  what the branches read back under arbitrary appends and where, `PagedKvCache` as the mutable classes, `Attention`
  as the dense reference over `real`, `PrefixCache` and `PrefixBlockManagers` for the hash-chained prefix cache. `Arithmetic` holds the facts about quotients that they need.
- **Stand-alone pieces.** `EliasFano` (coding, the scalar and the eight-lane decoder, partitions),
  `Expression` (the infix evaluator) and `LruCache` (the linked list with its map).

Loops and objects of the source are methods and classes here. Each is proved equal to a function on values, and
the theorems are about those functions; protocols are step functions with inductive invariants.

Choices that decide what the theorems say:

- Steps are sequentially consistent, and a thread has at most one outstanding `Read`, because a wrapper's
  mutex is not recursive.
- `DoublyBuffered` treats the reading and the modifying half of a thread as independent, which covers more
  interleavings than there are; safety holds for all of them. Progress does not carry over, so it is stated in
  `DoublyBufferedThreads`, where a thread inside `Modify` does nothing else.
- The result of a callback is the abstract predicate `publishes`. `brpc_double.cpp` reads a nonzero result as
  "do not publish" (362-366), `Index::replace` and `remove` return 1 for success; the topology model publishes
  when they do.
- A callback must leave its data unchanged when it declines to publish. This is not a convenience:
  `CopiesAgreeExactlyWhenDeclinesAreClean` shows that without it the two copies differ after some run.
- `exp`, `sqrt`, the hash, the type test `is_sync_module`, the gflags and the iteration order of hash maps are
  parameters. The hash is only assumed not to collide on the inputs that are actually hashed.
- Running out of blocks, unregistered elements, unwritten slots, empty keys and the like are results
  (`Option`, `Result`, `Verdict`), not preconditions.

Where a property holds only under a condition, the condition is proved exact:

- A branch of the paged cache goes on reading its history exactly as long as no append writes another key or value
  into a slot that it already counts (`AppendReads`, `HarmlessExactly`, and over whole runs `MaterializeIsHistory`).
  That an append is isolated is a stronger condition, and is exactly what keeps the accounting right
  (`AppendExact`).
- A topology whose `Delete` comes before its `Store` is never reclaimed; `EveryTopologyIsAccountedFor` shows that
  these, and only these, stay in the storage unlisted, and `QuickReplacementIsNeverReclaimed` is such a run.
- The protocol can deadlock only through a thread that calls `Modify` while it holds a pointer (`StuckMeansBlocked`,
  `NeverDeadlocks`), and then does (`SelfDeadlock`, `BlockedForever`).
- `ChainRunsAsDeclared` and `SyncIsFirstExactlyWhenNamed` for unnamed elements, `SolveDefined` for unclosed
  parentheses, `Executor.ExecuteAll` for cycles, `CopiesAgreeExactlyWhenDeclinesAreClean` for callbacks.

## Model

| member | source | states |
|---|---|---|
| `DoublyBuffered.RemoveWrapper` | double_buffer/brpc_double.cpp:271-285 | the scan-and-pop loop removes the first match by putting the last entry in its place; all others stay where they are |
| `DoublyBuffered.SwapRemoveContents` | double_buffer/brpc_double.cpp:271-285 | swapping with the last element removes exactly that wrapper and keeps the list free of duplicates |
| `DoublyBuffered.InvStep` | double_buffer/brpc_double.cpp:226-393 | every step of every reader and modifier keeps the mutex, wrapper and holder invariants, and the contents of both copies when declines are clean |
| `DoublyBuffered.RunInv` | double_buffer/brpc_double.cpp:226-393 | the invariants hold in every state of every interleaving |
| `DoublyBuffered.CallbacksAreExclusive` | double_buffer/brpc_double.cpp:324-393 | no callback ever runs on an instance that a reader holds through its pointer, and only one `Modify` is active |
| `DoublyBuffered.QuiescentCopiesAgree` | double_buffer/brpc_double.cpp:350-393 | whenever no `Modify` is in progress both copies equal the fold of all published callbacks in flip order |
| `DoublyBuffered.HeldInstanceIsAVersion` | double_buffer/brpc_double.cpp:185-187 | what a reader holds is the fold of exactly the callbacks published when it loaded the index, at most one behind |
| `DoublyBuffered.HistoryGrows` | double_buffer/brpc_double.cpp:378-378 | the published history only grows and each reader's last version never falls |
| `DoublyBuffered.ReadsAreMonotone` | double_buffer/brpc_double.cpp:96-108 | successive reads of one thread see non-decreasing versions, and equal versions have equal contents |
| `DoublyBufferedThreads.InsideFromCallToReturn` | double_buffer/brpc_double.cpp:350-393 | in every run, a thread counts as inside `Modify` with a callback exactly from that call to its return |
| `DoublyBufferedThreads.StuckMeansBlocked` | double_buffer/brpc_double.cpp:242-393 | whatever the threads do, while one is inside a call or holds a pointer, one of these can take its next step, unless a `Modify` waits for a thread that holds a pointer and is itself inside `Modify` |
| `DoublyBufferedThreads.NeverDeadlocks` | double_buffer/brpc_double.cpp:242-393 | if no thread calls `Modify` while it holds a pointer, the protocol never deadlocks |
| `DoublyBufferedThreads.BlockedForever` | double_buffer/brpc_double.cpp:381-388 | a `Modify` that waits for such a thread waits in every later state of the run |
| `DoublyBufferedThreads.SelfDeadlock` | double_buffer/brpc_double.cpp:381-388 | for every publishing callback, the run in which one thread reads, keeps its pointer, calls `Modify` and waits for its own wrapper, with nothing left to move |
| `DoublyBufferedThreads.DeadlockNeedsPublishing` | double_buffer/brpc_double.cpp:362-388 | threads without that discipline are free of deadlock if and only if no callback ever publishes |
| `DoublyBuffered.DecliningRun` | double_buffer/brpc_double.cpp:362-366 | a declining callback leaves its effect on the background copy only |
| `DoublyBuffered.CopiesAgreeExactlyWhenDeclinesAreClean` | double_buffer/brpc_double.cpp:352-393 | the copies agree in every quiescent state of every run if and only if declining callbacks leave their data unchanged |
| `TopologyLifetime.IndexApi` | DAG/sw/server/ModuleTopologyManager.cpp:211-230 | `replace` and `remove` as callbacks decline only without changing the index |
| `TopologyLifetime.ApplyFacts` | DAG/sw/server/ModuleTopologyManager.cpp:211-230 | an edit keeps the index injective, adds at most the new topology, and what it captures was listed and no longer is |
| `TopologyLifetime.WithoutContents` | DAG/sw/server/ModuleTopologyManager.cpp:101-111 | `Delete` erases exactly the entries of one topology |
| `TopologyLifetime.ChosenIsListed` | DAG/sw/server/RpcServiceImpl.cpp:46-85 | a topology chosen but not yet counted is still listed by a copy and alive |
| `TopologyChoice.IndexIsHistory` | DAG/sw/server/ModuleTopologyManager.cpp:211-230 | after any series of edits a name stands for a topology if and only if the last edit of that name is its replacement by it |
| `TopologyChoice.ChoiceFollowsHistory` | DAG/sw/server/RpcServiceImpl.cpp:46-85 | in every run, a request can choose if and only if the picker's answer or the default is bound by the edits published up to the version it holds; it gets what the last edit of the answer binds, and what the last edit of the default binds only when there is no answer or it is not bound |
| `TopologyChoice.EditTakesEffect` | DAG/sw/server/ModuleTopologyManager.cpp:638-712 | in every run, when the `Modify` of `add_topology` returns both copies map the name to the new topology, and when that of `remove_topology` returns the name is in neither |
| `TopologyChoice.GivesUpExactlyWhenMissing` | DAG/sw/server/ModuleTopologyManager.cpp:699-710 | in every run, a replacement is always published, and a removal is published if and only if the published edits bind its name; otherwise it reports that the topology does not exist |
| `TopologyChoice.PublishedRemovalsFoundTheirName` | DAG/sw/server/ModuleTopologyManager.cpp:221-230 | in every run, each published removal found its name bound by the edits before it |
| `TopologyLifetime.DeleteKeepsInv` | DAG/sw/server/ModuleTopologyManager.cpp:714-722 | freeing after the count was seen at zero keeps the whole invariant: nothing listed, chosen, held or retired elsewhere is freed |
| `TopologyLifetime.StepKeepsInv` | DAG/sw/server/ModuleTopologyManager.cpp:638-722 | every step of every request and manager keeps the invariant |
| `TopologyLifetime.RunInv` | DAG/sw/server/ModuleTopologyManager.cpp:638-722 | the invariant holds in every state of every run |
| `TopologyLifetime.NothingInUseIsFreed` | DAG/sw/server/ModuleTopologyManager.cpp:714-722 | in every run no freed topology is held, chosen, listed or still to be deleted, each is freed at most once, and the counter is the number of holders |
| `TopologyLifetime.RetiredIsGone` | DAG/sw/server/ModuleTopologyManager.cpp:699-712 | after the two-copy edit returned, what it took out is listed by no copy and published by nobody |
| `TopologyLifetime.GoneStaysGone` | DAG/sw/server/ModuleTopologyManager.h:26-28 | no step brings such a topology back or raises its count |
| `TopologyLifetime.RetiredCountsOnlyFall` | DAG/sw/server/ModuleTopologyManager.cpp:714-722 | in every later state of the run its count is no higher, so a count of zero is final |
| `TopologyLifetime.DeleteReclaimsExactlyTheStored` | DAG/sw/server/ModuleTopologyManager.cpp:101-111 | one deletion, in any run: it frees the topology if and only if the storage holds it, and it had not been freed before |
| `TopologyProgress.SpinWaitsForHolders` | DAG/sw/server/ModuleTopologyManager.cpp:714-719 | in every run, the spin ends if and only if no request holds the topology, and while one does it can let go |
| `TopologyProgress.ReclaimingCanFinish` | DAG/sw/server/ModuleTopologyManager.cpp:714-722 | from every state that a run reaches, a call that has topologies to reclaim can be run to its end; then none of them is held or stored, those that were stored are freed, and nothing else has changed |
| `TopologyReclaim.StepKeepsTrack` | DAG/sw/server/ModuleTopologyManager.cpp:638-722 | every step keeps track: each topology created is stored, freed or still to be stored, and is being published, listed, being retired, freed or missed; what is missed is out of reach |
| `TopologyReclaim.EveryTopologyIsAccountedFor` | DAG/sw/server/ModuleTopologyManager.cpp:638-649 | in every run, whenever all managers rest, every topology ever created is exactly one of listed in both copies, freed once, or missed because its `Delete` came before its `Store`; the missed ones are exactly the unlisted entries of the storage |
| `TopologyReclaim.QuickReplacementIsNeverReclaimed` | DAG/sw/server/ModuleTopologyManager.cpp:644-648 | the run of two managers in which the second replaces and deletes a topology before the first has stored it: all managers rest and it is in the storage, unlisted and not freed |
| `TopologySort.UpstreamAllRemoved` | DAG/sw/server/ModuleTopologyManager.cpp:377-383 | the early-exit loop decides whether all dependencies are removed |
| `TopologySort.SequentialPass` | DAG/sw/server/ModuleTopologyManager.cpp:374-415 | a pass without `parallel_modules` extends the partial schedule in declared order, places each element in the first pass that can take it, and finds nothing exactly when nothing is ready |
| `TopologySort.ParallelPass` | DAG/sw/server/ModuleTopologyManager.cpp:374-415 | a pass with `parallel_modules` yields the ready elements in declared order and sorts their names into the three lists |
| `TopologySort.ParallelRound` | DAG/sw/server/ModuleTopologyManager.cpp:374-431 | round k removes exactly the elements of level k and keeps the parallel set exact |
| `TopologySort.PickedContents` | DAG/sw/server/ModuleTopologyManager.cpp:393-401 | which names a list holds, and when it has more than one |
| `TopologySort.ReadyIsLevel` | DAG/sw/server/ModuleTopologyManager.cpp:375-385 | an element is ready in wave k exactly when its longest dependency chain has k edges |
| `TopologySort.SameLevelIsIndependent` | DAG/sw/server/ModuleTopologyManager.cpp:416-421 | modules of one level do not depend on each other, even transitively |
| `TopologySort.StuckIsUnsortable` | DAG/sw/server/ModuleTopologyManager.cpp:429-431 | when nothing is ready, names repeat, a dependency is missing or there is a cycle |
| `TopologySort.FullIsSchedule` | DAG/sw/server/ModuleTopologyManager.cpp:373-373 | when as many names are removed as there are elements, the order is a complete schedule |
| `TopologySort.ScheduleIsAcyclic` | DAG/sw/server/ModuleTopologyManager.cpp:363-435 | an order with dependencies first exists only for unique, listed, acyclic names |
| `TopologySort.Sort` | DAG/sw/server/ModuleTopologyManager.cpp:363-435 | terminates; true if and only if names are unique, dependencies listed and the graph acyclic, in either mode; the output is then a permutation with dependencies first, in parallel mode by level and then by declared position, otherwise pass by pass; each output element carries its name, the declared dependencies and the factory registered under that name, or none; `parallel_modules` is exactly the modules whose registered factory is sync and that are allowed or, with the flag off, share a level with another such module |
| `TopologySort.GreedyIsUnique` | DAG/sw/server/ModuleTopologyManager.cpp:373-415 | a topology has only one order that is pass by pass with every element as early as possible, so the sequential output is determined |
| `TopologySort.DeclaredOrderIsKept` | DAG/sw/server/ModuleTopologyManager.cpp:373-415 | the sequential mode keeps a declared order that already has all dependencies first |
| `TopologySort.SortedFormExists` | DAG/sw/server/ModuleTopologyManager.cpp:363-435 | every sortable topology has a result of the promised form in either mode |
| `TopologyPackers.PackMinimal` | DAG/sw/server/component/RpcComponentImpl.cpp:18-36 | each element depends on the one before it, unless that one has no name |
| `TopologyPackers.PackSimple` | DAG/sw/server/component/RpcComponentImpl.cpp:38-56 | the same chain, with each element's own parameters |
| `TopologyPackers.FindFactory` | DAG/sw/server/component/RpcComponentImpl.cpp:79-84 | the factory of the last definition of that name, or the empty string when there is no definition |
| `TopologyPackers.PackSemiSequential` | DAG/sw/server/component/RpcComponentImpl.cpp:58-98 | succeeds exactly when no element resolves to an empty factory; else each element keeps its declared dependencies and also depends on the last element before it whose factory is sync, unless that one has no name or is among them already |
| `TopologyPackers.ChainIsSortable` | DAG/sw/server/component/RpcComponentImpl.cpp:18-56 | the sort accepts a chain if and only if its names are distinct |
| `TopologyPackers.ChainScheduleIsIdentity` | DAG/sw/server/component/RpcComponentImpl.cpp:18-56 | every schedule of a chain of named elements is the declared order |
| `TopologyPackers.ChainRunsAsDeclared` | DAG/sw/server/component/RpcComponentImpl.cpp:18-56 | the sequential sort always runs a chain as declared, the parallel one if and only if the elements between the first and the last have names |
| `TopologyPackers.PackAndSort` | DAG/sw/server/component/RpcComponentImpl.cpp:18-36 | packing then sorting accepts exactly distinct names; the result is then as declared if and only if the mode is sequential or the elements between the first and the last have names |
| `TopologyPackers.ChainIsForcedExactlyWhenNamed` | DAG/sw/server/component/RpcComponentImpl.cpp:28-31 | the declared order is the only admissible one if and only if every element but the last has a name |
| `TopologyPackers.UnnamedElementBreaksTheChain` | DAG/sw/server/component/RpcComponentImpl.cpp:28-31 | a concrete chain in which an element may overtake an unnamed one |
| `TopologyPackers.SyncRunsBeforeLater` | DAG/sw/server/component/RpcComponentImpl.cpp:58-98 | in every accepted topology with named sync elements, a sync element runs before everything declared after it |
| `TopologyPackers.SyncIsFirstExactlyWhenNamed` | DAG/sw/server/component/RpcComponentImpl.cpp:73-93 | in what the sort returns, in either mode, that guarantee holds for all further dependencies if and only if every sync element but a last one has a name |
| `TopologyPackers.UnnamedIsOvertaken` | DAG/sw/server/component/RpcComponentImpl.cpp:73-93 | otherwise there is an accepted topology of the same names that the sort, in either mode, runs with a later element before a sync element |
| `TopologyPackers.UnnamedSyncIsNotWaitedFor` | DAG/sw/server/component/RpcComponentImpl.cpp:73-93 | a concrete topology for which the parallel sort can only return the third element in the first wave, beside the first sync element and before the unnamed second |
| `TopologyValidation.CheckElements` | DAG/sw/server/ModuleTopologyManager.cpp:553-566 | reports the first element that is undefined or a duplicate, and otherwise collects all names |
| `TopologyValidation.CheckDependencies` | DAG/sw/server/ModuleTopologyManager.cpp:568-577 | reports a dependency that is not an element exactly when there is one |
| `TopologyValidation.Validate` | DAG/sw/server/ModuleTopologyManager.cpp:546-600 | accepts exactly non-empty, defined, sortable topologies; "loop found" is reported exactly for cycles; the accepted result is the sort's |
| `PagedKv.AppendEffect` | paged_attention_lab/paged_kv.py:165-191 | what the three kinds of append do to the pool, block by block |
| `PagedKv.ForkKeepsInv` | paged_attention_lab/paged_kv.py:158-163 | a fork shares every block, counts it once more and copies the branch's history |
| `PagedKv.AppendExact` | paged_attention_lab/paged_kv.py:165-191 | an append fails exactly when it needs a block and none is free; one that succeeds keeps every block's used count equal to what each holder counts, and the reported saving exact, if and only if copy-on-write is on, it starts a block, or its tail is not shared |
| `PagedKv.UnisolatedAppendMiscounts` | paged_attention_lab/04_prefix_cow.py:86-91 | after every other append the saving computed from the counts is larger than the one reported |
| `PagedKv.PlainAppendsCollide` | paged_attention_lab/paged_kv.py:165-191 | a concrete pair of branches in which one reads the other's token |
| `PagedKv.SharedTailIsSound` | paged_attention_lab/paged_kv.py:158-163 | the starting state of that pair satisfies the invariant |
| `PagedKv.StepKeepsInv` | paged_attention_lab/paged_kv.py:154-191 | every create, fork and isolated append keeps counts, free list and stored histories exact |
| `PagedKv.RunInv` | paged_attention_lab/paged_kv.py:75-191 | over every run of isolated appends: each count is the number of table entries, the free list is duplicate-free and exactly the blocks with count 0, each branch stores its history and no block has slots beyond it |
| `PagedKv.IterateYields` | paged_attention_lab/paged_kv.py:193-205 | iterating over a stored table yields its history and nothing beyond it |
| `PagedKvReading.AppendKeepsLayout` | paged_attention_lab/paged_kv.py:165-191 | every append, isolated or not, keeps counts, free list and tables right, and fails exactly when it needs a block and none is free |
| `PagedKvReading.AppendReads` | paged_attention_lab/paged_kv.py:165-214 | after an append every branch reads its own history if and only if the append does not put another key or value into a slot that another branch counts |
| `PagedKvReading.HarmlessExactly` | paged_attention_lab/paged_kv.py:165-214 | this holds for every token if and only if copy-on-write is on, the append starts a block, its tail is not shared, or no other holder of the tail counts the slot |
| `PagedKvReading.IterateExact` | paged_attention_lab/paged_kv.py:193-205 | iterating yields the history if and only if each block shows its part of it; slots beyond the token count are never read |
| `PagedKvReading.RunLocates` | paged_attention_lab/paged_kv.py:193-205 | in every state of every run, whatever it overwrites, what a branch reads as token k comes from slot k % block_size of the block that its table names at k / block_size |
| `PagedKvReading.RunReads` | paged_attention_lab/paged_kv.py:154-214 | in every run of arbitrary appends counts, free list and tables are right, and all branches read their histories up to the first overwriting append |
| `PagedKvReading.MaterializeIsHistory` | paged_attention_lab/paged_kv.py:207-214 | in a run of any creates, forks and appends, every branch reads its own history in every state if and only if no append overwrites a token of another branch |
| `PagedKvReading.IsolatedRunReads` | paged_attention_lab/paged_kv.py:158-214 | in particular when every append is isolated |
| `PagedKv.SavingIsExact` | paged_attention_lab/04_prefix_cow.py:86-91 | in every state of every run of isolated appends, tokens minus stored slots is the sum of (count - 1) * used slots over live blocks, and not negative; the stored slots are the distinct written slots of live blocks and the tokens are those of all branches |
| `PagedKvCache.BlockPool.AllocateBlock` | paged_attention_lab/paged_kv.py:75-81 | takes the front of the free list and hands that block out empty with one reference, no other block changed; refuses exactly when the list is empty |
| `PagedKvCache.BlockPool.IncRef` | paged_attention_lab/paged_kv.py:83-86 | one more reference, nothing else |
| `PagedKvCache.BlockPool.DecRef` | paged_attention_lab/paged_kv.py:88-95 | one reference less, and the block joins the end of the free list exactly at zero; refused exactly on an unreferenced block |
| `PagedKvCache.BlockPool.CloneBlock` | paged_attention_lab/paged_kv.py:97-107 | the front of the free list becomes a copy of the written slots with one reference, no other block changed; refuses exactly when the list is empty |
| `PagedKvCache.BlockPool.Write` | paged_attention_lab/paged_kv.py:109-123 | one slot written and the used count raised just enough to cover it |
| `PagedKvCache.PagedKVCache.CreateSequence` | paged_attention_lab/paged_kv.py:154-156 | a new empty sequence |
| `PagedKvCache.PagedKVCache.Fork` | paged_attention_lab/paged_kv.py:158-163 | a new sequence equal to its parent, which is unchanged, with every block counted once more |
| `PagedKvCache.PagedKVCache.Append` | paged_attention_lab/paged_kv.py:165-191 | the mutable append is the function above; when it runs out of blocks neither pool nor sequence has changed |
| `PagedKvCache.PagedKVCache.IterKv` | paged_attention_lab/paged_kv.py:193-205 | the generator's loop yields what `Iterate` yields |
| `PagedKvCache.PagedKVCache.Materialize` | paged_attention_lab/paged_kv.py:207-214 | keys and values in logical order |
| `PagedKvCache.PagedKVCache.DecodeAttention` | paged_attention_lab/paged_kv.py:216-242 | dense attention over what the table reads back, with the block and slot of each token, or the error of either |
| `PagedKvCache.ScoreEntries` | paged_attention_lab/paged_kv.py:216-242 | the scoring loop computes the dense scores |
| `PagedKvCache.PagedEqualsDense` | paged_attention_lab/paged_kv.py:216-242 | in every state of every run that overwrites no other branch's token, decode attention equals dense attention over the branch's history |
| `Attention.AddScaled` | paged_attention_lab/utils.py:32-34 | adds in place; raises exactly when the source is shorter than the target |
| `Attention.WeightedSum` | paged_attention_lab/utils.py:49-83 | the accumulation loop is the weighted sum, or an index error exactly when some value is too short |
| `Attention.AttentionOneQuery` | paged_attention_lab/utils.py:49-83 | the loops compute `Attend`; with an exponential, weights and output are those of scaled dot-product attention |
| `Attention.AttendExactly` | paged_attention_lab/utils.py:49-83 | for every `exp` that is positive and turns sums into products: each weight times the sum of the exponentials of all scores is the exponential of its own score, where a score times sqrt(d) is query times key; each output coordinate is the weighted sum of that coordinate of the values; and each error has its exact condition |
| `Attention.SoftmaxIsShiftedQuotient` | paged_attention_lab/utils.py:22-29 | whatever `exp` is, a weight is the exponential of its score less the highest score over the sum of these, and division by zero is reported exactly when that sum is zero |
| `Attention.SoftmaxIsProportional` | paged_attention_lab/utils.py:22-29 | with an exponential the shift cancels: weights are proportional to the exponentials of the scores |
| `Attention.HigherScoreWeighsMore` | paged_attention_lab/utils.py:22-29 | with an increasing exponential a score is higher exactly when its weight is |
| `Attention.DotIsSumOfProducts` | paged_attention_lab/utils.py:18-19 | the dot product is the sum of the products of the coordinates that both vectors have |
| `Attention.SumOfConcatenation` | paged_attention_lab/utils.py:18-29 | the sum of two lists put together is the sum of their sums |
| `Attention.SoftmaxIsDistribution` | paged_attention_lab/utils.py:22-29 | with a positive exponential softmax never fails, and its weights are positive and sum to one |
| `PrefixCache.ChainIsPrefix` | paged_attention_lab/05_prefix_cache.py:38-45 | without collisions equal chained digests mean equal block prefixes |
| `PrefixCache.IndexedMeansSeen` | paged_attention_lab/05_prefix_cache.py:58-103 | a digest is indexed exactly when an earlier sequence starts with the same blocks, and its block has the same tokens |
| `PrefixCache.PlaceFull` | paged_attention_lab/05_prefix_cache.py:58-103 | placing a full block hits exactly in that case, keeps the invariant, and fails only on a miss without free blocks |
| `PrefixCache.PlaceTail` | paged_attention_lab/05_prefix_cache.py:58-103 | a partial block never hits and takes a block of its own |
| `PrefixCache.SharedExactly` | paged_attention_lab/05_prefix_cache.py:58-103 | two sequences share a physical block exactly when it is the same full block index after the same full blocks |
| `PrefixCache.SharedTokens` | paged_attention_lab/05_prefix_cache.py:58-103 | they share block i exactly when both have a full block i and agree on the first (i + 1) * block_size tokens |
| `PrefixCache.PlaceKeepsRefs` | paged_attention_lab/05_prefix_cache.py:47-103 | each reference count stays the number of table entries that point at the block, and the used blocks are the counted ones |
| `PrefixCache.PlaceChangesOneBlock` | paged_attention_lab/05_prefix_cache.py:47-100 | one block changes: a hit counts one more reference to a block with the same tokens, even if hashes collide; a miss records the tokens and, for a full block, the digest, which then leads to it |
| `PrefixCache.PlaceTakesFirstFree` | paged_attention_lab/05_prefix_cache.py:88-92 | a miss takes the front of the free list and fails exactly when it is empty; a hit leaves it alone |
| `PrefixCache.SameBlocks` | paged_attention_lab/05_prefix_cache.py:58-68 | equal block lists mean equal token prefixes and conversely |
| `PrefixBlockManagers.PrefixBlockManager.AllocateId` | paged_attention_lab/05_prefix_cache.py:47-56 | takes the block if it is free and refuses otherwise |
| `PrefixBlockManagers.PrefixBlockManager.Place` | paged_attention_lab/05_prefix_cache.py:66-103 | the loop body is `PlaceBlock`; nothing changes when it raises |
| `PrefixBlockManagers.PrefixBlockManager.Round` | paged_attention_lab/05_prefix_cache.py:62-103 | one round places the next block and tracks whether the prefix was seen; a hit leaves the free list alone, a miss takes its front, and it fails only on a miss with an empty list |
| `PrefixBlockManagers.PrefixBlockManager.Allocate` | paged_attention_lab/05_prefix_cache.py:58-103 | keeps the invariant and the counts; `num_cached_tokens` is block_size times the longest full-block prefix shared with any earlier sequence; succeeds if and only if the remaining blocks are at most as many as are free, and then exactly these leave the front of the free list for the table |
| `PrefixBlockManagers.AllocateSeries` | paged_attention_lab/05_prefix_cache.py:31-103 | a new manager and any series of sequences: all fit if and only if the blocks they need beyond what each shares with an earlier one are at most num_blocks, and the first that does not fit is the one that exceeds it; physical sharing and cached-token counts are stated in their tokens |
| `Typelist.FilterContents` | recipes/Typelist.hpp:48-58 | the filter keeps exactly the elements that satisfy the predicate |
| `Typelist.PartitionContents` | recipes/Typelist.hpp:71-88 | the two parts hold all elements, divided by the predicate |
| `Typelist.SortKeepsElements` | recipes/Typelist.hpp:127-141 | the quicksort permutes its input |
| `Typelist.SortExtends` | recipes/Typelist.hpp:127-141 | with a comparator that is only a strict partial order, the result is a linear extension |
| `Typelist.UniqueContents` | recipes/Typelist.hpp:153-164 | the same elements without repetition |
| `Typelist.UniqueKeepsOrder` | recipes/Typelist.hpp:153-164 | what any prefix leaves comes first, so elements keep the order of their first occurrences |
| `TaskDsl.SuccessorsContents` | recipes/TaskDSL.cpp:37-47 | the direct descendants of a job are the targets of its links |
| `TaskDsl.LookupContents` | recipes/TaskDSL.cpp:60-62 | looking a job up in the descendants map gives its direct descendants |
| `TaskDsl.AllJobsContents` | recipes/TaskDSL.cpp:32-35 | all jobs of the links, each once |
| `TaskDsl.FindAllContents` | recipes/TaskDSL.cpp:56-69 | the recursion terminates on acyclic links and collects everything below its list |
| `TaskDsl.DescendantsAreReachable` | recipes/TaskDSL.cpp:56-69 | on any acyclic link set `FindAllDescendants` is the transitive closure |
| `TaskDsl.RunsEachJobOnceInOrder` | recipes/TaskDSL.cpp:55-104 | `Run` executes every distinct job once and each link's source before its destination |
| `DagExecutor.Executor.AddModule` | DAG/dag.cpp:46-48 | a module added under a known name replaces the first |
| `DagExecutor.Executor.Execute` | DAG/dag.cpp:61-69 | terminates, runs the module after what it started, and repeats nothing |
| `DagExecutor.Executor.ExecuteAll` | DAG/dag.cpp:50-58 | for any iteration order every module runs exactly once; each runs after all its dependencies if and only if the graph is acyclic |
| `DagExecutor.OrderedIsAcyclic` | DAG/dag.cpp:50-69 | an order with all dependencies first exists only without cycles |
| `CycleDetection.Dag.IsCyclicUtil` | find_job/look_for_job.cpp:3435-3458 | true only with a cycle; otherwise the vertex and all it reaches are finished and the recursion stack is restored |
| `CycleDetection.Dag.IsCyclic` | find_job/look_for_job.cpp:3461-3474 | true exactly when the graph has a directed cycle; no vertex is expanded twice |
| `CycleDetection.FinishedIsAcyclic` | find_job/look_for_job.cpp:3435-3474 | a finishing order with successors first rules out cycles |
| `EliasFano.LowBitsIsFloorLog` | Partitioned-Elias-Fano.cpp:50-55 | the number of low bits is the larger of 1 and the whole part of log2(u / n) |
| `EliasFano.SplitAndJoin` | Partitioned-Elias-Fano.cpp:68-74 | masking, shifting and or-ing bit by bit give a 32-bit word back |
| `EliasFano.BitsOfAnd` | Partitioned-Elias-Fano.cpp:68-74 | a bit of the mask operation is set exactly when it is set in both words |
| `EliasFano.BitsOfOr` | Partitioned-Elias-Fano.cpp:91-94 | a bit of the join is set exactly when it is set in one of the words |
| `EliasFano.HighBitsAreFew` | Partitioned-Elias-Fano.cpp:75-76 | the high-bit array is shorter than 3n |
| `EliasFano.Encode` | Partitioned-Elias-Fano.cpp:50-81 | low parts in order, a one exactly at each mark, all writes in range, fewer than 3n high bits |
| `EliasFano.OnesAreMarks` | Partitioned-Elias-Fano.cpp:77-80 | the ones of a code, in order, are the marks of its elements |
| `EliasFano.ContentsOfCode` | Partitioned-Elias-Fano.cpp:83-136 | what a code holds is the coded block |
| `EliasFano.DecodeScalar` | Partitioned-Elias-Fano.cpp:83-96 | decodes whatever a block holds, well-formed or not |
| `EliasFano.CollectPositions` | Partitioned-Elias-Fano.cpp:103-107 | the positions of the ones, as 32-bit words |
| `EliasFano.DecodeLanes` | Partitioned-Elias-Fano.cpp:113-130 | one vector step computes eight consecutive elements, with wrapping subtraction and shifts |
| `EliasFano.DecodeSimd` | Partitioned-Elias-Fano.cpp:99-136 | eight lanes and the remainder agree with the scalar decoder on every block with enough ones |
| `EliasFano.EncodePartitions` | Partitioned-Elias-Fano.cpp:155-161 | every piece of every partition size is coded, each with fewer than 3n high bits |
| `EliasFano.DecodePartitions` | Partitioned-Elias-Fano.cpp:162-166 | decoding the blocks in order gives the concatenated pieces |
| `EliasFano.ConcatPieces` | Partitioned-Elias-Fano.cpp:157-161 | the pieces put together are the list |
| `EliasFano.PiecesAreCuts` | Partitioned-Elias-Fano.cpp:157-161 | piece i is the i-th run of block-size elements, the last one perhaps shorter, and there are as many pieces as runs |
| `EliasFano.EncodeAndDecode` | Partitioned-Elias-Fano.cpp:154-166 | for every non-decreasing 32-bit list and every partition size the round trip is the identity |
| `Expression.TextSkips` | find_job/look_for_job.cpp:2680-2686 | looking for a closing parenthesis passes over the text of any expression |
| `Expression.TermRuns` | find_job/look_for_job.cpp:2675-2696 | the text of a term or factor books its value under the operator before it |
| `Expression.SumRuns` | find_job/look_for_job.cpp:2675-2696 | the text of a sum adds its value to the stack |
| `Expression.SolveText` | find_job/look_for_job.cpp:2669-2704 | for every expression tree, `solve` on its text is its value with normal precedence and left associativity, with any redundant parentheses |
| `Expression.DigitsAreDecimal` | find_job/look_for_job.cpp:2676-2677 | a digit string, with any zeros in front, is read as the number its digits stand for by their places |
| `Expression.SolveDefined` | find_job/look_for_job.cpp:2680-2686 | on an arbitrary string the scan stays within the text if and only if every open parenthesis is closed |
| `Expression.SumUp` | find_job/look_for_job.cpp:2699-2702 | popping and adding gives the sum of the stack |
| `Expression.SolveString` | find_job/look_for_job.cpp:2669-2704 | the loops and the recursion into shorter substrings terminate and compute `Solve` |
| `LruCache.LRUCache.AddToHead` | find_job/look_for_job.cpp:247-252 | the four pointer updates put the node in front of the linked list |
| `LruCache.LRUCache.RemoveNode` | find_job/look_for_job.cpp:254-257 | the two pointer updates take exactly that node out |
| `LruCache.LRUCache.MoveToHead` | find_job/look_for_job.cpp:259-262 | the node comes first, the others keep their order |
| `LruCache.LRUCache.RemoveTail` | find_job/look_for_job.cpp:264-268 | takes out and returns the last node |
| `LruCache.LRUCache.constructor` | find_job/look_for_job.cpp:202-208 | an empty linked list between the sentinels |
| `LruCache.LRUCache.Get` | find_job/look_for_job.cpp:210-218 | answers and reorders as the abstract recency list; list, map and size stay consistent |
| `LruCache.LRUCache.Put` | find_job/look_for_job.cpp:220-245 | updates or inserts in front and evicts the last entry over capacity; size never exceeds a non-negative capacity |
| `LruCache.DropsLeastRecent` | find_job/look_for_job.cpp:229-237 | dropping the last of ranked entries drops the least recently used key |
| `LruCache.CacheFollowsPolicy` | find_job/look_for_job.cpp:210-245 | after any history the cache is ordered by last use, holds exactly the keys that the eviction policy keeps and the value last put under each |
| `LruCache.AnswerIsReply` | find_job/look_for_job.cpp:210-218 | what `get` answers is determined by the history alone |
| `LruCache.Replay` | find_job/look_for_job.cpp:193-269 | one cache run through any history answers every `get` as the policy demands |

## Left out

- C++ weak-memory effects: steps are sequentially consistent; pthread keys, `setspecific` and allocation failures, thread-exit order and destruction of the doubly buffered object are not modelled.
- The client in `double_buffer/brpc_double.cpp` whose callbacks return `true` and so never publish under that file's own convention.
- Session pools, topology monitors, the module scheduler, protobuf, JSON and brpc calls; module and topology parameters in `add_topology`, other than each element's own in the packers.
- Repeated module definitions in `add_topology`: the factories enter as a finished map.
- `ModuleTopologyManager::clear`, whose modifier is commented out.
- Fairness: a manager that never sees a count of zero spins for ever; safety, absence of deadlock and that a call can always be finished are proved, not that every call returns.
- Callbacks that call back into `Read` or `Modify`.
- `double.cpp` and `lock_free.md`, whose updater runs twice on one buffer, and `lsmtree.cpp`, which does not refine a map.
- BLAKE2b: the hash is a parameter, assumed not to collide on the inputs hashed; token ids outside 32 bits, which the source cannot serialise, do not occur.
- The branch of the prefix cache for a cached but unused block: no operation releases a block, so it is never reached.
- Floating-point rounding: attention is over `real`, and the number of low bits uses an exact logarithm.
- LowBitsIsFloorLog: when the largest element of a block is 0 the source converts minus infinity to `int`, which C++ leaves undefined; the model takes one low bit there, as for every quotient below 2.
- Encode: `int` overflow of sizes and indices is not modelled; the bound of 3n shows that there is none below 2^31 / 3 elements in a block.
- SolveString: `int` overflow of values is not modelled.
- LruCache.LRUCache.Put: `delete` of the evicted node is dropping the last reference to it.
- PForDelta, which truncates its exceptions to 16 bits, and the first LRU class, which dereferences an erased iterator.
- Registries, configuration, loaders, server start-up, BloomFilter, Roaring, product quantisation, notebooks and the remaining interview snippets.
