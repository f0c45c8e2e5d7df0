# Verified models of the trainer's layout, scheduling and bookkeeping code

This project models, in Dafny, the parts of the trainer whose correctness rests on index arithmetic, on a
schedule lining up, or on an invariant kept over a whole run, and proves what they are for. `dafny verify
dfyconfig.toml` checks everything. Modules follow the program's files:

* **Activation offload** (`Offload*`). `OffloadState` gives each operation of the handler as a function on its
  fields, failures included; `OffloadHandler` is the object itself, each method updating the fields in place and
  proved equal to that function. `OffloadRuns` lets autograd send any sequence of events that respects the order
  of the passes (pushes of managed and unmanaged tensors between forward commits, pops any time after their group's
  backward commit, any number of passes) and proves that nothing raises and that every pop returns what was pushed. `OffloadStreams` replays the
  log of stream operations against vector clocks; `OffloadResidency` says what is on the device. Tensors are flat
  contents with a shape; the one hypothesis about them is that tensors of a group that share a storage key have
  the same flat contents.
* **Sequence-length balancing** (`BalanceOrder`, `Differencing`, `DifferencingQueue`, `Partitions`,
  `DifferencingRounds`, `KarmarkarKarp`, `Greedy`, `MicroBatches`, `TokenLimits`, `DynamicBatching`). The
  differencing method on mutable set and state objects, proved against its value form; the balance bound; when
  balanced micro-batches keep the token limit; their reorder; the way back to row order. The heap is a list from
  which the least state is taken. A round takes the two largest spreads. On every reachable queue the comparison is a
  strict total order, so a round is determined by the queued states, and the partition is a function of the input that no arrangement of a heap
  changes.
* **Parallel layouts** (`FusedQkv`, `QkvSplitters`, `PipelineShards`, `LayerRenumbering`, `LayerOffsets`). Three
  ways of un-interleaving fused attention weights against one reference; the search for pipeline stage sizes; the
  renumbering of layers when pipeline parts are merged; the offsets of pipeline and virtual stages.
* **Ragged batches** (`Unpadding`). Unpad and pad, and the hand-written gradients as adjoints.
* **Weight quantisation** (`RtnGroup`, `RtnRows`, `RtnModel`, `RtnReplace`, `AwqScale`). Round-to-nearest groups,
  rows, layers and whole models; the simulated quantisation; absorbing activation-aware scales.
* **Crop boxes** (`BboxResize`), **packed memory buffers** (`BufferLayout`, `MemoryBuffers`), **batches of rows**
  (`DataRows`), **response lengths and loads** (`TailStats`, `LengthTracker`, `TailRates`).
* `Prelude`, `Arith`, `RealArith`, `Sequences` and `Sorting` are shared. `Sorting` is Python's `sorted` as a stable insertion sort.

Python exceptions are `Failed` results. Arithmetic that the program does in floating point is done in the reals.

## What the proofs found

* The offload constructor's comment allows as many groups as layers. Every run is then still correct, but only
  group 0 is ever copied to the host: each later group is sent one commit before its tensors exist
  (`OffloadStreams.OffloadingEveryGroupSendsOnlyTheFirst`).
* Dynamic batching needs 1 <= number of micro-batches <= number of sequences. The documentation speaks of padding
  with empty micro-batches when more are demanded; the code asserts instead. It also documents a maximum token sum
  per micro-batch, which does not hold (`DynamicBatching.NoCapPerMicroBatch`): the limit is on the average, and the
  balance is on workloads. `TokenLimits` says from the lengths alone when it does hold. It is enough that the
  workloads leave room for the balance gap (`BalancedKeepsLimit`), or that there is one sequence each
  (`OneEachKeepsLimit`, since no sequence is longer than the batch is wide). It takes as many micro-batches as there
  are sequences beyond half the limit (`LongOnesNeedLists`). With equal lengths, and with lengths any two of which
  exceed the limit together, the condition is exact (`EqualLengthsKeepLimit`, `LongSequencesKeepLimit`). In
  general it depends on which sequences differencing puts together, and not on their sum (`SumDoesNotDecide`).
* Layer offsets with virtual stages overlap on a single rank and when only the last stage's count is given, and
  divide by zero for two ranks when both counts are given. With exact divisions and layers on every rank, the offsets tile the model in
  every other case and in none of these (`LayerOffsets.TilesExactlyWhenTiled`).
* `convert_qkv_shard` returns exactly when there are at least as many query groups as ranks, and divides by zero
  otherwise (`QkvSplitters.ConvertQkvShard`). With as many query groups as key-value heads, that is when there are at
  least as many key-value heads as ranks, so its branch for fewer never returns then. Where that branch does return
  it keeps the keys and values of as many ranks as there are heads exactly when the ranks are a multiple of the
  heads, and of fewer otherwise (`QkvSplitters.OneShardPerHead`).
* Merging pipeline parts advances the layer count by one for a part that holds no layers, so the layers of parts
  after it are numbered one too high. Every layer gets the model's number exactly when no part without layers
  comes before a part with layers (`LayerRenumbering.NumbersAreGlobal`).
* `unpad_input` documents its last result as counting both masks; it counts the attention mask only, so the two
  agree exactly for sequences the unused mask leaves alone (`Unpadding.UnpadMeasures`). A position marked by both
  masks is counted twice in the cumulative lengths and kept once; all slices match exactly when there is no such
  position (`Unpadding.SlicesMatchOnlyWithoutOverlap`).
* `quantize_model_rtn` is documented to quantise all linear layers; one that is held by two attributes is replaced
  under the first only (`RtnReplace.EveryLinearReplaced` says exactly when none is left).
* The box resizer refuses some valid boxes of aspect 100 or just below whose enlargement fits, because it rounds
  outwards before its last check: exactly those whose enlarged short axis starts on a whole pixel and whose long
  axis then covers more than 2800 pixels (`BboxResize.FittingBoxIsRefused`).
* The length tracker documents its tail as above twice the median; the code uses the configured factor, and below
  one the half bound fails.

## Model

| member | source | states |
|---|---|---|
| `OffloadWindow.BuildWindowMap` | verl/utils/activation_offload.py:248-257 | the loop builds the closed form of the schedule: one entry per group |
| `OffloadWindow.WindowSizes` | verl/utils/activation_offload.py:248-257 | the windows share out the layers: each has layers/groups of them, and the first layers mod groups have one more |
| `OffloadWindow.WindowIncreasing` | verl/utils/activation_offload.py:250-257 | later groups close at strictly later commits |
| `OffloadWindow.WindowEndsAtLastLayer` | verl/utils/activation_offload.py:250-257 | the last group closes at the last layer's commit, so forward and backward counters meet |
| `OffloadWindow.WindowNotEarly` | verl/utils/activation_offload.py:250-257 | group j closes at commit j+1 or later when one group stays on the device; exactly at j when none does; exactly at j+1 with one group kept |
| `OffloadWindow.OffloadedGroupsAreComplete` | verl/utils/activation_offload.py:230-257 | every group is complete when it is sent if and only if fewer groups than layers are offloaded, or there is one group |
| `OffloadState.UnmanagedPassesThrough` | verl/utils/activation_offload.py:282-288 | pushing an unmanaged tensor changes nothing, and whatever happens in between it is handed back itself |
| `OffloadRuns.BuiltScheduleIsValid` | verl/utils/activation_offload.py:228-257 | for every 1 <= groups <= layers the constructor's schedule has what the run invariant needs |
| `OffloadHandler.AsyncDoubleBufferGroupOffloadHandler.constructor` | verl/utils/activation_offload.py:228-261 | empty maps, zero counters and the schedule |
| `OffloadHandler.AsyncDoubleBufferGroupOffloadHandler.TensorPush` | verl/utils/activation_offload.py:263-283 | a managed tensor gets the next tag of the current group and is registered; an unmanaged one is its own handle; a reused tag fails the assertion |
| `OffloadHandler.AsyncDoubleBufferGroupOffloadHandler.TensorPop` | verl/utils/activation_offload.py:285-296 | an unmanaged tensor comes back as it is; a tag's state and buffer are removed; an unknown tag or a host tuple fails the assertion |
| `OffloadHandler.AsyncDoubleBufferGroupOffloadHandler.EvictGroup` | verl/utils/activation_offload.py:302-311 | one tensor per storage key is collected, every tensor of the group becomes a host tuple, and a tuple already there fails the assertion |
| `OffloadHandler.AsyncDoubleBufferGroupOffloadHandler.CopyToHost` | verl/utils/activation_offload.py:312-315 | host copies hold the contents of the collected tensors |
| `OffloadHandler.AsyncDoubleBufferGroupOffloadHandler.BulkOffloadGroup` | verl/utils/activation_offload.py:298-317 | the whole state after a bulk offload |
| `OffloadHandler.AsyncDoubleBufferGroupOffloadHandler.FreeBuffers` | verl/utils/activation_offload.py:335-338 | exactly the buffers of one group are dropped |
| `OffloadHandler.AsyncDoubleBufferGroupOffloadHandler.SynchronizeOnGroupCommitForward` | verl/utils/activation_offload.py:319-345 | first commit starts the first transfer, then the window test |
| `OffloadHandler.AsyncDoubleBufferGroupOffloadHandler.CloseWindowStep` | verl/utils/activation_offload.py:330-345 | a closing window waits both ways, frees its group, sends the next and advances the counter |
| `OffloadHandler.AsyncDoubleBufferGroupOffloadHandler.OnGroupCommitForward` | verl/utils/activation_offload.py:347-352 | synchronise, next group, tag counter back to zero |
| `OffloadHandler.AsyncDoubleBufferGroupOffloadHandler.RestoreGroup` | verl/utils/activation_offload.py:365-371 | host tuples of the group become tensors with the copied contents in the pushed shape; a missing copy or a wrong size raises |
| `OffloadHandler.AsyncDoubleBufferGroupOffloadHandler.BulkReloadGroup` | verl/utils/activation_offload.py:355-371 | the whole state after a bulk reload, with its two assertions and its lookup |
| `OffloadHandler.AsyncDoubleBufferGroupOffloadHandler.FetchNextGroup` | verl/utils/activation_offload.py:380-388 | an opening window waits both ways, brings its group back and steps the counter down to one at least |
| `OffloadHandler.AsyncDoubleBufferGroupOffloadHandler.OnGroupCommitBackward` | verl/utils/activation_offload.py:373-395 | previous group, window test, final wait and counter reset at group zero; all failures |
| `OffloadRuns.CopiesHold` | verl/utils/activation_offload.py:302-317 | under one key all tensors of a group have one contents, so the host copy serves each of them |
| `OffloadRuns.OffloadKeeps` | verl/utils/activation_offload.py:298-317 | a bulk offload loses no pushed tensor: each stays on the device or has a faithful host copy |
| `OffloadRuns.ReloadKeeps` | verl/utils/activation_offload.py:355-371 | a bulk reload puts every tensor of the group back with its contents and shape |
| `OffloadRuns.StepKeepsInv` | verl/utils/activation_offload.py:263-395 | no event that the forward and backward passes can send makes the handler raise, and the invariant survives each |
| `OffloadRuns.RunNeverFails` | verl/utils/activation_offload.py:263-395 | over any number of passes, with arbitrary pushes, no assertion, lookup or view fails |
| `OffloadRuns.EveryPopReturnsWhatWasPushed` | verl/utils/activation_offload.py:285-296 | for every 1 <= groups <= layers, at every point of every run, a pop of an outstanding handle gives the pushed contents and shape, never a host tuple, and of an unmanaged tensor the tensor itself |
| `OffloadRuns.PassRestoresInitialState` | verl/utils/activation_offload.py:373-395 | after a full pass with everything popped, the handler equals a new one |
| `OffloadRuns.WholePassRuns` | verl/utils/activation_offload.py:263-395 | a pass of one tensor can be run: push, all forward commits, all backward commits and the pop follow the protocol and end ready for the next pass |
| `OffloadStreams.EveryRunIsStreamSafe` | verl/utils/activation_offload.py:319-345 | every prefix of every run is safe on the three streams: copies out start after the computation, buffers go after their copy, reloaded tensors are used after they arrived |
| `OffloadStreams.OffloadingEveryGroupSendsOnlyTheFirst` | verl/utils/activation_offload.py:228-257 | with as many groups as layers, which the constructor's comment allows, nothing but group 0 is ever copied |
| `OffloadResidency.GoneGroupsHoldNothing` | verl/utils/activation_offload.py:330-345 | a group whose window closed holds no device memory until its reload |
| `OffloadResidency.AtMostTwoGroupsResident` | verl/utils/activation_offload.py:500-543 | with one group kept, as the library sets it up, only the current group and the one before it are on the device, in both passes |
| `BalanceOrder.BinGeqIsTotalPreorder` | verl/utils/seqlen_balancing.py:87-92 | the order of index sets is a total preorder, so `sorted` by it is well defined |
| `BalanceOrder.StateLessTrichotomy` | verl/utils/seqlen_balancing.py:122-128 | states compare one way, the other, or have the same first set |
| `BalanceOrder.LessBySpread` | verl/utils/seqlen_balancing.py:122-128 | the larger spread is less; of equal spreads the larger first sum, then the longer first set, then the later items |
| `BalanceOrder.FirstDifferenceDecides` | verl/utils/seqlen_balancing.py:92 | lists of one length compare at the first place where they differ, by index and then by length |
| `BalanceOrder.ItemsOfSort` | verl/utils/seqlen_balancing.py:113-116 | sorting the sets of a state keeps its items |
| `Differencing.MergeIsState` | verl/utils/seqlen_balancing.py:113-116 | a merged state is again a sorted list of k sets |
| `Differencing.MergeConservesItems` | verl/utils/seqlen_balancing.py:113-116 | merging keeps every item of both states, once |
| `Differencing.MergedSpread` | verl/utils/seqlen_balancing.py:113-120 | the spread of a merged state is at most the larger of the two spreads |
| `Differencing.MergedNonEmpty` | verl/utils/seqlen_balancing.py:113-116 | merging states with a and b non-empty sets leaves min(k, a+b), zero-length items included |
| `Differencing.MergedSizes` | verl/utils/seqlen_balancing.py:113-116 | merging states of uniform set sizes m and n gives sizes m+n |
| `Differencing.NonEmptyFirst` | verl/utils/seqlen_balancing.py:94-120 | a state with any item has a non-empty first set |
| `DifferencingQueue.NewState` | verl/utils/seqlen_balancing.py:95-102 | a fresh state of one item or of k items is sorted, holds them, and has the spread of its input |
| `DifferencingQueue.AscendingByPlace` | verl/utils/seqlen_balancing.py:144-156 | items are taken by length, and equal lengths by their places |
| `DifferencingQueue.MergeKeepsQueue` | verl/utils/seqlen_balancing.py:161-166 | one round on the queue keeps all items, the spread bound and the count of non-empty sets |
| `DifferencingQueue.QueueOrderIsStrictTotal` | verl/utils/seqlen_balancing.py:122-128 | on a queue whose items occur once the heap's comparison is a strict total order |
| `DifferencingQueue.PopIsDetermined` | verl/utils/seqlen_balancing.py:161-166 | so its least state is the only one |
| `DifferencingQueue.LeastHasLargestSpread` | verl/utils/seqlen_balancing.py:122-128 | what is popped has a spread no queued state exceeds, and among those of that spread the largest first sum |
| `DifferencingRounds.OrderIsStrictTotal` | verl/utils/seqlen_balancing.py:122-128 | on every queue reached from an input the heap's comparison is a strict total order |
| `DifferencingRounds.RoundIsDetermined` | verl/utils/seqlen_balancing.py:161-166 | a reachable queue, as a collection of states, has at most one next one: popping twice and pushing the merge leaves nothing open |
| `DifferencingRounds.EveryLayoutEndsAlike` | verl/utils/seqlen_balancing.py:161-168 | so the last state is a function of the first queue's states, however a heap arranges them |
| `Partitions.StateCoversOnce` | verl/utils/seqlen_balancing.py:104-111 | a state holding every item once gives index lists that cover 0..n-1 once each |
| `Partitions.CoversOnceDisjoint` | verl/utils/seqlen_balancing.py:241-251 | lists that cover once are disjoint |
| `Partitions.CoversOnceComplete` | verl/utils/seqlen_balancing.py:241-251 | and together hold every index |
| `KarmarkarKarp.PartitionSet.Add` | verl/utils/seqlen_balancing.py:78-80 | appends the item; the cached sum stays the sum |
| `KarmarkarKarp.PartitionSet.Merge` | verl/utils/seqlen_balancing.py:82-85 | appends the other set's items, leaving that set alone |
| `KarmarkarKarp.PartitionSet.LessThan` | verl/utils/seqlen_balancing.py:87-92 | sum, then length, then items |
| `KarmarkarKarp.PartitionState.constructor` | verl/utils/seqlen_balancing.py:95-102 | one set per slot, filled and sorted |
| `KarmarkarKarp.PartitionState.Merge` | verl/utils/seqlen_balancing.py:113-116 | in place: set i takes the other's set k-1-i, then all are sorted; equals the merge of the two values |
| `KarmarkarKarp.PartitionState.LessThan` | verl/utils/seqlen_balancing.py:119-128 | larger spread first, then the larger first set |
| `KarmarkarKarp.PartitionState.GetPartitions` | verl/utils/seqlen_balancing.py:104-111 | the index lists of the sets |
| `KarmarkarKarp.LastStateIsBalanced` | verl/utils/seqlen_balancing.py:168-172 | the invariant of the queue, at the end, is the result's promise: cover, balance, sizes, no empty list |
| `KarmarkarKarp.MergeTwoLeast` | verl/utils/seqlen_balancing.py:161-166 | a round takes the state of largest spread and the one of largest spread among the rest, and puts back their merge; the queue invariant survives |
| `KarmarkarKarp.Partition` | verl/utils/seqlen_balancing.py:144-172 | differencing: k lists covering every index once; largest minus smallest load at most the largest length, or the largest last-minus-first gap of a sorted k-block when sizes are equal; n/k indices each then; none empty when n >= k; a function of the input alone; every failure |
| `Greedy.SmallestSumHasFewest` | verl/utils/seqlen_balancing.py:194-208 | with bias total+1, the list of least biased sum is a list of least count |
| `Greedy.EvenSizes` | verl/utils/seqlen_balancing.py:209-210 | counts within one of each other and a total divisible by k make equal counts |
| `Greedy.GreedyPartition` | verl/utils/seqlen_balancing.py:194-210 | greedy: cover once; n/k indices each when sizes are equal; otherwise loads within the largest length; every index is in the first of the lists that weighed least when it came; every failure |
| `MicroBatches.CheckAndSortPartitions` | verl/utils/seqlen_balancing.py:241-251 | passes exactly the k non-empty lists that cover 0..n-1, each sorted |
| `MicroBatches.GetSeqlenBalancedPartitions` | verl/utils/seqlen_balancing.py:239-254 | for 1 <= k <= n (and k dividing n when equal) no assertion fires and the result is balanced, sorted, complete and a function of the input |
| `DynamicBatching.CeilDiv` | verl/utils/seqlen_balancing.py:305-324 | the negated floor division is the ceiling |
| `DynamicBatching.RoundUpDivisible` | verl/utils/seqlen_balancing.py:327-345 | the least multiple that is large enough |
| `DynamicBatching.MicroBatchCount` | verl/utils/seqlen_balancing.py:384-398 | the count divides as asked, is at least the demanded minimum and every other rank's count, and leaves the average micro-batch within the limit unless there is one sequence each |
| `DynamicBatching.MicroBatchCountIsLeast` | verl/utils/seqlen_balancing.py:384-398 | it is the least count that meets all those demands |
| `DynamicBatching.RanksAgreeOnCount` | verl/utils/seqlen_balancing.py:392-395 | ranks that reduce over the same counts agree |
| `DynamicBatching.NoCapPerMicroBatch` | verl/utils/seqlen_balancing.py:360 | the documented maximum per micro-batch does not hold: lengths 6, 6, 6 under a limit of 10 |
| `TokenLimits.BalancedKeepsLimit` | verl/utils/seqlen_balancing.py:373-398 | every micro-batch keeps the token limit when the summed workloads, and the largest workload once for every further micro-batch, fit in that many times the limit's linear workload |
| `TokenLimits.WorkloadGap` | verl/utils/seqlen_balancing.py:27-46 | micro-batches differ in 24576 times their tokens plus their squares by at most that of the longest sequence |
| `TokenLimits.OneEachKeepsLimit` | verl/utils/seqlen_balancing.py:385-401 | with as many micro-batches as sequences each keeps the limit exactly when every sequence does, as the width assertion ensures |
| `TokenLimits.EqualLengthsKeepLimit` | verl/utils/seqlen_balancing.py:384-401 | with equal lengths it is kept exactly when the sequences per micro-batch, rounded up, fit in it together |
| `TokenLimits.CrowdNeedsLists` | verl/utils/seqlen_balancing.py:373-401 | sequences any two of which exceed the limit together need a micro-batch each, however they are grouped |
| `TokenLimits.LongOnesNeedLists` | verl/utils/seqlen_balancing.py:373-401 | so keeping the limit takes as many micro-batches as there are sequences beyond half of it |
| `TokenLimits.SumDoesNotDecide` | verl/utils/seqlen_balancing.py:384-401 | under a limit of 10, two micro-batches of 5, 5, 5, 5 keep it and two of 6, 6, 6, 2 cannot |
| `TokenLimits.LongSequencesKeepLimit` | verl/utils/seqlen_balancing.py:385-401 | when any two sequences exceed the limit together and none alone, it is kept exactly with one micro-batch per sequence, however they are grouped |
| `DynamicBatching.ZigzagPermutes` | verl/utils/seqlen_balancing.py:406-413 | the reorder keeps the micro-batches, as a multiset |
| `DynamicBatching.ZigzagRisesThenFalls` | verl/utils/seqlen_balancing.py:406-413 | their workloads rise, then fall |
| `DynamicBatching.ZigzagFromMiddle` | verl/utils/seqlen_balancing.py:406-413 | the heaviest goes to the middle, the next ones in turn after and before it |
| `DynamicBatching.RearrangeMicroBatches` | verl/utils/seqlen_balancing.py:373-414 | succeeds exactly when 1 <= count <= n after its assertion; balanced workloads, complete cover, rising-then-falling order from the middle with ties by first index; the token limit kept in the cases above |
| `DynamicBatching.GetReverseIdx` | verl/utils/seqlen_balancing.py:425-440 | fails exactly on an entry out of range; afterwards each reached position holds the last index that maps to it |
| `DynamicBatching.RestoreDynamicBatch` | verl/utils/seqlen_balancing.py:482-505 | for lists that cover once, every row goes back to its own position |
| `DynamicBatching.PutBackIsIdentity` | verl/utils/seqlen_balancing.py:482-505 | gather then put back is the identity |
| `DynamicBatching.ComputeInMicroBatches` | verl/utils/seqlen_balancing.py:348-505 | split, compute row by row, concatenate, restore: the same as computing in place, whenever the split succeeds |
| `FusedQkv.UnfusedConserves` | verl/model_merger/megatron_model_merger.py:330-354 | un-interleaving loses and doubles no row |
| `FusedQkv.UnfusedAt` | verl/model_merger/megatron_model_merger.py:330-354 | where each row of each group goes |
| `Sequences.CutOfConcat` | verl/utils/megatron_utils.py:836-869 | cutting stacked whole shards into groups is cutting each shard |
| `QkvSplitters.SplitTensors` | verl/model_merger/megatron_model_merger.py:330-354 | succeeds exactly on whole groups and then equals the reference un-interleaving |
| `QkvSplitters.ShardsReference` | verl/utils/megatron_utils.py:836-869 | un-interleaving shard by shard equals un-interleaving the whole, for every tensor-parallel degree |
| `QkvSplitters.DefaultTpConcat` | verl/utils/megatron_utils.py:836-869 | succeeds exactly when the heads divide, there is a key-value head for every rank, the first shard is whole groups and every shard is cut into pieces of its group size; then the reference of the stacked shards, and on proper shards that of the whole tensor for every degree |
| `QkvSplitters.ConvertQkvShard` | verl/utils/megatron_utils.py:623-669 | returns exactly when there is a query group for every rank, and divides by zero otherwise; whenever the ranks' rows are whole groups the queries of all ranks and the keys and values of the kept ones, on a proper tensor the same reference, and on one with replicated heads every rank's query heads |
| `QkvSplitters.OneShardPerHead` | verl/utils/megatron_utils.py:650-669 | with fewer key-value heads than ranks, keys and values are kept from at most as many ranks as heads, and from exactly as many, evenly spaced, if and only if the ranks are a multiple of the heads |
| `QkvSplitters.FusedRowLandsOnce` | verl/utils/megatron_utils.py:633-648 | each fused row lands in one place of one of query, key, value |
| `PipelineShards.CandidateIsInterval` | verl/model_merger/megatron_model_merger.py:83-87 | accepted middle sizes are those from the ceiling of L/p to the largest that leaves two layers for the ends |
| `PipelineShards.CeilIsCandidate` | verl/model_merger/megatron_model_merger.py:83-87 | the ceiling is accepted exactly when L mod p = 0 or L mod p + 2*(L div p) >= p |
| `PipelineShards.SearchableIffCandidate` | verl/model_merger/megatron_model_merger.py:83-87 | if anything is accepted, that condition holds |
| `PipelineShards.ImbalanceGrows` | verl/model_merger/megatron_model_merger.py:91 | a larger accepted middle size measures strictly worse |
| `PipelineShards.CeilIsOnlyBest` | verl/model_merger/megatron_model_merger.py:96 | the ceiling is the unique minimiser |
| `PipelineShards.SearchStages` | verl/model_merger/megatron_model_merger.py:81-98 | returns positive counts summing to L with ceiling middles, or fails on the empty list; never the sum assertion |
| `PipelineShards.GetDynamicPipelineShards` | verl/model_merger/megatron_model_merger.py:57-98 | all argument cases |
| `LayerRenumbering.MergeStateDicts` | verl/model_merger/megatron_model_merger.py:358-412 | the two loops, with the running layer count |
| `LayerRenumbering.PartsDoNotMeet` | verl/model_merger/megatron_model_merger.py:379-413 | numbers given to different parts never meet, whatever the parts hold |
| `LayerRenumbering.EveryLayerArrives` | verl/model_merger/megatron_model_merger.py:379-413 | every layer weight of every part is in the merged dictionary under its own name with its global number, not overwritten |
| `LayerRenumbering.EveryPlainNameArrives` | verl/model_merger/megatron_model_merger.py:379-413 | a name without layer number is stored unchanged with the value of the last part that has it |
| `LayerRenumbering.NothingElseArrives` | verl/model_merger/megatron_model_merger.py:379-413 | every stored key is some part's |
| `LayerRenumbering.StartCounts` | verl/model_merger/megatron_model_merger.py:413 | a part starts after all layers before it, plus one for every earlier part without layers |
| `LayerRenumbering.StartsAreGlobal` | verl/model_merger/megatron_model_merger.py:413 | every part starts at the layers before it exactly when no part but the last is without layers |
| `LayerRenumbering.NumbersAreGlobal` | verl/model_merger/megatron_model_merger.py:379-413 | every layer key gets the model's number exactly when no part without layers comes before a part with layers |
| `LayerRenumbering.RanksAgree` | verl/model_merger/megatron_model_merger.py:360-363 | a process per part, starting from the layers before it, gives the numbers of one process for all parts exactly when every part before it holds layers |
| `LayerOffsets.OffsetIsStart` | verl/utils/megatron_utils.py:1058-1184 | in the tiled cases the offset is the number of layers before the (stage, rank) |
| `LayerOffsets.EveryLayerIsNamed` | verl/utils/model.py:331-346 | every global layer has a (rank, stage, local) name |
| `LayerOffsets.NamePlaces` | verl/utils/model.py:331-346 | a name's layer lies in its virtual stage, inside the model |
| `LayerOffsets.NamesAreUnique` | verl/utils/model.py:331-346 | and no layer has two names |
| `LayerOffsets.TilesExactlyWhenTiled` | verl/utils/megatron_utils.py:1058-1184 | with exact divisions and layers on every rank of every virtual stage: every offset is defined and every layer of the model has one name, and nothing else has any, exactly in the tiled cases |
| `LayerOffsets.WholeSharesTile` | verl/utils/megatron_utils.py:1058-1184 | whole shares tile the model on any number of ranks, and on two or more with any number of virtual stages |
| `LayerOffsets.OwnCountsTile` | verl/utils/megatron_utils.py:1068-1137 | so do own counts of the first and last rank with the rest shared out, and those ranks hold those counts |
| `LayerOffsets.OneRankOverlaps` | verl/utils/megatron_utils.py:1182-1183 | with a single rank every offset is zero, so two virtual stages would share a layer |
| `LayerOffsets.OnlyLastCountOverlaps` | verl/utils/megatron_utils.py:1058-1184 | virtual stages with only the last count given: ranks 0 and 1 get the same offset |
| `LayerOffsets.TwoUnevenRanksDivideByZero` | verl/utils/megatron_utils.py:1058-1184 | virtual stages, both counts, two ranks: a division by zero |
| `Unpadding.GatherKeeps` | verl/utils/npu_flash_attn_utils.py:22-33 | gathering at the nonzero positions of a mask is keeping exactly the marked rows, in order |
| `Unpadding.IndexPutFirstAxis` | verl/utils/npu_flash_attn_utils.py:56-66 | the in-place scatter; fails exactly on an index out of range |
| `Unpadding.ScatteredAt` | verl/utils/npu_flash_attn_utils.py:56-66 | for distinct indices, each row of the scattered buffer |
| `Unpadding.LastWriteStays` | verl/utils/npu_flash_attn_utils.py:56-66 | with repeated indices the last row written stays |
| `Unpadding.GatherScatterAdjoint` | verl/utils/npu_flash_attn_utils.py:35-74 | each hand-written backward is the adjoint of its forward, for distinct in-range indices |
| `Unpadding.UnpadKeeps` | verl/utils/npu_flash_attn_utils.py:112-125 | the result is the kept rows, sequence after sequence |
| `Unpadding.UnpadMeasures` | verl/utils/npu_flash_attn_utils.py:113-117 | the maximum is the longest sequence under both masks; the uses count the attention mask only, and so both masks exactly for the sequences the unused mask leaves alone |
| `Unpadding.SliceIsSequence` | verl/utils/npu_flash_attn_utils.py:113-125 | when no position is marked twice, each cumulative slice is one sequence's kept rows in order |
| `Unpadding.TotalMatchesOnlyWithoutOverlap` | verl/utils/npu_flash_attn_utils.py:112-117 | the cumulative total is the number of kept rows if and only if no position is marked by both masks |
| `Unpadding.SlicesMatchOnlyWithoutOverlap` | verl/utils/npu_flash_attn_utils.py:112-125 | every cumulative slice lies in the result and is its sequence's kept rows if and only if no position is marked by both masks |
| `Unpadding.PadUndoesUnpad` | verl/utils/npu_flash_attn_utils.py:81-129 | padding back restores kept positions and zeroes the others |
| `RtnGroup.ModelWidths` | scripts/quantize_utils.py:105-114 | the code ranges of the two widths a model is quantised to |
| `RtnGroup.CodeInRange` | scripts/quantize_utils.py:134-149 | at any scale a code is the rounded quotient, cut off at the ends of the range |
| `RtnGroup.LargestCodeIsLargest` | scripts/quantize_utils.py:134-149 | the largest code stands for the largest size in the group, or for 1e-10 if that is more |
| `RtnGroup.LargestIsExact` | scripts/quantize_utils.py:134-149 | an element of the group's largest size, not below 1e-10, is decoded exactly |
| `RtnGroup.RoundOfHalf` | scripts/quantize_utils.py:134-149 | halves round to the even code |
| `RtnGroup.ClampIsIdle` | scripts/quantize_utils.py:134-149 | the clamp never changes a code |
| `RtnGroup.GroupError` | scripts/quantize_utils.py:134-149 | no element of a group moves by more than half its scale |
| `RtnGroup.ScaleOfDecoded` | scripts/quantize_utils.py:134-149 | a decoded group has the scale it was made with |
| `RtnGroup.GroupRequantises` | scripts/quantize_utils.py:134-149 | and the same codes |
| `RtnRows.ScaleIsOwnMaximum` | scripts/quantize_utils.py:147-149 | a group's scale, times the largest code, is the largest size among its own columns or 1e-10; padding adds nothing |
| `RtnRows.ScaleIsRowMaximum` | scripts/quantize_utils.py:134-136 | without groups the scale is that of the whole row |
| `RtnRows.RowError` | scripts/quantize_utils.py:79-95 | quantise then dequantise: no column moves by more than half its own scale, any width, any group size, padded tail included; no code is clamped |
| `RtnRows.RowRequantises` | scripts/quantize_utils.py:79-153 | quantising the dequantised row gives the same codes and scales |
| `RtnModel.OutputError` | scripts/quantize_utils.py:75-95 | an output feature is off by at most the inputs' sizes weighted by half scales |
| `RtnModel.PseudoQuantize` | scripts/quantize_utils.py:190-201 | succeeds exactly when the groups fill the weight (or rows are non-empty) |
| `RtnModel.PseudoError` | scripts/quantize_utils.py:190-201 | whichever rows the groups span, no element moves by more than half the scale of its own group of the flattened weight |
| `RtnModel.PseudoIsQuantized` | scripts/quantize_utils.py:190-201 | the simulated quantisation equals the real one when the group size divides the row |
| `RtnReplace.Model.Replacements` | scripts/quantize_utils.py:119-158 | the first loop: a replacement for exactly the linear modules not skipped, each module once |
| `RtnReplace.Model.Install` | scripts/quantize_utils.py:160-165 | the second loop puts each in place and touches nothing else |
| `RtnReplace.Model.QuantizeModelRtn` | scripts/quantize_utils.py:98-167 | the whole call: 8 bits without groups, 4 bits in groups of the given size or of 128, other widths refused; 4 bits never fail, 8 bits exactly on a layer without input columns; a failure changes nothing |
| `RtnReplace.EveryLinearReplaced` | scripts/quantize_utils.py:120-124 | no linear layer is left exactly when none is met a second time under a name of its own |
| `RtnReplace.SecondRunIsIdle` | scripts/quantize_utils.py:98-167 | then a second run changes nothing |
| `RtnReplace.SharedLayerIsMissed` | scripts/quantize_utils.py:120-165 | a layer held by two attributes is replaced under the first only |
| `RtnReplace.ReplacedOutputError` | scripts/quantize_utils.py:75-167 | after the call every replaced layer is within its half-scale bound on every input |
| `AwqScale.ApplyAwqScale` | scripts/quantize_utils.py:275-305 | in place: the operation in front is divided, every layer behind is multiplied, nothing else changes |
| `AwqScale.ChannelDivided` | scripts/quantize_utils.py:291-301 | dividing the operation divides each of its output channels |
| `AwqScale.AbsorbingKeepsOutput` | scripts/quantize_utils.py:275-305 | every output of every layer behind, bias included, is unchanged, for every input and every channel-wise mixing in between |
| `BboxResize.Targets` | verl/tools/image_zoom_in_tool.py:238-258 | enlarging, then fitting width, then height is one common factor: the least of the three ratios |
| `BboxResize.Place` | verl/tools/image_zoom_in_tool.py:261-274 | one axis: centred, then moved inside |
| `BboxResize.StartIsNearest` | verl/tools/image_zoom_in_tool.py:261-274 | of all placements inside the image it is the one whose middle is nearest to the old middle |
| `BboxResize.Enlarge` | verl/tools/image_zoom_in_tool.py:230-280 | the rounded box of the target size |
| `BboxResize.MaybeResizeBbox` | verl/tools/image_zoom_in_tool.py:205-297 | the whole call equals the declarative definition |
| `BboxResize.ClampedIsCut` | verl/tools/image_zoom_in_tool.py:216-221 | clamping keeps exactly the points that lie in the image too |
| `BboxResize.EnlargedContains` | verl/tools/image_zoom_in_tool.py:230-280 | an enlarged box contains the old one and stays in the image |
| `BboxResize.ResizedIsSound` | verl/tools/image_zoom_in_tool.py:205-297 | a box that is returned lies in the image, contains the clamped input, has floored sides of 28 or more and aspect at most 100 |
| `BboxResize.ResizingAgainKeeps` | verl/tools/image_zoom_in_tool.py:205-297 | resizing a returned box returns it |
| `BboxResize.BigBoxIsKept` | verl/tools/image_zoom_in_tool.py:216-228 | a clamped box with both sides at the minimum is returned unchanged exactly when valid |
| `BboxResize.SmallBoxResized` | verl/tools/image_zoom_in_tool.py:230-297 | a valid small box is refused exactly when, measured from the whole pixel before its start, one enlarged side reaches at most 27, or one at most 28 while the other reaches beyond 2800; otherwise the enlarged box is returned |
| `BboxResize.FittingBoxIsRefused` | verl/tools/image_zoom_in_tool.py:230-297 | where the enlargement fits in the image, it is refused exactly when its short axis starts on a whole pixel and its long one covers more than 2800 pixels, in both orientations |
| `BboxResize.FittingBoxIsEnlarged` | verl/tools/image_zoom_in_tool.py:230-297 | so it is returned whenever the longer side becomes at most 2799 |
| `BboxResize.SqueezedBoxIsRefused` | verl/tools/image_zoom_in_tool.py:241-295 | one that the image keeps below the minimum is refused exactly when a side reaches at most 27; its aspect never is the reason |
| `BboxResize.RoundingLosesAspect` | verl/tools/image_zoom_in_tool.py:279-285 | such a box: one by a hundred, starting at a half pixel, is refused |
| `BufferLayout.RoundUpIsLeast` | verl/utils/memory_buffer.py:55-59 | the padded size is the least aligned size that is large enough |
| `BufferLayout.Alignments` | verl/utils/memory_buffer.py:55-59 | elements per 128 bits of each dtype |
| `BufferLayout.WeightsAreDisjoint` | verl/utils/memory_buffer.py:132-139 | two weights of one dtype share no element |
| `BufferLayout.WeightFits` | verl/utils/memory_buffer.py:45-52 | each starts on a 128-bit boundary and ends inside, so the range assertion cannot fail |
| `BufferLayout.SortedTwice` | verl/utils/memory_buffer.py:62-69 | sorting by name again changes nothing, so building and binding agree on the order |
| `MemoryBuffers.MemoryBuffer.Get` | verl/utils/memory_buffer.py:45-52 | fails exactly when the view would leave the buffer |
| `MemoryBuffers.TotalNumel` | verl/utils/memory_buffer.py:83-94 | the padded total per dtype |
| `MemoryBuffers.BuildMemoryBuffer` | verl/utils/memory_buffer.py:72-99 | one fresh buffer per dtype present, of exactly that size, none shared |
| `MemoryBuffers.BindParameters` | verl/utils/memory_buffer.py:102-114 | succeeds exactly when every weight has a buffer with room; then each parameter views its place with the wanted values, with and without weight maintenance; otherwise the parameters before the first misfit are bound, the others as they were, and the failure is that weight's |
| `MemoryBuffers.BuildMemoryReference` | verl/utils/memory_buffer.py:117-141 | the same places, by name; otherwise the failure of the first misfit |
| `MemoryBuffers.PlacesAreApart` | verl/utils/memory_buffer.py:102-141 | places of different weights do not overlap |
| `MemoryBuffers.WrapParameters` | verl/utils/memory_buffer.py:150-154 | metadata, buffers, binding: it cannot fail |
| `MemoryBuffers.WrapModule` | verl/utils/memory_buffer.py:144-154 | every parameter keeps its values and shape, aligned, inside its dtype's buffer, sharing no element |
| `DataRows.Concat` | verl/protocol.py:897-915 | column by column, in list order; an empty list fails |
| `DataRows.PadSize` | verl/protocol.py:84-85 | less than the divisor, and makes the length a multiple |
| `DataRows.PadToDivisor` | verl/protocol.py:73-98 | the padding loop terminates with the batch's rows repeated cyclically |
| `DataRows.PaddedRow` | verl/protocol.py:73-98 | row i of the padded batch is row i mod n, in tensor and object columns |
| `DataRows.Chunk` | verl/protocol.py:850-884 | fails exactly when the length is not a multiple; otherwise equal parts that join to the batch |
| `DataRows.Split` | verl/protocol.py:886-895 | parts of the given size, the last possibly shorter, that join to the batch |
| `DataRows.PartsCover` | verl/protocol.py:850-915 | consecutive parts that cover a batch join to it |
| `DataRows.MapOfJoined` | verl/protocol.py:897-915 | a row-wise computation commutes with joining |
| `DataRows.UnpadOfMapOfPadded` | verl/protocol.py:73-105 | unpadding a row-wise computation over the padded batch is that computation over the batch |
| `DataRows.ComputeOnWorkers` | verl/protocol.py:73-105 | pad, chunk, compute on each worker, join, unpad: the same as computing on the whole batch |
| `TailStats.AtMostHalfAbove` | verl/utils/rollout_length_tracker.py:95-97 | at most half of a list lies above its median |
| `TailStats.MedianByRank` | verl/utils/rollout_length_tracker.py:95 | the median is half-way between two lengths of the list with the two middle ranks: at most so many below, more up to it |
| `TailStats.StatisticsAre` | verl/utils/rollout_length_tracker.py:94-110 | mean, maximum, median and tail share are what they are called: mean times count is the sum, share times count is the number of lengths above the factor times the median |
| `TailStats.TailShareAtMostHalf` | verl/utils/rollout_length_tracker.py:95-98 | with a factor of one or more an epoch's tail share is in [0, 1/2] |
| `TailStats.SmallFactorBreaksHalf` | verl/utils/rollout_length_tracker.py:95-98 | with a smaller factor it can be one |
| `TailStats.MeanBounds` | verl/utils/rollout_length_tracker.py:106-108 | the mean lies between zero and the longest length |
| `LengthTracker.AppendedCollects` | verl/utils/rollout_length_tracker.py:76-78 | recording appends to each prompt exactly its own lengths, in order |
| `LengthTracker.PairIsAppended` | verl/utils/rollout_length_tracker.py:76-78 | number i of the pairs comes after the earlier ones of its prompt |
| `LengthTracker.RecordStores` | verl/utils/rollout_length_tracker.py:63-78 | and no other epoch changes |
| `LengthTracker.AggregateStores` | verl/utils/rollout_length_tracker.py:80-112 | each prompt of the epoch gets the statistics of exactly its lengths there, its tail share moved by alpha of the way from the old one; other prompts keep theirs |
| `LengthTracker.BlendForgets` | verl/utils/rollout_length_tracker.py:100-104 | what was there n aggregations ago still counts (1 - alpha)^n |
| `LengthTracker.PruningKeepsTwoEpochs` | verl/utils/rollout_length_tracker.py:113-116 | after aggregating an epoch that one, the one before it and every newer one remain, unchanged, and no other; two in all after the newest |
| `LengthTracker.RolloutLengthTracker.RecordStep` | verl/utils/rollout_length_tracker.py:63-78 | the loop over the pairs; nothing but this epoch's history changes |
| `LengthTracker.RolloutLengthTracker.AggregateEpoch` | verl/utils/rollout_length_tracker.py:80-116 | the loop over prompts in any order, then the pruning; an unknown epoch changes nothing |
| `TailRates.BlendWithin` | verl/utils/rollout_length_tracker.py:101-102 | blending keeps to [0, 1/2] |
| `TailRates.RunStaysWithin` | verl/utils/rollout_length_tracker.py:63-116 | over every run of record and aggregate calls, tail probabilities stay in [0, 1/2] and means within the longest length |
| `TailRates.GetTailRate` | verl/utils/rollout_length_tracker.py:133-137 | the mean over all prompts, whatever the order |
| `TailRates.MeanRateWithin` | verl/utils/rollout_length_tracker.py:133-137 | so the mean tail rate is in [0, 1/2] |
| `TailRates.EffectiveLoadBounds` | verl/utils/allocation_policy.py:120-127 | between the plain expected work and half-way to the tail length, when the mean is within the limit |
| `TailRates.LoadKeepsExpected` | verl/utils/allocation_policy.py:120-127 | a tail share does not lower the load exactly when the mean is within the limit |
| `TailRates.LoadAddsTail` | verl/utils/allocation_policy.py:120-127 | the load is the expected work and the tail share of what the tail, kappa times the mean up to the limit, exceeds the mean by |
| `TailRates.LoadAfterRun` | verl/utils/allocation_policy.py:120-127 | so for every prompt after every run of the tracker |

## Left out

* The synchronous base handler's own push and pop, pinning, devices and non-blocking copies; the storage key of a reloaded tensor is not modelled anew, since nothing reads it again.
* Autograd, activation checkpointing, FSDP wrapping and the parameter filter around the offload handler: only the order of events they impose.
* Same-key tensors that differ in stride or element count: excluded by the hypothesis on storage keys.
- OffloadStreams.EveryRunIsStreamSafe: copies of one group are one step of a stream, since the code waits for whole streams only.
- KarmarkarKarp.Partition: the array layout of `heapq` is not modelled; the result is proved not to depend on it.
- TokenLimits.BalancedKeepsLimit: sufficient only, since the converse depends on which lengths the differencing method puts together.
* Logging of imbalance, `prepare_dynamic_batch`, nested tensors and the other fields of a batch in dynamic batching; lengths are non-negative integers.
- QkvSplitters.ConvertQkvShard: what is returned when the ranks' rows are not whole groups is not stated; the broadcast between pipeline ranks is not modelled.
* Splitting of fused gate and up weights into two equal halves is not modelled.
- LayerRenumbering.MergeStateDicts: Megatron's key check and name mapping, expert renaming, tied embeddings and `extra_state` are not modelled, nor is saving the merged model.
- LayerOffsets.OffsetIsStart: embedding and loss accounting, and an explicit pipeline layout, depend on Megatron's state and are not modelled.
* Maximum sequence length of an empty batch when unpadding: the source takes the maximum of an empty tensor, which fails; the model's maximum of nothing is zero.
- RtnModel.PseudoQuantize: widths below two, where the largest code is zero or the powers are fractions, are not modelled.
* Half-precision rounding of scales, weights and biases; `int8` storage of codes is exact by the range proved.
- RtnModel.PseudoIsQuantized: group sizes that do not divide the row but divide the whole weight span rows; there the simulation need not be the real quantisation, and its error is bounded instead (`RtnModel.PseudoError`).
* Quantising a model that is itself a single linear layer (its name is empty); moving the new layers to a device; the unquantised output head.
- AwqScale.ApplyAwqScale: scales are required to be non-zero, as the search that makes them ensures by clamping; the search itself is not modelled. The layers behind are distinct and none is the operation in front, as in the pairs the caller builds.
* Image fetching, tool schemas and rate limiting around the box resizer; boxes with fewer or more than four numbers are rejected before it.
* Integer dtypes in memory buffers, which the alignment function rejects.
- MemoryBuffers.BindParameters: parameters that already view the buffers are not modelled.
- DataRows.Concat: parts with different columns, and the merging of `meta_info`, are not modelled.
- DataRows.Chunk: automatic padding, where parts may be unequal or fewer, and empty batches follow the tensor library and are not modelled.
* `reorder`, `repeat`, `select_idxs`, `union` and `padding` of a batch are not modelled.
- LengthTracker.RolloutLengthTracker.AggregateEpoch: the standard deviation of the lengths needs a square root and is not modelled; nothing reads it in deciding loads.
- TailRates.RunStaysWithin: lengths are assumed non-negative and the factor at least one, as the bound needs.
