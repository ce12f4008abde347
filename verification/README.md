# Verified models of NeMo RL

This project models the parts of NeMo RL whose correctness spans several functions, and proves what they promise. Every
module is a `.dfy` file of the same name; `dafny verify dfyconfig.toml` checks all of them.

* **Asynchronous GRPO.** `ReplayBuffers` is the buffer as a class over three parallel lists, tied to a sequence of
  entries. `AsyncCollector` is the collector's choice of targets. `AsyncProtocol` is the whole loop as a transition
  system: trainer, collection thread with its generation limit and its finite dataloader, workers, buffer, and the
  trainer's remote calls as a mailbox, one step for each critical section, remote call, wait or wake-up.
  `AsyncInvariant` holds the invariant, `AsyncSafety` what follows for every run, `AsyncProgress` when the loop can go
  on and what can hold it up, and `AsyncRaces` five concrete runs that go wrong.
* **Batch sharding.** `BatchedDataDict` (columns, `reorder_data`, `get_batch`, the iterators), `Sharding` (chunks and
  shards), `Dealing` (round-robin), `DynamicBatching`, `DynamicMicrobatches`, `DynamicGuarantees`, `LoadBalance` and
  `Microbatching` (sorted striding and the greedy packer), `SequencePacking` and `PackedShards` (bins), and
  `Packers`, `FitPhases`, `ModifiedFirstFit` and `ChunkPacker` (the bin packers).
* **Parallel index algebra.** `ContextParallel` and `ContextGradient` (zig-zag shards, gather, backward pass),
  `VocabParallel` (log-softmax and log-probabilities over a split vocabulary), `LogprobGradient` (its backward pass is
  the gradient of the forward pass), `PackedLogprobs` (the packed pipeline), `DistributedTopK`. A process group is a
  sequence indexed by rank; a reduction is a fold over it.
* **Baselines and losses.** `Baselines` (the loop over prompts), `GroupStatistics` (what it computes, under any mask),
  `Advantages`, `DynamicSampling`, `PackedLoss` and `MaskedLoss` (what the loss means), in exact reals. A spread is
  kept as the square it is the root of, or as the largest float.
* **Configuration.** `ConfigPrune` (pruning, merging, loading and minimising) and `ConfigLoading` (what is loaded at
  every path).

`Sequences` holds shared facts about sequences, including a model of Python's stable `sorted`.

## What is assumed

* Workers do not fail, and a dataloader batch has `num_prompts_per_step` prompts (nemo_rl/algorithms/grpo.py:253-270).
  The dataloader gives any number of batches and then ends, as in the one pass the collection thread makes over it.
* A worker's clean-up, the removal of its thread record and the release of its semaphore are one step. The clean-up in
  the `finally` block runs for every worker, not only after an error as its comment says
  (nemo_rl/algorithms/async_utils.py:711-718), and is modelled so: any worker that finishes gives up its target.
* Any thread or actor may idle at any time. Manual pauses, which are lifted after validation, are such idling.
* The thread compares and sets the version it last warned at in one step; `set_weight_version` sets the version and the
  event in two (nemo_rl/algorithms/async_utils.py:344-353, 411-431).
* Reading the last generated target and reserving are two steps, as in the code. The safety theorems are for runs whose
  reservations are *current*: the same target would have been chosen had the value been read inside the critical
  section. `DuplicateIffArrived` says exactly when a reservation is not, and `DuplicatesIffStale` that over whole runs
  this is the same as reserving no target twice.
* OmegaConf, a library outside the repository, merges maps key by key, replaces lists and values, and raises an error
  for a list and a map.
* `exp` and `log` are functions on the reals; where laws of theirs are needed they are hypotheses: sums become products,
  they are inverse, and exp lies above its tangent at 0.
* A chunk handed to a packer is a positive multiple of the shards, which the size assertions establish.

## What turned out different from the documentation

* A target can be reserved twice: `last_target_weight_already_generated` is read before the lock is taken
  (nemo_rl/algorithms/async_utils.py:328-338). If the first group of the chosen target arrives and gives up its
  reservation in between, the target is reserved again. `DuplicateReservationIsReachable` is such a run; its surplus
  group is later found too old and ends training with the `ValueError` of
  nemo_rl/algorithms/async_utils.py:142-145. It happens exactly when the chosen target has arrived in the meantime
  (`DuplicateIffArrived`; over whole runs, `DuplicatesIffStale`), so a second check against the current value under
  the lock would exclude it.
* Without in-flight updates a refit waits for the pending generations, but one worker can still run during it: the
  thread looks for the pause before it spawns (nemo_rl/algorithms/async_utils.py:473-506), so a pause in between does
  not hold back the worker it was about to spawn, which the wait does not see yet (`SpawnDuringRefitIsReachable`).
  There is never more than this one (`RefitIsQuiet`).
* The trainer can wait forever, in three ways. `SamplingPossibleIff` gives the exact condition in every state.
  * After the initial version the list of targets starts at version + 1 (nemo_rl/algorithms/async_utils.py:312-321), so
    a step whose target was not reserved before the refit cannot be generated for any more (`StarvationIsReachable`).
  * The wake-up of a thread at the generation limit can be lost: it decides to wait, then the version and the event are
    set, and only then it clears the event and waits (nemo_rl/algorithms/async_utils.py:411-431). It wakes with the
    next version, too late for a target that only the version before had in its list (`LostWakeUpIsReachable`).
  * The collection thread makes one pass over the dataloader and ends with `running = False`
    (nemo_rl/algorithms/async_utils.py:395, 447-448). A worker delivers only while running
    (nemo_rl/algorithms/async_utils.py:670), so every group still in rollout is dropped without an error and its
    reservation given up, while the trainer goes on polling (`OneBatchStarves`).
* `reorder_data` undoes dynamic batching only with one chunk or one shard (`ReturnsHomeIff`): the returned order lists
  rows chunk by chunk, the gathered shards list them shard by shard. Sequence packing returns its order shard by shard
  and is undone for any number of chunks (`PackedRoundTrip`). `ReturnsHomeExample` is the smallest case.
* Uneven shards together with dynamic batching work only when they come out even: otherwise the last shard lacks a row
  (`UnevenLacksRow`), and the loop over positions (nemo_rl/distributed/batched_data_dict.py:602-614) ends in an
  IndexError.
* The documentation says that samples masked out are not included in the baselines
  (nemo_rl/algorithms/utils.py:85-93). A masked sample's own leave-one-out baseline is nevertheless off: it is left out
  of a sum that it is not in, so the sum of the m valid rewards is divided by m - 1. That is their mean only if the sum
  is zero, and its spread can come out as zero or as the largest float (`MaskedSampleStatIs`, `MaskedExamples`).
* With the leave-one-out baseline, dynamic sampling can split a prompt's group: exactly when one reward differs from the
  others, which are equal (`LeaveOneOutSplitsIff`, `SplitGroupExample`).
* A target outside the vocabulary has a log-probability of zero whatever the logits are, but the backward pass gives
  its logits the negated softmax times the incoming gradient (nemo_rl/distributed/model_utils.py:123-135). The
  gradients of a position cancel exactly when its target is in the vocabulary or nothing comes in
  (`GradientsCancelIff`).
* Minimising a configuration loses an empty list put over other contents, an empty map put over something that is not a
  map, and a value that Python holds equal to the base's, such as `true` over `1` (`LostOverrides`).
  An empty list over a map, or an empty map over a list, fails to load before and loads afterwards.
  `PrunePreservesIff` says that nothing else is lost.
* The leftovers of the modified first-fit decreasing packer, which its documentation and a comment call first-fit
  decreasing, go into the emptiest bin, not the first that has room (nemo_rl/data/packing/algorithms.py:629-647). No two
  bins can be merged all the same (`ModifiedFirstFit.Pack`).

## Model

| member | source | states |
|---|---|---|
| ReplayBuffers.ReplayBuffer.constructor | nemo_rl/algorithms/async_utils.py:43-53 | a new buffer stands for no entries and its last generated target is -1 |
| ReplayBuffers.ReplayBuffer.PushWithWaitSignal | nemo_rl/algorithms/async_utils.py:55-82 | refused exactly when the buffer is full and then nothing changes; otherwise the entry is appended to the three lists alike and the last generated target is the maximum so far |
| ReplayBuffers.ReplayBuffer.Sample | nemo_rl/algorithms/async_utils.py:102-223 | the scans and the reverse-order pops compute a filter on the sequence of entries: the first n wanted ones in push order are returned, exactly the others stay in order, and a refusal or error changes nothing |
| ReplayBuffers.ReplayBuffer.Clear | nemo_rl/algorithms/async_utils.py:230-235 | the buffer stands for no entries afterwards; the last generated target stays |
| ReplayBuffers.SampleConserves | nemo_rl/algorithms/async_utils.py:189-215 | what sampling takes and what it leaves are together the buffer as multisets, and everything taken is wanted |
| ReplayBuffers.TakenIsSelected | nemo_rl/algorithms/async_utils.py:169-190 | the recursive filter takes exactly the entries at the first n intended indices |
| ReplayBuffers.SampleIsFresh | nemo_rl/algorithms/async_utils.py:125-223 | an entry older than the age window is an error whatever else is there; a sample is exactly the groups asked for, each of this step and generated by weights at most max age versions old, and the average age returned is that of its groups, between 0 and max age |
| ReplayBuffers.PopStep | nemo_rl/algorithms/async_utils.py:211-215 | popping the intended indices from the last to the first never shifts one that is still to be popped |
| ReplayBuffers.BufferConserves | nemo_rl/algorithms/async_utils.py:68-235 | over any sequence of pushes, samples and clears, pushed = sampled + buffered + cleared as multisets, and the size never exceeds the maximum |
| AsyncProtocol.NextTargetInRange | nemo_rl/algorithms/async_utils.py:333-342 | the target chosen is the least free one of the list, and none is chosen only when none is free |
| AsyncCollector.AsyncTrajectoryCollector.CalculateTargetWeights | nemo_rl/algorithms/async_utils.py:294-321 | the list is the generation's window: from the version itself at the start, from the next version later |
| AsyncCollector.AsyncTrajectoryCollector.GetNextTargetForGeneration | nemo_rl/algorithms/async_utils.py:323-342 | reserves the least target that has neither arrived nor is being generated, and only that one |
| AsyncCollector.AsyncTrajectoryCollector.ShouldPauseForGenerationLimits | nemo_rl/algorithms/async_utils.py:355-377 | pauses exactly when every target of the current window has arrived or is being generated, that is, when a reservation would find nothing |
| AsyncCollector.AsyncTrajectoryCollector.SetWeightVersion | nemo_rl/algorithms/async_utils.py:344-353 | the version is set and the generation limit is lifted |
| AsyncInvariant.InitInv | nemo_rl/algorithms/async_utils.py:242-292 | the initial state satisfies the invariant for every valid configuration |
| AsyncInvariant.StepKeepsInv | nemo_rl/algorithms/async_utils.py:392-726 | every step of trainer, thread, worker or mailbox, with a current reservation, keeps the invariant, the end of the data and what it drops included |
| AsyncInvariant.RunKeepsInv | nemo_rl/algorithms/grpo.py:2292-2366 | every run of such steps keeps it |
| AsyncInvariant.KeepReserve | nemo_rl/algorithms/async_utils.py:332-342 | reserving adds one whole batch of unspawned groups for a target above all earlier ones |
| AsyncInvariant.KeepSpawn | nemo_rl/algorithms/async_utils.py:474-506 | spawning moves one group from unspawned to in flight, stamped within its age window even after a refit |
| AsyncInvariant.KeepPush | nemo_rl/algorithms/async_utils.py:667-693 | a push that began while the collector was running moves one group from in flight to the buffer before its target can be released |
| AsyncInvariant.KeepRelease | nemo_rl/algorithms/async_utils.py:684-726 | a worker that has delivered only gives up a target that has arrived |
| AsyncInvariant.KeepAbandon | nemo_rl/algorithms/async_utils.py:670-726 | after the end of the data a worker that has not begun to push drops its group and gives up its target; the group stays accounted for |
| AsyncInvariant.KeepLimitCheck | nemo_rl/algorithms/async_utils.py:411-431 | checking, warning, clearing and waiting at the generation limit keep the invariant: the event is clear only while the thread waits for it |
| AsyncInvariant.KeepRefitWait | nemo_rl/algorithms/async_utils.py:473-488 | waking from the refit pause and reading the version later, perhaps during another refit, keeps the group within its age window |
| AsyncInvariant.KeepDeliver | nemo_rl/algorithms/async_utils.py:344-353 | handling a remote call keeps the collector at most one version behind, and only while paused |
| AsyncInvariant.KeepSample | nemo_rl/algorithms/grpo.py:2330-2366 | a sample closes its step: it consumed all of that step's groups and no others |
| AsyncInvariant.KeepBump | nemo_rl/algorithms/grpo.py:2552-2555 | bumping the version keeps every outstanding group within its age window |
| AsyncInvariant.Capacity | nemo_rl/algorithms/grpo.py:2175-2182 | buffered plus in-flight groups never exceed prompts times the targets still open, hence never the buffer size 2 * prompts * max age |
| AsyncInvariant.PushFits | nemo_rl/algorithms/async_utils.py:69-70 | a worker that still has to push always finds room |
| AsyncInvariant.SampleNeverFails | nemo_rl/algorithms/async_utils.py:138-145 | the "older than min_valid_version" error is unreachable; sample succeeds or asks to wait |
| AsyncInvariant.FreshTarget | nemo_rl/algorithms/async_utils.py:332-340 | a current choice was never reserved before and lies above every earlier reservation |
| AsyncSafety.AgeAndCapacity | nemo_rl/algorithms/async_utils.py:138-145 | in every state of every current run each outstanding group satisfies target - max age <= version <= target and its step is not over, the groups fit the buffer, and no exception is possible |
| AsyncSafety.OnceEach | nemo_rl/algorithms/async_utils.py:323-342 | over every current run reservations strictly increase, unspawned + in-flight + buffered + consumed + dropped groups of a reserved target are num_prompts_per_step, nothing is dropped before the data has ended, and every finished step consumed each prompt exactly once |
| AsyncSafety.DuplicateIffArrived | nemo_rl/algorithms/async_utils.py:328-338 | a reservation repeats an earlier one if and only if its target has arrived since the last generated target was read |
| AsyncSafety.DuplicatesIffStale | nemo_rl/algorithms/async_utils.py:323-342 | over every run from the start, all reservations are current if and only if no target is reserved twice |
| AsyncSafety.RefitIsQuiet | nemo_rl/algorithms/async_utils.py:529-577 | in every state of every current run, while weights are refitted without in-flight updates at most one worker runs or is about to: one the thread was spawning when the pause came |
| AsyncSafety.RefitWaits | nemo_rl/algorithms/async_utils.py:603-623 | between the pause and a refit without in-flight updates there is a moment without any worker: whatever ran when the pause was handled has finished |
| AsyncSafety.BatchesBoundReservations | nemo_rl/algorithms/async_utils.py:392-448 | in every run, current or not, no more targets are reserved than batches were taken from the dataloader, and the thread ends only when all were |
| AsyncSafety.WorkersFitSlots | nemo_rl/algorithms/async_utils.py:284-287 | in every run at most prompts per step times max age workers are alive |
| AsyncSafety.StepUsesBuffer | nemo_rl/algorithms/async_utils.py:55-223 | every step of the loop changes the buffer exactly as the replay buffer's own push and sample do, refusals at its size included |
| AsyncSafety.GivenUpBy | nemo_rl/algorithms/async_utils.py:684-726 | a reservation is given up only by the worker of the first prompt once it has delivered, a worker that finishes after its own delivery, or one that drops its group after the end of the data |
| AsyncSafety.StartsWithWholeStep | nemo_rl/algorithms/grpo.py:2292-2306 | in every run the first sample is asked for only after a whole step's groups have arrived |
| AsyncSafety.StampedAfterRefit | nemo_rl/algorithms/async_utils.py:473-488 | a thread that has waited for a refit stamps the next group it spawns with the version of the time it waited or a later one |
| AsyncProgress.WaitingAdvances | nemo_rl/algorithms/grpo.py:2292-2366 | while the current step's data is on its way (its target reserved or, after the end of the data, all its groups pushed or being pushed) a step that is not idle is enabled and keeps it so or completes the sample |
| AsyncProgress.StepLowers | nemo_rl/algorithms/async_utils.py:392-726 | every step that changes anything, except the one to the next version, lowers one measure of the work left |
| AsyncProgress.OnlyIdlingPostpones | nemo_rl/algorithms/async_utils.py:392-726 | in every current run without idle steps a reserved step is sampled within the work there was, unless the data ends first: until then the run is no longer than that and can be continued |
| AsyncProgress.AllBuffered | nemo_rl/algorithms/async_utils.py:169-187 | while the data has not ended, when nothing of the current step is unspawned or in flight, the buffer holds enough and sample succeeds |
| AsyncProgress.RefitAdvances | nemo_rl/algorithms/async_utils.py:529-623 | after a sample, the pause, the wait for pending generations and the refit always have an enabled step that lowers a measure: the wait cannot be blocked by the buffer its own trainer is not draining |
| AsyncProgress.ReachesNextVersion | nemo_rl/algorithms/grpo.py:2531-2555 | from any state after a sample a run leads to waiting for the next version's data |
| AsyncProgress.SamplingPossibleIff | nemo_rl/algorithms/async_utils.py:312-448 | a waiting trainer can ever sample its step if and only if: before the end of the data its target is reserved or still reservable by the thread, given where it is at pause and generation limit; afterwards the wanted groups buffered or being pushed are a whole step |
| AsyncProgress.StarvedForever | nemo_rl/algorithms/async_utils.py:312-448 | once that is not so, no current run of any length changes it |
| AsyncRaces.SpawnDuringRefitIsReachable | nemo_rl/algorithms/async_utils.py:473-506 | a concrete current run without in-flight updates has a worker spawned and generating while weights are refitted |
| AsyncRaces.DuplicateReservationIsReachable | nemo_rl/algorithms/async_utils.py:328-338 | a concrete run reserves target 0 twice and ends in the age error |
| AsyncRaces.StarvationIsReachable | nemo_rl/algorithms/async_utils.py:312-321 | a concrete run with current reservations leaves the trainer waiting forever at step 1 with data left |
| AsyncRaces.LostWakeUpIsReachable | nemo_rl/algorithms/async_utils.py:411-431 | a concrete run with current reservations loses the wake-up of version 1 at the generation limit and leaves the trainer waiting forever at step 2 |
| AsyncRaces.OneBatchStarves | nemo_rl/algorithms/async_utils.py:395-448 | with a dataloader of one batch a run reserves step 0 and spawns its worker, and the trainer can never sample it |
| BatchedDataDict.BatchedDataDict.ReorderData | nemo_rl/distributed/batched_data_dict.py:237-265 | fails exactly on columns of unequal sizes, without a change; otherwise every column is put in the order that sorts the indices |
| BatchedDataDict.ReorderUndoes | nemo_rl/distributed/batched_data_dict.py:237-265 | for any permutation, reordering row-wise results of the permuted rows gives the results of the original rows in order |
| BatchedDataDict.GetBatch | nemo_rl/distributed/batched_data_dict.py:667-699 | the loop over element counts slices the rows between two cumulative counts, with that chunk's microbatches and count |
| BatchedDataDict.PlainBatch | nemo_rl/distributed/batched_data_dict.py:691-699 | without element counts and microbatches a batch is there exactly if all its rows are, and is rows i * n to (i + 1) * n - 1 |
| BatchedDataDict.PlainBatchesAreRows | nemo_rl/distributed/batched_data_dict.py:691-699 | the batches in order, laid end to end, are the rows |
| BatchedDataDict.PackableMicrobatches | nemo_rl/distributed/batched_data_dict.py:782-797 | yields exactly the rows of each interval, in order |
| BatchedDataDict.DynamicMicrobatches | nemo_rl/distributed/batched_data_dict.py:753-776 | yields the rows of each interval, each cut to the microbatch's length |
| Sharding.Aggregate | nemo_rl/distributed/batched_data_dict.py:538-586 | shard s holds its slice of every chunk, chunk after chunk |
| Sharding.ShardRowAt | nemo_rl/distributed/batched_data_dict.py:541-552 | position i of shard s in chunk c is row c * batch_size + s * shard_size + i |
| Sharding.ShardsPartitionBatch | nemo_rl/distributed/batched_data_dict.py:349-388 | whenever the size assertions hold, even or uneven, every row lands in exactly one shard, one chunk's shards in order are the batch, and no shard exceeds its size |
| Sharding.SizesIff | nemo_rl/distributed/batched_data_dict.py:349-388 | sizes are admitted if and only if no batch size is given for uneven shards, the batch size divides the batch, and the shards, unless uneven, divide it; uneven shards have the least size that holds all rows |
| Dealing.DealFull | nemo_rl/distributed/batched_data_dict.py:409-412 | the k-th item dealt to shard s is item k * shards + s, and after full rounds all shards hold equally many |
| Dealing.DealKeepsAll | nemo_rl/distributed/batched_data_dict.py:483-492 | the shards together hold the contents of all bins, nothing lost or doubled |
| DynamicBatching.BatchOrderPermutes | nemo_rl/distributed/batched_data_dict.py:393-414 | the returned indices are a permutation of the batch |
| DynamicBatching.BatchOrderAt | nemo_rl/distributed/batched_data_dict.py:396-414 | the order is chunk after chunk |
| DynamicGuarantees.PartRowAt | nemo_rl/distributed/batched_data_dict.py:403-552 | position i of shard s in chunk c holds the row of rank i * shards + s by length within the chunk |
| DynamicMicrobatches.PositionLengths | nemo_rl/distributed/batched_data_dict.py:602-630 | each position gets a multiple of the round that is less than the round above the longest row of any shard there, or the width of the batch if no multiple from that row on is below it |
| DynamicMicrobatches.ShardDynamically | nemo_rl/distributed/batched_data_dict.py:349-663 | fails if and only if the sizes do not fit (even shards, or uneven ones that do not come out even) or some padded position exceeds the budget; otherwise order, shards and every chunk's microbatches are as specified, with all columns of a row moved together |
| Microbatching.PackPositions | nemo_rl/distributed/batched_data_dict.py:597-658 | fails exactly when a position exceeds the budget; otherwise the intervals tile the positions, each fits the budget, no interval could take its successor's first position, and each length is the longest of its interval |
| Microbatching.FewestIntervals | nemo_rl/distributed/batched_data_dict.py:633-658 | no partition into fitting contiguous intervals has fewer of them |
| Microbatching.CutFromBins | nemo_rl/distributed/batched_data_dict.py:643-658 | over sorted lengths any partition into k fitting bins can be exchanged for at most k fitting intervals |
| Microbatching.FewestOfAnyPartition | nemo_rl/distributed/batched_data_dict.py:633-658 | over sorted lengths the greedy loop uses the fewest microbatches of any partition, contiguous or not |
| DynamicMicrobatches.EvenSizes | nemo_rl/distributed/batched_data_dict.py:372-388 | the sizes admitted for dynamic batching establish batch = chunks * chunk size and chunk size = shards * shard size, none of them empty |
| DynamicMicrobatches.DynamicSizesIff | nemo_rl/distributed/batched_data_dict.py:349-388 | dynamic batching works exactly for the sizes of even shards, whether or not uneven ones are allowed |
| DynamicGuarantees.UnevenLacksRow | nemo_rl/distributed/batched_data_dict.py:546-614 | when uneven shards do not come out even, the last shard has fewer rows than the loop over positions reads |
| DynamicGuarantees.PositionsSorted | nemo_rl/distributed/batched_data_dict.py:403-630 | the padded position lengths of a chunk never decrease, because the rows were sorted and dealt |
| DynamicGuarantees.FewestMicrobatches | nemo_rl/distributed/batched_data_dict.py:390-658 | the microbatches of every chunk of every sharding are the fewest of any partition of its positions that fits the budget |
| DynamicGuarantees.DynamicBatchesKeepTokens | nemo_rl/distributed/batched_data_dict.py:597-776 | get_batch of a chunk succeeds on every shard, and its microbatches tile the chunk, stay within the token budget and are at least as long as every row they hold on that shard |
| DynamicGuarantees.TruncationKeepsTokens | nemo_rl/distributed/batched_data_dict.py:747-751 | a row cut to such a length has that many tokens and all its real ones |
| DynamicGuarantees.DynamicRoundTrip | nemo_rl/distributed/batched_data_dict.py:237-265 | with one chunk or one shard, gathering row-wise results and reordering restores the batch's order |
| DynamicGuarantees.ReturnsHomeIff | nemo_rl/distributed/batched_data_dict.py:414-426 | row numbers return to their places if and only if there is at most one chunk or one shard |
| DynamicGuarantees.ReturnsHomeExample | nemo_rl/distributed/batched_data_dict.py:414-426 | two chunks of two rows on two shards come back in the order 0, 2, 1, 3 |
| LoadBalance.Telescopes | nemo_rl/distributed/batched_data_dict.py:409-412 | strided sums of a sorted list differ by at most the last item taken less the first |
| LoadBalance.ShardsBalanced | nemo_rl/distributed/batched_data_dict.py:390-413 | within a chunk any two shards' total lengths differ by at most the longest less the shortest row, the later shard having no less |
| SequencePacking.DealChunk | nemo_rl/distributed/batched_data_dict.py:481-511 | bin i goes to shard i mod shards with its rows, indices, interval and padded token sum |
| SequencePacking.CloseChunk | nemo_rl/distributed/batched_data_dict.py:512-518 | the chunk's intervals, lengths and row count are appended to the shard |
| PackedShards.ShardPacked | nemo_rl/distributed/batched_data_dict.py:467-533 | every shard holds the bins dealt to it, chunk by chunk, and the order is shard after shard |
| PackedShards.BatchIsChunk | nemo_rl/distributed/batched_data_dict.py:677-690 | get_batch of a chunk gives exactly the rows of that chunk's bins on the shard |
| PackedShards.MicrobatchesAreBins | nemo_rl/distributed/batched_data_dict.py:677-796 | the packable iterator over it yields exactly those bins, in order, each with its recorded padded token sum |
| PackedShards.SameNumberOfMicrobatches | nemo_rl/distributed/batched_data_dict.py:481-511 | in every chunk each shard gets bins/shards microbatches, the k-th being bin k * shards + s |
| PackedShards.MicrobatchFits | nemo_rl/distributed/batched_data_dict.py:429-435 | no microbatch exceeds the capacity given to the packer |
| PackedShards.PackedRoundTrip | nemo_rl/distributed/batched_data_dict.py:467-533 | for any number of chunks the returned indices are a permutation, and gathering row-wise results and reordering by them restores the batch's order |
| Packers.FirstFit | nemo_rl/data/packing/algorithms.py:379-417 | fails exactly on an item over the capacity; otherwise the bins partition the items, each is nonempty and fits, no two could be merged, and each item is in the first bin that had room for it when it was placed |
| Packers.Concatenate | nemo_rl/data/packing/algorithms.py:311-351 | fails exactly on an item over the capacity; otherwise the bins are the items in order, each fits, and none could take the next one's first item |
| Packers.TargetCount | nemo_rl/data/packing/algorithms.py:107-118 | the target is the least multiple that is at least the number of bins and the minimum |
| Packers.AdjustBinCount | nemo_rl/data/packing/algorithms.py:91-167 | fails exactly when there are fewer rows than bins wanted, never for lack of a bin to take from; otherwise it reaches the target with the same rows, no empty bin and no bin over the capacity: new bins hold one row each, old ones lose rows from their end only, and a bin gives up rows only when all larger ones are down to one |
| FitPhases.ClassesShareBins | nemo_rl/data/packing/algorithms.py:496-528 | the thresholds of the classes are exact: two large items never share a bin and two others always could, likewise three over and up to a third and six over and up to a sixth |
| FitPhases.AddMedium | nemo_rl/data/packing/algorithms.py:563-569 | the forward pass keeps every item, and each bin gets the longest item left that fits, or none if none does |
| FitPhases.AddPairs | nemo_rl/data/packing/algorithms.py:571-590 | the backward pass keeps every item: the small one taken off the list first is never lost for want of a second; each bin without a medium item gets the shortest item left and the longest that fits beside it, or none if no two fit |
| FitPhases.FillGreedily | nemo_rl/data/packing/algorithms.py:592-611 | the second forward pass adds to each bin the longest item left that fits, again and again, and leaves no item that would fit into any of its bins |
| ModifiedFirstFit.SpreadLeftovers | nemo_rl/data/packing/algorithms.py:630-649 | looking at the emptiest bin only is enough: the leftovers' bins partition them, fit, and no two could be merged; longest first, each item joined the emptiest bin there was or opened one because no bin had room |
| ModifiedFirstFit.Pack | nemo_rl/data/packing/algorithms.py:530-652 | fails exactly on a capacity or length that is not positive or an item over the capacity; otherwise the bins partition the items, each is nonempty and fits, no two could be merged, and they come about phase by phase as the phases promise |
| ChunkPacker.PackChunk | nemo_rl/distributed/batched_data_dict.py:429-465 | for a chunk that is a positive multiple of the shards, every packer fails exactly on a padded row over the capacity (the modified first-fit one also on an empty row) and otherwise keeps every promise sequence packing relies on, with bins whose padded tokens are a multiple of the padding and between their rows' real tokens and less than a multiple more for each |
| Sequences.RoundUpIs | nemo_rl/distributed/batched_data_dict.py:442-443 | a padded length is a multiple, not below the length, less than one multiple above it, and the least such |
| ChunkPacker.TokensArePadded | nemo_rl/distributed/batched_data_dict.py:442-496 | the token sum recorded for any bin is a multiple of the padding, at least its rows' real tokens, and less than a multiple more for each row |
| ContextParallel.AllGather | nemo_rl/distributed/model_utils.py:713-744 | the loops put every rank's two halves in the order of their chunk indices |
| ContextParallel.GatherPrefix | nemo_rl/distributed/model_utils.py:669-744 | gathering the zig-zag shards of all ranks gives the sequence up to the last multiple of 2 * cp |
| ContextParallel.GatherRebuildsIff | nemo_rl/distributed/model_utils.py:669-744 | it gives the whole sequence if and only if the length is a multiple of 2 * cp |
| ContextParallel.EqualWork | nemo_rl/distributed/model_utils.py:690-703 | the positions on a rank have a sum that does not depend on the rank |
| ContextParallel.OnRankMap | nemo_rl/distributed/model_utils.py:690-703 | elementwise work commutes with sharding |
| ContextGradient.ShardUndoesGather | nemo_rl/distributed/model_utils.py:716-744 | a rank finds its own tensor in the gathered one |
| ContextGradient.BackwardIsAdjoint | nemo_rl/distributed/model_utils.py:746-775 | the backward pass with its sum over ranks is the adjoint of the gather: every rank's gradient paired with the gathered tensor, added up, is the ranks' tensors paired with what is selected from the summed gradient |
| VocabParallel.DistributedIsWhole | nemo_rl/distributed/model_utils.py:38-56 | the log-softmax with maximum and sum reduced over ranks is the log-softmax of the whole vocabulary |
| VocabParallel.LogSoftmaxIsNormalised | nemo_rl/distributed/model_utils.py:46-56 | subtracting the maximum changes nothing: each entry is its logit less the log of the sum of exponentials |
| VocabParallel.TokenLogprobIsFull | nemo_rl/distributed/model_utils.py:76-92 | the masked gather summed over ranks is the full log-probability of the target, and zero for a target outside the vocabulary |
| VocabParallel.InChunks | nemo_rl/distributed/model_utils.py:164-196 | the loop over chunks, the last one shorter, does every entry once and in order for every chunk size |
| VocabParallel.ChunkedLogprobs | nemo_rl/distributed/model_utils.py:164-199 | the chunked log-probabilities are those computed without chunks, for every chunk size |
| VocabParallel.ScatterBackward | nemo_rl/distributed/model_utils.py:101-137 | adding each unmasked gradient at its flat index to the negated, scaled softmax gives, row by row, what the one-hot form gives |
| LogprobGradient.RowScales | nemo_rl/distributed/model_utils.py:123-135 | a row of the gradient is proportional to its incoming gradient, and zero where that is zero |
| LogprobGradient.RowSigns | nemo_rl/distributed/model_utils.py:123-135 | for a nonnegative incoming gradient the target's entry is at least zero and all others are at most zero |
| LogprobGradient.RowsAreWhole | nemo_rl/distributed/model_utils.py:76-135 | with the masks, local targets and softmax of the forward pass, the rows of all ranks laid end to end are the one-hot row of the whole vocabulary |
| LogprobGradient.SoftmaxSumsToOne | nemo_rl/distributed/model_utils.py:82-83 | the softmax kept from the forward pass sums to one over the vocabulary |
| LogprobGradient.GradientsCancelIff | nemo_rl/distributed/model_utils.py:101-137 | summed over all ranks the gradients of a position are zero if and only if its target is in the vocabulary or the incoming gradient is zero, and otherwise the negated incoming gradient |
| LogprobGradient.RowsAreGradient | nemo_rl/distributed/model_utils.py:58-137 | the backward pass is the gradient of the forward pass: for any other logits the scaled change of the distributed log-probability is at most the linear function with the rows of all ranks, which for a concave function only its gradient satisfies |
| PackedLogprobs.RankTargets | nemo_rl/distributed/model_utils.py:584-599 | a rank's targets are, sequence by sequence, its share of the sequence shifted by one |
| PackedLogprobs.RankProbs | nemo_rl/distributed/model_utils.py:584-626 | a rank's entries, computed at once or chunk after chunk, are its shares of every sequence's entries |
| PackedLogprobs.EntriesAreLogprobs | nemo_rl/distributed/model_utils.py:605-626 | with tensor parallelism a rank's entries are the distributed log-probabilities of its positions, chunked or not |
| PackedLogprobs.GatherSequences | nemo_rl/distributed/model_utils.py:638-647 | the gather sequence by sequence rebuilds every sequence's entries in place |
| PackedLogprobs.Unpack | nemo_rl/distributed/model_utils.py:649-666 | each row holds its sequence's entries but the last, as far as it is wide, and zeros |
| PackedLogprobs.PackedSequenceLogprobs | nemo_rl/distributed/model_utils.py:577-666 | the whole pipeline over all ranks, for every chunk size or none, gives entry j of row i from the logits at j and token j + 1 for j < min(length, width) - 1, and zero after |
| PackedLogprobs.PackedEntryIsFull | nemo_rl/distributed/model_utils.py:544-666 | with tensor parallelism inside, that entry is the full log-probability of token j + 1 of sequence i at its position j |
| PackedLogprobs.RowLogprobs | nemo_rl/distributed/model_utils.py:499-541 | the unpacked pipeline gives the same for one padded row |
| DistributedTopK.DistributedIsTopK | nemo_rl/distributed/model_utils.py:864-886 | for any valid local and final selections the chosen ids are distinct, carry their logits, and are a valid top-k of the whole vocabulary |
| DistributedTopK.Dropped | nemo_rl/distributed/model_utils.py:864-885 | a logit its own rank left out cannot beat a chosen one |
| DistributedTopK.DistributedVocabTopK | nemo_rl/distributed/model_utils.py:829-896 | every position gets a valid top-min(k, vocabulary) for every chunk size |
| DistributedTopK.GatherReturnsTopK | nemo_rl/distributed/model_utils.py:953-966 | reading the logits back at the selected ids, clamped, masked and summed over ranks, gives the selected values |
| Baselines.BaselineAndSpread | nemo_rl/algorithms/utils.py:79-156 | every sample of every prompt gets the statistics of its group under the mask, with what `nan_to_num` makes of a spread that is not a number or infinite, written once and not overwritten by another prompt's turn |
| GroupStatistics.MaskedStatIs | nemo_rl/algorithms/utils.py:121-154 | under any 0/1 mask a valid sample, and in mean mode every sample, gets the mean and the sample variance of the valid samples used; with at most one valid sample it gets its own reward and no spread |
| GroupStatistics.MaskedSampleStatIs | nemo_rl/algorithms/utils.py:110-154 | a masked sample's leave-one-out baseline is the sum of the m valid rewards over m - 1, their mean only if the sum is zero, and its spread is zero or infinite under exact conditions |
| GroupStatistics.MaskedExamples | nemo_rl/algorithms/utils.py:121-154 | a concrete masked sample with baseline 1.5 beside valid rewards of 1, and one with the largest float for a spread |
| GroupStatistics.StatIs | nemo_rl/algorithms/utils.py:121-154 | with every sample valid the baseline is the mean and the squared spread the sample variance of the samples used, if they are two or more |
| GroupStatistics.NoSpreadIff | nemo_rl/algorithms/utils.py:147-154 | with every sample valid the spread is finite, and zero exactly when the samples used are equal or fewer than two |
| GroupStatistics.SpreadIsPairwise | nemo_rl/algorithms/utils.py:147-154 | the sample variance needs no mean: 2n(n - 1) times it is the sum of the squared differences of all ordered pairs |
| Advantages.LeaveOneOutScales | nemo_rl/algorithms/utils.py:110-145 | leave-one-out advantages are n / (n - 1) times the mean-centred ones |
| Advantages.GroupAdvantagesSumToZero | nemo_rl/algorithms/utils.py:110-145 | in both baseline modes a group's advantages sum to zero |
| Advantages.MeanFilterKeepsGroups | nemo_rl/algorithms/grpo.py:813-823 | with the mean baseline the filter keeps or drops whole groups, dropping exactly those with equal rewards |
| Advantages.LeaveOneOutSplitsIff | nemo_rl/algorithms/grpo.py:813-823 | with the leave-one-out baseline it splits a group of three or more exactly when one reward differs from the others, which are equal |
| Advantages.SplitGroupExample | nemo_rl/algorithms/grpo.py:813-823 | the rewards 1, 0, 0 are such a group |
| Advantages.PairsAreDropped | nemo_rl/algorithms/utils.py:147-154 | with the leave-one-out baseline a pair has no spread and is dropped |
| Advantages.BatchAdvantagesSumToZero | nemo_rl/algorithms/grpo.py:1386-1423 | in the arrays written for a batch, every prompt's samples have their group's advantages, which sum to zero in both modes |
| Advantages.BatchSpreadByPrompt | nemo_rl/algorithms/utils.py:104-156 | in the arrays written with the mean baseline, a sample has no spread exactly when all rewards of its prompt are equal |
| Advantages.NormalizeAdvantages | nemo_rl/algorithms/grpo.py:728-752 | in place, exactly the entries with spread are divided |
| Advantages.NormalizedKeepsSign | nemo_rl/algorithms/grpo.py:748-751 | normalising keeps the sign of every advantage |
| Advantages.NormalizedSumToZero | nemo_rl/algorithms/grpo.py:748-751 | with the mean baseline a group's normalised advantages still sum to zero |
| Advantages.NormalizedSpread | nemo_rl/algorithms/grpo.py:748-751 | with the mean baseline a group whose spread is std comes out with the spread std / (std + epsilon): without an epsilon its sample variance is 1 |
| DynamicSampling.Sample | nemo_rl/algorithms/grpo.py:794-881 | one call is complete exactly when what it counts (cache and kept rows, or nothing if it kept none) reaches the need, and then returns the first of them; otherwise it raises past the limit or caches everything |
| DynamicSampling.CollectStep | nemo_rl/algorithms/grpo.py:1191-1422 | a step is ready with the first batches that keep enough rows and trains on the first of everything kept since the reset, or fails right after the limit, or the data ends with all rows cached and fewer than needed |
| DynamicSampling.StepOutcome | nemo_rl/algorithms/grpo.py:853-869 | readiness and failure exclude each other, are unique, and come within limit + 1 batches |
| DynamicSampling.StepDecided | nemo_rl/algorithms/grpo.py:853-869 | with limit + 1 batches at hand the step is ready or failed by then |
| DynamicSampling.WrittenRows | nemo_rl/algorithms/grpo.py:1217-1400 | the rows of a batch of distinct prompts, each repeated, with the spreads written for it, are prompt by prompt those of the mean baseline |
| DynamicSampling.KeptIsVaried | nemo_rl/algorithms/grpo.py:810-820 | the filter keeps exactly the prompts whose rewards are not all equal, whole |
| DynamicSampling.StepTrainsOnGroups | nemo_rl/algorithms/grpo.py:794-881 | with the mean baseline enough rows are kept exactly when enough prompts have unequal rewards, and the step trains on exactly the first of these prompts, whole |
| PackedLoss.PackedLosses | nemo_rl/algorithms/loss_functions.py:892-964 | narrowing every rank's packed logits at the padded offsets, cutting the data, and accumulating one sequence at a time gives the loss of the unpacked batch with those logits, at token or sequence level, also with sequence-level ratios, and the minimum and maximum ratio over its valid tokens, infinite sentinels ignored |
| PackedLoss.CutKeeps | nemo_rl/algorithms/loss_functions.py:912-936 | a sample cut to its unpadded length, paired with its slice of the logits, has the same share of the loss and the same valid ratios as the padded sample with its unpacked logits |
| PackedLoss.PrefixKeeps | nemo_rl/algorithms/loss_functions.py:912-922 | leaving out masked positions at the end changes neither a row's share of the loss nor its valid ratios, even where these depend on masked sums over the row |
| MaskedLoss.InputsAreShifted | nemo_rl/algorithms/loss_functions.py:166-172 | position j of the loss has the log-probability of token j + 1, given the logits at j, with the values and the mask of token j + 1 |
| MaskedLoss.ContextIs | nemo_rl/algorithms/loss_functions.py:318-359 | a row passes on to its terms a masked mean over its tokens, and a masked sum in which the sample's mask counts |
| MaskedLoss.TokenLossIs | nemo_rl/algorithms/loss_functions.py:386-391 | at token level the loss is one masked mean over the batch's tensors: all terms against token mask times sample mask, over the global count |
| MaskedLoss.SequenceLossIs | nemo_rl/algorithms/loss_functions.py:392-401 | at sequence level it is the masked mean over samples of each sequence's masked mean over its own tokens |
| MaskedLoss.MaskedOutAddsNothing | nemo_rl/algorithms/loss_functions.py:175 | a row whose sample, or every token of which, is masked out adds nothing to the loss and no ratio to the metrics, whatever its tokens are |
| MaskedLoss.MaskedRowLeavesLoss | nemo_rl/algorithms/utils.py:170-182 | such a row can be left out of its batch anywhere without changing the loss |
| MaskedLoss.ShareScales | nemo_rl/algorithms/loss_functions.py:386-401 | at both levels a row's share is its sample mask times its share with sample mask 1, if its terms do not depend on the masked sum |
| MaskedLoss.TokensCounted | nemo_rl/algorithms/utils.py:170-182 | with every term one the token-level loss is the sum over rows of sample mask times valid tokens, over the global count |
| MaskedLoss.SequencesCounted | nemo_rl/algorithms/utils.py:170-182 | and the sequence-level loss weighs each sample that counts with its valid tokens over these and the constant that keeps the division finite |
| MaskedLoss.ValidValuesAre | nemo_rl/algorithms/loss_functions.py:441-442 | the ratios the metrics see are exactly those at positions whose token and sample count |
| MaskedLoss.ExtremesAre | nemo_rl/algorithms/loss_functions.py:444-454 | the smallest and largest ratio are among the ratios and bound them, and are the infinite sentinels exactly when there are none |
| ConfigPrune.PrunePreservesIff | tools/config_cli.py:210-246 | merging the pruned map over the base gives what merging the original gives, a merge error included, if and only if no override is lost or a clash of a nonempty list or map is left that fails both |
| ConfigPrune.LostOverrides | tools/config_cli.py:224-246 | the kinds of override that are lost, each with a concrete configuration, an error that disappears among them |
| ConfigPrune.PruneTwice | tools/config_cli.py:210-246 | pruning twice is pruning once |
| ConfigPrune.PrunedMatters | tools/config_cli.py:210-246 | what is left is not superfluous: a nonempty pruned map changes the base |
| ConfigPrune.Load | tools/config_cli.py:101-125 | the loop over parents computes the specified merge of the parents in order and then the file over them, or fails with it |
| ConfigLoading.LastLayerWins | tools/config_cli.py:109-124 | at every path the last layer that sets it to something that is not a map wins, where later layers do not touch the path: the file over every parent, a later parent over an earlier one |
| ConfigLoading.NothingAppears | tools/config_cli.py:109-124 | a path no layer touches is not in what is loaded |
| ConfigLoading.SecondParentWins | tools/config_cli.py:114-119 | parents {k: 1} and {k: 2}, in this order, load to {k: 2} |
| ConfigLoading.LoadingFailsIff | tools/config_cli.py:114-124 | with all parents at hand loading fails if and only if some layer clashes with those merged before it |
| ConfigLoading.MissingParentFails | tools/config_cli.py:114-118 | a file does not load if one of its parents does not |
| ConfigLoading.MergedLookup | tools/config_cli.py:119-124 | what a merge has at any path: both values merged, the one there is, or nothing where the override cuts the base off |
| ConfigLoading.ClashIff | tools/config_cli.py:119-124 | a merge is refused if and only if at some path a list meets a map |
| ConfigPrune.MinimizeKeepsMeaningIff | tools/config_cli.py:326-375 | a minimised file loads to the same configuration, or fails like the original, if and only if no override is lost or a clash is left |
| ConfigPrune.MinimizeTwice | tools/config_cli.py:326-375 | minimising a minimised file changes nothing |

## Left out

- AsyncSafety.AgeAndCapacity: is for runs of current reservations, because the code admits others; `DuplicateIffArrived` and `DuplicateReservationIsReachable` say which and what then happens.
- AsyncProgress.ReachesNextVersion: says that a run exists; `OnlyIdlingPostpones` and `StepLowers` bound all runs without idle steps, but scheduling of threads and actors itself is not modelled.
- AsyncCollector.AsyncTrajectoryCollector.ShouldPauseForGenerationLimits: the class reads version, last target and reservations at once; `AsyncProtocol` reads them one after another.
- ContextParallel.AllGather: tensors of odd length, which no shard has, are not modelled.
- PackedLoss.PackedLosses: the clamping and the NaN repairs inside a term are parts of its `term`, a parameter; a slice shorter than the cut sample, where the shapes do not fit, is not modelled.
- PackedLogprobs.RowLogprobs: logits shorter than the targets, where the shapes do not fit, are not modelled.
- ConfigPrune.PrunePreservesIff: interpolations, missing-value markers and the order of keys are not modelled.
- Ray actors, real threads, events, sleeps and backoff times: replaced by guarded atomic steps.
- Maximum steps, validation and checkpoints in the training loops: the runs of the model are not bounded.
- Failing workers: the exceptions of rollouts and pushes.
- Floating point, devices, dtypes and NaN: reals instead; only the NaN and infinity that the spread can meet are modelled, by what `nan_to_num` makes of them.
- The sort or shuffle before first fit: the items' order is a parameter.
- The limit on sequences per bin of the concatenative packer: off, as it is by default.
- The DTensor variant of the log-probability pipeline and distributed entropy: the same index algebra again.
- Minimising against an explicit base, path handling and YAML in config_cli.
- The SFT, DPO, reward-model and distillation loops, data processors, reward shaping, tokenizers, loggers: they would add only easy members.
