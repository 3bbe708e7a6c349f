# Verification of verl's weight streaming, offloading, replay and sharding

A Dafny model of the parts of verl (v0.8.0) in which several processes, several buffers or several
index computations have to agree, with proofs of what they promise.

- **Weight streaming** (`WeightChunks`, `BucketLayout`, `NcclEngine`, `NixlReceiver`, `NixlSender`,
  `NixlChain`, `NixlTheorems`, `NixlTopology`, `NixlMailbox`). Rank 0 cuts weights into chunks and packs
  them into fixed-size buckets. The NCCL engine is a class over two byte arrays that are swapped. The NIXL
  relay is a state machine: rank 0, any number of rollout ranks and the links between them, one step per
  action of the code (post, read metadata, begin a READ, one byte arriving, READ done with its
  notification, yield, wait, swap), in any interleaving.
- **Activation offloading** (`OffloadSchedule`, `ActivationOffload`). The handler is a class with the
  source's counters and maps; `pushed` is a ghost record of what autograd saved.
- **Replay buffer** (`ReplayBuffer`, `ReplayProtocol`, `ReplayTheorems`, `ReplayValidation`). The buffer is
  a class whose methods are proved against the functions that the state machine of trainer, agent-loop
  workers, transfer-queue store and poller is made of; there the poller's snapshot and its merge are
  separate steps.
- **Output keys and final scores** (`SessionKeys`, `FinalScores`).
- **Parallel checkpoint loading** (`ShardLoading`, `ModuleInit`, `ModuleTheorems`). One rank is a class;
  the theorems relate the runs of all ranks.
- **Sharding arithmetic and layouts** (`PipelineShards`, `LayerNumbers`, `QkvLayout`, `ExpertStacking`),
  **batch algebra** (`BatchAlgebra`) and **group statistics** (`GroupStatistics`).

`Outcomes` and `Arithmetic` hold what all modules share. `dafny verify dfyconfig.toml` checks everything.

Properties one might expect that are false of the code, each stated with the exact condition under which it holds:

- weights without bytes are lost (`WeightChunks.NonEmptyIsIdentity`);
- with one rollout worker the relay's wiring lists have the wrong length (`NixlTopology.ChainIffTwoRollouts`);
- `get_notification` may return another agent's notification (`NixlMailbox.NixlAgent.GetNotification`);
- an output can be delivered twice in validation (`ReplayValidation.RepeatsIffStale`, and `DeliveredTwice` for a run that does);
- a parameter name stays in the shard states when a submodule object has two names (`ModuleTheorems.AllNamesPoppedIff`);
- chunking a future that is already a chunk forgets the chunk (`BatchAlgebra.ChunkAndGather`);
- layers are misnumbered behind an empty pipeline stage (`LayerNumbers.NumbersRightIff`).

Likewise the pipeline shard search can find nothing (`PipelineShards.GetDynamicPipelineShards`), a score is
lost when the final output of a session has no response token (`FinalScores.ScoreSurvivesIffResponse`), a
tensor registered twice in one module can stay on the meta device (`ModuleTheorems.AllFilledIffCalledOften`),
and unstacking experts removes stacked entries that were there before (`ExpertStacking.UnstackUndoesStackIff`).

Assumptions: queues between agents are first in, first out; a NIXL READ's notification arrives when the
READ is complete and not before; notification keys are unique (a counter here, a UUID in the source); the
consumer copies a yielded view before the generator resumes; the store's put, list and clear are atomic; a
collective delivers what its source put in; within one activation group tensors of equal storage address
and dtype have equal contents; a poll for notifications lists a sender only with what it sent.

## Model

| member | source | states |
|---|---|---|
| WeightChunks.SplitWeightChunks | verl-v0.8.0/verl/checkpoint_engine/base.py:517-543 | the generator loop yields exactly the specified chunk stream of all weights, in order |
| WeightChunks.ChunkAt | verl-v0.8.0/verl/checkpoint_engine/base.py:530-543 | chunk number k of a weight is the bytes from k full buckets on, as many as a bucket holds or are left, and there are no others |
| WeightChunks.MergeWeightChunks | verl-v0.8.0/verl/checkpoint_engine/base.py:546-585 | the loop that writes into a weight-sized buffer computes the specified merge, asserts included |
| WeightChunks.MergeUndoesSplit | verl-v0.8.0/verl/checkpoint_engine/base.py:517-585 | for all weights and bucket sizes, merging the split chunks gives back the weights that have bytes, and no assert of the merger fires |
| WeightChunks.NonEmptyIsIdentity | verl-v0.8.0/verl/checkpoint_engine/base.py:532-543 | nothing is lost exactly when no weight is empty |
| WeightChunks.GroupsKeepTheStream | verl-v0.8.0/verl/checkpoint_engine/nccl_checkpoint_engine.py:254-283 | the buckets taken in order hold the chunk stream: nothing lost, added or reordered |
| WeightChunks.GroupsFit | verl-v0.8.0/verl/checkpoint_engine/nccl_checkpoint_engine.py:255-283 | no bucket overflows, places are contiguous from zero, and no closed bucket is empty |
| WeightChunks.GroupsAreFull | verl-v0.8.0/verl/checkpoint_engine/nccl_checkpoint_engine.py:256-275 | a bucket is closed only when the next chunk would overflow it |
| WeightChunks.DistinctNamesPack | verl-v0.8.0/verl/checkpoint_engine/nccl_checkpoint_engine.py:277-278 | with distinct weight names no assert of the packing loop can fire, however large the weights |
| WeightChunks.BucketRoundTrip | verl-v0.8.0/verl/checkpoint_engine/base.py:517-585 | split, pack, unpack in bucket order, merge: the original weights that have bytes |
| NcclEngine.Engine.SendWeights | verl-v0.8.0/verl/checkpoint_engine/nccl_checkpoint_engine.py:230-298 | fails exactly when a bucket would repeat a name; otherwise the completed broadcasts carry the packed buckets, byte for byte and in order, and only the final one is flagged last |
| NcclEngine.Engine.ReceiveWeightChunks | verl-v0.8.0/verl/checkpoint_engine/nccl_checkpoint_engine.py:314-368 | yielding from one buffer while anything may happen to the other gives the same chunks in the same order as receiving one bucket at a time |
| NcclEngine.UpdateWeights | verl-v0.8.0/verl/checkpoint_engine/nccl_checkpoint_engine.py:248-368 | one update end to end: the receiver has the sender's weights that have bytes, unless the name assert fires; distinct names suffice |
| NixlReceiver.ControlKeeps | verl-v0.8.0/verl/checkpoint_engine/nixl_checkpoint_engine.py:452-527 | every control step of a rollout rank keeps its own invariant and those of the links to both neighbours |
| NixlReceiver.CopyKeeps | verl-v0.8.0/verl/checkpoint_engine/nixl_checkpoint_engine.py:211-219 | a byte landing during a READ comes from the buffer that was posted for that bucket |
| NixlReceiver.CompleteKeeps | verl-v0.8.0/verl/checkpoint_engine/nixl_checkpoint_engine.py:221-235 | a completed READ leaves the whole bucket in the local buffer and notifies its poster once |
| NixlSender.SenderKeeps | verl-v0.8.0/verl/checkpoint_engine/nixl_checkpoint_engine.py:397-436 | every step of rank 0 keeps the invariant that what it has posted are the packed buckets in order |
| NixlChain.NextKeeps | verl-v0.8.0/verl/checkpoint_engine/nixl_checkpoint_engine.py:371-527 | every step of any node keeps the invariant of the whole chain |
| NixlTheorems.EveryRankYieldsAPrefix | verl-v0.8.0/verl/checkpoint_engine/nixl_checkpoint_engine.py:371-527 | in every reachable state each rank has yielded a prefix of what rank 0 packed, all of it once done, and no assert has fired |
| NixlTheorems.NotifyKeysMatch | verl-v0.8.0/verl/checkpoint_engine/nixl_checkpoint_engine.py:170-174 | the only notification a waiting rank can see is the one for its last posted bucket, so the key assert holds |
| NixlTheorems.NoBufferIsOverwritten | verl-v0.8.0/verl/checkpoint_engine/nixl_checkpoint_engine.py:399-507 | in every reachable state a buffer being written is not one a successor is still to read nor the one yielded from, and a node has at most one unread posted bucket |
| NixlTheorems.NoDeadlock | verl-v0.8.0/verl/checkpoint_engine/nixl_checkpoint_engine.py:371-527 | a reachable state has no enabled step exactly when everybody is done |
| NixlTheorems.NextWorks | verl-v0.8.0/verl/checkpoint_engine/nixl_checkpoint_engine.py:371-527 | every step lowers a measure over ranks, buckets and program points |
| NixlTheorems.RunsAreBounded | verl-v0.8.0/verl/checkpoint_engine/nixl_checkpoint_engine.py:371-527 | no run is longer than the work it started with |
| NixlTheorems.EveryRunDelivers | verl-v0.8.0/verl/checkpoint_engine/nixl_checkpoint_engine.py:371-527 | every run is finite and, when it cannot go on, every rollout rank merges exactly the weights that have bytes |
| NixlTheorems.DistinctNamesStream | verl-v0.8.0/verl/checkpoint_engine/nixl_checkpoint_engine.py:420-421 | every weight list with distinct names can be streamed over any chain |
| NixlTopology.ChainIffTwoRollouts | verl-v0.8.0/verl/checkpoint_engine/nixl_checkpoint_engine.py:288-325 | the wiring has one entry per worker exactly from two rollout workers on, and then it is a chain that every worker's asserts accept |
| NixlTopology.RelayVisitsEveryRolloutOnce | verl-v0.8.0/verl/checkpoint_engine/nixl_checkpoint_engine.py:288-305 | following the next agents from rank 0 visits every rollout agent once, in order, and ends: no ring |
| NixlMailbox.NixlAgent.ReadMessage | verl-v0.8.0/verl/checkpoint_engine/nixl_checkpoint_engine.py:128-132 | returns the agent's oldest unread message and leaves every other agent's messages complete and in order |
| NixlMailbox.NixlAgent.GetNotification | verl-v0.8.0/verl/checkpoint_engine/nixl_checkpoint_engine.py:134-141 | waits forever exactly when nothing is queued for the agent asked for and nothing ever arrives; what it returns is its sender's next notification, nobody's are lost or reordered, and the sender is the one asked for exactly when one of its is queued or it comes last in the next poll with news |
| NixlMailbox.NixlAgent.AwaitEach | verl-v0.8.0/verl/checkpoint_engine/nixl_checkpoint_engine.py:134-141 | over any run of calls, if the awaited agent comes last in every poll with news (as when, in the chain, only it notifies), each call returns its next notification, in order, until there are none, and all others stay pending |
| NixlMailbox.SecondNotifierIsTaken | verl-v0.8.0/verl/checkpoint_engine/nixl_checkpoint_engine.py:137-138 | two notifiers in one poll for which the wrong notification is returned |
| OffloadSchedule.BuildWindowMap | verl-v0.8.0/verl/utils/activation_offload.py:248-257 | the balancing loop computes the closed form of every window |
| OffloadSchedule.WindowsIncrease | verl-v0.8.0/verl/utils/activation_offload.py:250-257 | windows close one after another |
| OffloadSchedule.LastWindow | verl-v0.8.0/verl/utils/activation_offload.py:250-257 | the last window closes with the last layer |
| OffloadSchedule.WindowsBalanced | verl-v0.8.0/verl/utils/activation_offload.py:246-257 | the windows differ by at most one layer, longer ones first |
| OffloadSchedule.WindowAfterNextGroup | verl-v0.8.0/verl/utils/activation_offload.py:250-257 | a window leaves room for the next group to be pushed first exactly when not all layers are offloaded |
| OffloadSchedule.EachGroupInTime | verl-v0.8.0/verl/utils/activation_offload.py:319-395 | every group is complete before it is offloaded, is offloaded by the end of the forward pass, and is back before its own backward pass |
| OffloadSchedule.ForwardCommit | verl-v0.8.0/verl/utils/activation_offload.py:319-345 | at each forward commit the map lookup is in range and exactly the due groups go away |
| OffloadSchedule.BackwardCommit | verl-v0.8.0/verl/utils/activation_offload.py:373-395 | at each backward commit the map lookup is in range and exactly the due group comes back |
| OffloadSchedule.ForwardMeetsBackward | verl-v0.8.0/verl/utils/activation_offload.py:319-395 | after the last forward commit exactly all offloaded groups are away, as the backward pass expects |
| ActivationOffload.Handler.TensorPush | verl-v0.8.0/verl/utils/activation_offload.py:263-283 | a pushed tensor gets a tag never used before and nothing else changes; if its group is to be offloaded the device reference is kept, which the invariant keeps until the group's window closes; filtered tensors are returned as they are |
| ActivationOffload.Handler.BulkOffloadGroup | verl-v0.8.0/verl/utils/activation_offload.py:298-317 | one copy per key suffices to recover every tensor of the group; other groups are untouched |
| ActivationOffload.Handler.BulkReloadGroup | verl-v0.8.0/verl/utils/activation_offload.py:354-371 | every tensor of the group is back with pushed shape and contents; other groups are untouched |
| ActivationOffload.Handler.OnGroupCommitForward | verl-v0.8.0/verl/utils/activation_offload.py:319-352 | a forward commit keeps the record faithful and moves to the next group |
| ActivationOffload.Handler.OnGroupCommitBackward | verl-v0.8.0/verl/utils/activation_offload.py:373-395 | a backward commit keeps the record faithful and the next group to be popped is on the device |
| ActivationOffload.Handler.TensorPop | verl-v0.8.0/verl/utils/activation_offload.py:285-296 | a pop returns the value pushed under its tag; the assert that it is no tuple holds |
| ActivationOffload.Handler.BackToStart | verl-v0.8.0/verl/utils/activation_offload.py:373-395 | once all is popped, maps and counters are as at the start |
| ActivationOffload.TwoGroupsOnDeviceForward | verl-v0.8.0/verl/utils/activation_offload.py:498-543 | offloading all layers but one, only the current group and the one before can be on the device in the forward pass |
| ActivationOffload.TwoGroupsOnDeviceBackward | verl-v0.8.0/verl/utils/activation_offload.py:498-543 | and only the current group and the one to be popped next in the backward pass |
| ActivationOffload.TrainIteration | verl-v0.8.0/verl/utils/activation_offload.py:263-395 | over a whole iteration with any tensors per layer, exactly the offloadable tensors are tagged, each pop gives the saved value, and the handler ends as it began, ready for the next iteration |
| ReplayBuffer.ReplayBuffer.Add | verl-v0.8.0/verl/trainer/main_ppo_sync.py:413-425 | a partition is merged tag by tag, all other partitions are unchanged |
| ReplayBuffer.ReplayBuffer.Remove | verl-v0.8.0/verl/trainer/main_ppo_sync.py:427-438 | exactly the given keys are gone, missing ones are no error |
| ReplayBuffer.ReplayBuffer.TrySample | verl-v0.8.0/verl/trainer/main_ppo_sync.py:456-473 | one pass waits only for a running prompt of the step; otherwise it returns exactly the successful outputs of the step, each once, with their tags |
| ReplayProtocol.StepKeeps | verl-v0.8.0/verl/trainer/main_ppo_sync.py:390-714 | every step of trainer, workers, store and poller keeps the invariant that a visible finished tag implies all undelivered outputs are visible |
| ReplayTheorems.NoMissingTag | verl-v0.8.0/verl/trainer/main_ppo_sync.py:463-464 | in every reachable state every entry has a step, although end tags carry none, so sampling raises no KeyError |
| ReplayTheorems.SampleIsComplete | verl-v0.8.0/verl/trainer/main_ppo_sync.py:456-473 | whenever sampling returns, all prompts of the step have ended and every undelivered output of a finished prompt is in the batch, which has only published outputs of the step |
| ReplayTheorems.TrainingDeliversOnce | verl-v0.8.0/verl/trainer/main_ppo_sync.py:2004-2010 | over every training run no output is delivered twice in spite of stale snapshots, and a batch is complete and still in the store |
| ReplayTheorems.PublishedIffPut | verl-v0.8.0/verl/trainer/main_ppo_sync.py:602-641 | over any run the published keys are exactly one per output that a session has put: session and number below the count of some put of the run |
| ReplayTheorems.EveryPutIsDelivered | verl-v0.8.0/verl/trainer/main_ppo_sync.py:602-641 | every single output that any session puts is published, is in a delivered batch once the step of its finished prompt has been sampled, and in training in exactly one |
| ReplayTheorems.EveryPutIsInTheBatch | verl-v0.8.0/verl/trainer/main_ppo_sync.py:456-473 | whenever sampling returns, every output put by a session of a finished prompt of the step is in the batch or was delivered before |
| ReplayTheorems.PollEndsTheWait | verl-v0.8.0/verl/trainer/main_ppo_sync.py:390-402 | once all prompts of the step have ended, the next poll, with anything happening between listing and merging, lets sampling return |
| ReplayValidation.RepeatsIffStale | verl-v0.8.0/verl/trainer/main_ppo_sync.py:1159-1252 | after a cleanup a continuation delivers an output again exactly when the step is not raised and the poller holds a snapshot that still has it |
| ReplayValidation.StaleStateIsReachable | verl-v0.8.0/verl/trainer/main_ppo_sync.py:390-402 | such a snapshot does occur: one prompt with one output, and the poller lists again between sampling and clearing |
| ReplayValidation.DeliveredTwice | verl-v0.8.0/verl/trainer/main_ppo_sync.py:1159-1252 | so there is a run in which validation delivers one output twice |
| SessionKeys.ParseUndoesPrint | verl-v0.8.0/verl/trainer/main_ppo_sync.py:334-338 | splitting a printed key from the right gives uid, session and index back, underscores in the uid included |
| SessionKeys.DigitsCanonical | verl-v0.8.0/verl/trainer/main_ppo_sync.py:607-614 | a number is printed as the digit string of that value without leading zeros, and as no other |
| SessionKeys.KeysAreUnique | verl-v0.8.0/verl/trainer/main_ppo_sync.py:607-614 | different outputs never share a key |
| SessionKeys.UidIsNoOutputKey | verl-v0.8.0/verl/trainer/main_ppo_sync.py:706-707 | a prompt's bare uid that does not parse as a key is no output's key |
| FinalScores.BestIsHighest | verl-v0.8.0/verl/trainer/main_ppo_sync.py:332-342 | a session's representative is its highest-index row, the earliest on a tie |
| FinalScores.SessionsInOrder | verl-v0.8.0/verl/trainer/main_ppo_sync.py:332-353 | the representatives come in the order in which their sessions first appear |
| SessionKeys.ParsesIffNumeral | verl-v0.8.0/verl/trainer/main_ppo_sync.py:337 | an index field is read as x exactly when it is a numeral of value x, with an optional sign, between blanks |
| FinalScores.ComputeAdvantage | verl-v0.8.0/verl/trainer/main_ppo_sync.py:331-373 | fails exactly on a key without two underscores or whose last field is no integer; otherwise the advantage of every row at every token is the score of the final row of its own session, or zero if that row has no response token, times its own mask there |
| FinalScores.ScoreSurvivesIffResponse | verl-v0.8.0/verl/trainer/main_ppo_sync.py:363-364 | reading the score back at the first response token is faithful exactly when there is one (or the score is zero) |
| FinalScores.FinalKeyIgnoresOrder | verl-v0.8.0/verl/trainer/main_ppo_sync.py:331-353 | the output a row takes its score from does not depend on the order of the batch |
| ShardLoading.ChunksAreTheFiles | verl-v0.8.0/verl/utils/fsdp_utils.py:316-320 | the chunks of all ranks are the files: each file has one rank |
| ShardLoading.ParallelLoad | verl-v0.8.0/verl/utils/fsdp_utils.py:316-335 | each rank knows exactly the checkpoint's parameters: with their values those of the files in its own chunk, and for each other one the rank in whose chunk its file is |
| ModuleInit.Loader.InitSlot | verl-v0.8.0/verl/utils/fsdp_utils.py:364-411 | one slot on the meta device: succeeds exactly when the checkpoint has what it needs; names, states and broadcasts then agree with the slots visited |
| ModuleInit.Loader.InitFn | verl-v0.8.0/verl/utils/fsdp_utils.py:384-419 | on any module object, in any order and any number of times, with or without its children: fills exactly the slots that are still on the meta device, going through the distinct children of each object, and succeeds exactly when each finds what it needs |
| ModuleTheorems.FilledByRank | verl-v0.8.0/verl/utils/fsdp_utils.py:384-411 | after n calls on a module object exactly the first n registrations of each tensor in it are filled |
| ModuleTheorems.AllFilledIffCalledOften | verl-v0.8.0/verl/utils/fsdp_utils.py:384-419 | every meta slot is filled exactly when no module object registers a tensor more often than the recursion reaches the object |
| ModuleTheorems.AllNamesPoppedIff | verl-v0.8.0/verl/utils/fsdp_utils.py:353-405 | every name of a meta slot is taken out of the shard states exactly when no module object with such slots has two names and none registers a tensor twice |
| ModuleTheorems.SharedObjectLeavesName | verl-v0.8.0/verl/utils/fsdp_utils.py:353-412 | one submodule object under two names: the names are listed in the order of the children, and the second one stays in the shard states |
| ModuleTheorems.FilledInOrder | verl-v0.8.0/verl/utils/fsdp_utils.py:384-415 | slots are filled call by call, and within a call parameters before buffers in the order of registration |
| ModuleTheorems.PlanInOrder | verl-v0.8.0/verl/utils/fsdp_utils.py:384-411 | the broadcasts come in the order of the slots, one for the first slot of each tensor |
| ModuleTheorems.FirstName | verl-v0.8.0/verl/utils/fsdp_utils.py:352-356 | the name that is broadcast is that of the tensor's first slot in the list of all names |
| ModuleTheorems.LoadModule | verl-v0.8.0/verl/utils/fsdp_utils.py:282-419 | one rank end to end: success, the broadcast sequence, the contents of all slots and the leftovers, none depending on the rank but for who sends |
| ModuleTheorems.RanksAgree | verl-v0.8.0/verl/utils/fsdp_utils.py:364-382 | broadcast by broadcast all ranks name the same parameter and source, and exactly the source has the payload, the checkpoint value |
| ModuleTheorems.LoadOnAllRanks | verl-v0.8.0/verl/utils/fsdp_utils.py:282-419 | all ranks together: all succeed or none; if every broadcast delivers what its source sent, every filled slot of every rank holds the checkpoint value of its tensor's first name, and no broadcast has two sources |
| PipelineShards.GetDynamicPipelineShards | verl-v0.8.0/verl/model_merger/megatron_model_merger.py:57-98 | from three stages on the search gives the middle stages the rounded-up mean, and has nothing to choose from exactly when that leaves the ends less than two layers |
| PipelineShards.FeasibleRange | verl-v0.8.0/verl/model_merger/megatron_model_merger.py:80-87 | a candidate is feasible exactly in one range of middle sizes |
| PipelineShards.DiffGrows | verl-v0.8.0/verl/model_merger/megatron_model_merger.py:88-95 | of feasible candidates the one with the smaller middle has the smaller difference |
| PipelineShards.LayoutIsSharding | verl-v0.8.0/verl/model_merger/megatron_model_merger.py:67-97 | the layout has the right number of stages, deals all layers, leaves no stage empty, and its ends are at most the middle and differ by at most one |
| PipelineShards.NoBetterLargest | verl-v0.8.0/verl/model_merger/megatron_model_merger.py:64-67 | no sharding of any shape has a smaller largest stage |
| PipelineShards.FiveOnFour | verl-v0.8.0/verl/model_merger/megatron_model_merger.py:94-95 | five layers on four stages: no candidate, although every stage could have a layer |
| LayerNumbers.MergeStateDicts | verl-v0.8.0/scripts/legacy_model_merger.py:608-656 | stage v of rank r comes at place v times the number of ranks plus r, with its own numbers shifted by the start and what was counted for all stages before that place |
| LayerNumbers.NumbersRightIff | verl-v0.8.0/scripts/legacy_model_merger.py:608-656 | in the merged dictionaries every layer of every stage has its local number plus the layers before its stage exactly when no stage without layers precedes one with layers |
| LayerNumbers.GlobalLayersTile | verl-v0.8.0/verl/model_merger/megatron_model_merger.py:358-388 | a rank of the distributed merge gives a layer number exactly when it is below the total and the rank is the one whose layers contain it |
| LayerNumbers.FileNumbersTile | verl-v0.8.0/verl/model_merger/megatron_model_merger.py:425-457 | over all ranks every file number from one to the total is written exactly once, and no other number is |
| QkvLayout.UnfuseFuse | verl-v0.8.0/scripts/converter_hf_to_mcore.py:155-161 | splitting the fused rows gives q, k and v back, for all group counts and sizes |
| QkvLayout.FuseUnfuse | verl-v0.8.0/verl/model_merger/megatron_model_merger.py:330-354 | fusing what was split gives the tensor back |
| QkvLayout.FuseAt | verl-v0.8.0/scripts/converter_hf_to_mcore.py:155-161 | row by row: each group of the fused tensor is its q rows, then its k rows, then its v rows |
| QkvLayout.UnfuseAt | verl-v0.8.0/verl/model_merger/megatron_model_merger.py:330-354 | row by row: each group of the q, k and v tensors is taken from its place in the fused one |
| QkvLayout.SplitTensors | verl-v0.8.0/verl/model_merger/megatron_model_merger.py:330-354 | succeeds exactly on tensors of whole groups, and then every group of the result is the rows of that group |
| QkvLayout.MergeAcrossTp | verl-v0.8.0/scripts/legacy_model_merger.py:529-557 | succeeds exactly when the head counts and the first shard divide, every shard has a group, and all shards fall into chunks of the size the first one implies (for shards of one size: when its key rows divide by the groups per shard); the result is then the split of the unsharded tensor, and for group-aligned shards group g of shard r is group r times the groups per shard plus g, row by row |
| ExpertStacking.Merge | verl-v0.8.0/scripts/veomni/moe_merge.py:95-110 | succeeds exactly when all experts are there; then exactly the experts of the chosen layers are replaced by their stacks |
| ExpertStacking.Split | verl-v0.8.0/scripts/veomni/moe_split.py:75-83 | takes exactly the stacked entries apart and leaves everything else |
| ExpertStacking.UnstackUndoesStackIff | verl-v0.8.0/scripts/veomni/moe_split.py:75-83 | unstacking gives the whole dictionary back exactly when it had no stacked entries of its own |
| ExpertStacking.MergeThenSplit | verl-v0.8.0/scripts/veomni/moe_merge.py:95-110 | the two scripts one after the other: without stacked entries of its own a dictionary goes through exactly when all experts are there, and comes back as it was; with such entries it never does |
| BatchAlgebra.PadToDivisor | verl-v0.8.0/verl/protocol.py:74-99 | the padded size is the next multiple, and every column continues with its own rows from the start |
| BatchAlgebra.PadThenUnpad | verl-v0.8.0/verl/protocol.py:74-106 | padding a batch to any divisor and unpadding by the returned size gives it back |
| BatchAlgebra.Chunk | verl-v0.8.0/verl/protocol.py:864-901 | fails exactly on a size that does not divide; otherwise tensors and arrays are cut at the same rows |
| BatchAlgebra.ConcatUndoesChunk | verl-v0.8.0/verl/protocol.py:864-961 | concatenating the chunks gives the batch back, on tensor and array rows |
| BatchAlgebra.Get | verl-v0.8.0/verl/protocol.py:1213-1225 | fails exactly when nothing can be concatenated or the collected size does not divide; otherwise every tensor and array column consists of the rows of all outputs one after another, or of the chunk of these rows that the future stands for |
| BatchAlgebra.ChunkAndGather | verl-v0.8.0/verl/protocol.py:1197-1225 | chunking a future, getting every chunk and concatenating: fails exactly when nothing can be collected or the size does not divide, otherwise gives the rows of all outputs one after another; for a future that is itself a chunk, that is what it stands for only if the chunk is the whole |
| GroupStatistics.SquaresAbout | verl-v0.8.0/verl/utils/groupwise.py:207-211 | the second pass's sum of squares about any center, from the sums of values and squares |
| GroupStatistics.MeanIsLeast | verl-v0.8.0/verl/utils/groupwise.py:207-211 | no center has a smaller sum of squares than the mean, which gives the documented one |
| GroupStatistics.GroupMeanStd | verl-v0.8.0/verl/utils/groupwise.py:164-223 | counts and means are the documented formulas for every group; the variance is the documented one or eps, whichever is larger; groups of at most one row get mean 0 and deviation 1 |

## Left out

- Tensor shapes and dtypes in weight streaming: a weight is its bytes and the byte count its metadata states; metadata whose byte count disagrees with the chunk is not part of the model.
- ZeroMQ, Ray, CUDA streams, RDMA registration and process-group setup: only the ordering and delivery assumptions listed above.
- Rank 0 of the NIXL chain writes a chunk into its buffer in one step; a READ copies byte by byte.
- Trainer ranks other than 0, which only consume the weights, and throughput logging.
- The Mooncake engine, which detects completion by the contents of the data; the Kimi engine, whose schedule lives in a library that is not part of this model; the HCCL engine, which is the NCCL loop without chunking.
- Receivers run against what the sender really sent: a bucket stream from elsewhere is not part of the model.
- Offloading with as many groups as layers: `OffloadSchedule.WindowAfterNextGroup` says why the order of pushing and offloading then breaks; the library's own entry point always leaves one layer out.
- Fake and functional tensors, and the context-manager and module-wrapping code around the offload handler.
- The order of entries in a partition of the replay buffer: sampling visits them in any order. The branch of `sample` for a batch size, which the source does not implement, is left out too.
- The polling thread's life cycle and the baseline clean-up of the REMAX estimator.
- Outputs of prompts that failed: stragglers may publish them at any time, and no completeness is claimed for them.
- SessionKeys.ParseInt: non-ASCII digits and blanks count as no number, while `int` accepts them; the limit that newer interpreters put on the number of digits is not modelled. The key printer produces none of these.
- The group-relative score itself is an arbitrary function of the selected rows; response masks are zeros and ones with at least one column.
- ShardLoading.ParallelLoad: starts from the files and the parameters in each, however the index was read; the rounded-up quotient is exact rather than a float.
- Dtype conversion when a loaded value is copied, and tensor devices.
- LayerNumbers: key renaming, tied embeddings and experts; a key is only its local layer number or none.
- QkvLayout: the gate and up halves, biases and norms, which are plain concatenation.
- ExpertStacking: shapes are not compared when stacking; a tensor is its slices along dimension 0.
- BatchAlgebra: `repeat`, `split`, `fold_batch_dim`, `unfold_column_chunks`, metadata merging, automatic padding and chunking of an empty batch.
- GroupStatistics.GroupMeanStd: works over the reals and returns the square of the deviation.
- Balanced partitioning of sequence lengths, divisibility upsampling, FLOPs formulas, configuration, tool registries, file-system helpers and dataset scripts.
