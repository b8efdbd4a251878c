# A Dafny model of GUIAgentLab's pools, weight transfer, credit assignment and rollout bookkeeping

The project models the parts of the repository whose correctness does not show in any single function, and proves what
they promise. Every file is one module.

**Leasing pools.** `Containers` holds the containers, the counts `acquire` takes and its decision. `AsyncPool` is the
Ray actor, method by method: each is a critical section that keeps the pool valid and says which leases live, which
containers changed and who wakes. `LeaseSystem` interleaves any number of threads, background recoveries and operator
calls over these steps, with the sets of issued and returned tokens and of waiters not yet notified. `ThreadedPool` is the twin that wakes one thread at a time.
`EvaluationRunner` runs any number of jobs against the threaded pool: every call may succeed or raise any kind of
exception at any stage, with or without its effect on the environment, and so may giving a container back and writing
a record.

**Weight transfer.** `WeightBuckets` and `HcclEngine` pack weights into two byte arrays that are swapped.
`MooncakeChain` is the chain of ranks that read each other's memory, as a state machine whose atomic steps are single
weight writes by the sender, single byte copies by the receivers, messages and slot accesses. `WeightChunks` splits and
merges oversized weights. `DeltaEncoding`, `DeltaStream`, `DeltaEngine`, `DeltaSync` and `DeltaConvergence` follow the
sharded delta engine from per-rank diffs through batched gathers, slicing and look-ahead flushes to the masked copy on
the receiver, and then over whole runs of syncs. `Sequences` has shared helpers.

**Credit assignment.** `AnchorGroups` clusters fingerprints within episode groups; `ActionWeights` (with `Sums`)
computes the flat weights of a three-level mean.

**Rollout bookkeeping.** `LoopGuard` and `RolloutLoop` are the step loop's guard copies, teacher rescues and teacher
queries; `MaiUiHistory` the message history; `SuccessInjection` the replacement of all-failure groups.

**Attention layout.** `QkvLayout` packs and merges grouped attention weights.

## Where the code does not do what is said of it

The model follows the code. In these places a promise holds only under a condition, which is proved exact:

- The receiver of the delta engine copies through a NaN mask, so a position that turns into a NaN keeps its old value;
  syncs converge bit for bit iff no sync brings such a NaN (`DeltaConvergence.FollowsIffNoFreshNaN`).
- The pools check raw endpoints for duplicates but key containers by `rstrip("/")`
  (`Containers.PoolIsCompleteIffNormalizedDistinct`).
- The operator call `recover()` wakes one waiter although several leases may open up
  (`ThreadedPool.RecoverKeepsCoveredIff`), and in the async pool a slot waiter may be the one it wakes
  (`LeaseSystem.RecoverKeepsWakeupsIff`).
- The evaluation runner's failure handler catches only InfrastructureError around its own teardown; anything else
  escapes with the lease still held (`EvaluationRunner.AllLeasesGivenBackIff`).
- `quarantine` writes the endpoint state after its critical section. When that raises inside the attempt's `try`, a
  handler quarantines the same lease again and the pool refuses it (`EvaluationRunner.RefusedIffQuarantineSlipped`).
- Replays find their prompt by priority, and the last prompt of a priority wins
  (`SuccessInjection.ReplaysStayInGroupsIff`).
- Bucket metadata is keyed by name: the HCCL and Mooncake transfers are faithful iff no name repeats inside one bucket.
- Splitting emits nothing for an empty weight, so it does not come back (`WeightChunks.SplitMergeRoundTripIff`).
- After a Mooncake sync an acknowledgement is left in one slot (`MooncakeChain.OneAcknowledgementIsLeftOver`).
- `limit_image_history` refuses histories whose prefix has images, since it counts them (`MaiUiHistory.TrimBuiltIff`).
- A replay keeps its group's size iff its composed name is new in the group (`SuccessInjection.GroupSizeKeptIff`).
- In `build_maiui_message_history` the second length check can never fire, because the first implies it.

## What becomes a parameter

Time: a waiter may leave with a timeout at any step. Tokens: any unused value. Environment calls, model calls and
recoveries: any outcome, chosen by the event. Process groups, RDMA, TCP stores and sockets: shared memory or ordered
messages. Parsed actions, fingerprints and replays: given as values. The memory of an uninitialised tensor: any value.
Floats: tensor elements are bit patterns, and scores, losses and weights are reals.

## Model

| member | source | states |
|---|---|---|
| Containers.CountsAddUp | guiagentlab/env/ray_pool.py:94-134 | the counts `acquire` takes are consistent: serviceable, recovering, leased, active and unavailable containers relate by counting |
| Containers.SpareGateFollows | guiagentlab/env/pool.py:140-172 | once no active container is available and leasing is possible at all, `leased_spares < unavailable_active` holds and an available spare exists, so the spare gate never refuses by itself |
| Containers.AcquireIsWorkConserving | guiagentlab/env/ray_pool.py:94-154 | `acquire` grants exactly when serviceable >= active and leased < active, fails exactly when serviceable < active and nothing recovers, and waits otherwise |
| Containers.GrantPrefersActive | guiagentlab/env/ray_pool.py:114-145 | a grant goes to an available container, and to a spare only when no active one is available |
| Containers.CountsAfterUpdate | guiagentlab/env/ray_pool.py:156-191 | replacing one container moves every count by exactly that container |
| Containers.LeaseOutKeepsSound | guiagentlab/env/ray_pool.py:156-164 | granting keeps: LEASED iff a token is set, tokens distinct, leased <= active count |
| Containers.IdleKeepsSound | guiagentlab/env/ray_pool.py:166-191 | giving a container back keeps the same and ends only its own token |
| Containers.HolderIsLive | guiagentlab/env/ray_pool.py:321-327 | a lease is accepted only while its token is the token of its endpoint, hence live |
| Containers.PoolIsCompleteIffNormalizedDistinct | guiagentlab/env/ray_pool.py:38-70 | the pool has one container per endpoint iff the endpoints differ after `rstrip("/")`, although the check compares the raw ones |
| Containers.SlashCollisionLosesTheActive | guiagentlab/env/pool.py:63-73 | a concrete pair of raw-distinct endpoints that collapses into one spare, after which nothing is ever granted |
| Containers.GiveBackEndsLease | guiagentlab/env/ray_pool.py:166-191 | giving a lease back kills its token, the lease is refused from then on, its container stands in the new state and no other container changes |
| Containers.GrantBeginsLease | guiagentlab/env/ray_pool.py:114-164 | a grant makes one fresh token live on a container that was AVAILABLE; the other containers stay |
| AsyncPool.NewPool | guiagentlab/env/ray_pool.py:28-70 | a configuration is rejected exactly by the raw-duplicate, endpoint-count and slot-range checks; else the pool holds the first `active + spares` endpoints, nothing leased, complete iff the stripped endpoints differ |
| AsyncPool.ReleaseReturns | guiagentlab/env/ray_pool.py:166-173 | a give-back is accepted iff the lease is live, and then ends the lease, frees both its slots and keeps every invariant; otherwise nothing changes |
| AsyncPool.QuarantineReturns | guiagentlab/env/ray_pool.py:175-191 | the same, with one more failure and the reason on the container's record |
| AsyncPool.RecordsUntouched | guiagentlab/env/ray_pool.py:156-173 | granting, releasing and starting a recovery change no failure count and no last error |
| AsyncPool.RecoverIsNoted | guiagentlab/env/ray_pool.py:259-271 | a recovered container has no error on record and as many failures as before |
| AsyncPool.RecoveryEndIsNoted | guiagentlab/env/ray_pool.py:301-319 | a recovery that failed leaves its failure on record, one that succeeded none |
| AsyncPool.AsyncContainerPool.constructor | guiagentlab/env/ray_pool.py:28-70 | the new pool keeps the invariants: nothing leased, no slot taken, every state of the pool starts from it |
| AsyncPool.AsyncContainerPool.AcquirePass | guiagentlab/env/ray_pool.py:94-145 | for an unused token: a lease is granted iff enough containers serve and fewer than the actives are leased, fails iff service cannot come back, and otherwise waits; a spare goes out only when no active is available, and only the granted container changes |
| AsyncPool.AsyncContainerPool.Release | guiagentlab/env/ray_pool.py:166-173 | Done iff the lease was live; then its token and slots are gone, it is refused, every other container and slot is as before and everyone wakes; a stale lease changes nothing |
| AsyncPool.AsyncContainerPool.Quarantine | guiagentlab/env/ray_pool.py:175-191 | the same with the container set aside, one more failure on its record, and the reason |
| AsyncPool.AsyncContainerPool.BeginInitializationPass | guiagentlab/env/ray_pool.py:193-215 | stale leases are refused; a live one waits iff every slot is taken, else gets one; nothing else changes |
| AsyncPool.AsyncContainerPool.EndInitialization | guiagentlab/env/ray_pool.py:217-224 | only a live lease that holds a slot gives one back, that slot alone, and then everyone wakes |
| AsyncPool.AsyncContainerPool.BeginTeardownPass | guiagentlab/env/ray_pool.py:226-248 | as for initialization slots |
| AsyncPool.AsyncContainerPool.EndTeardown | guiagentlab/env/ray_pool.py:250-257 | as for initialization slots |
| AsyncPool.AsyncContainerPool.Recover | guiagentlab/env/ray_pool.py:259-271 | refused for unknown and for leased containers; else the container is AVAILABLE without a probe, every lease and slot stands, and one waiter wakes |
| AsyncPool.AsyncContainerPool.ScheduleRecovery | guiagentlab/env/ray_pool.py:286-299 | an unleased container starts recovering, at most once per endpoint: while a recovery runs nothing changes |
| AsyncPool.AsyncContainerPool.EndRecovery | guiagentlab/env/ray_pool.py:301-319 | a finished recovery changes the container only if it is still RECOVERING, and no lease or slot in any case |
| LeaseSystem.StepKeepsSafe | guiagentlab/env/ray_pool.py:90-327 | every step of every thread, recovery and operator keeps: LEASED iff token, distinct live tokens, leased <= active, slot sets within live tokens and bounds, returned tokens never live |
| LeaseSystem.EveryRunIsSafe | guiagentlab/env/ray_pool.py:90-327 | the same in every reachable interleaving, operator calls and late recoveries included |
| LeaseSystem.ReturnedLeaseIsNeverAccepted | guiagentlab/env/ray_pool.py:166-191 | a lease once released or quarantined is refused by every later operation of the run |
| LeaseSystem.StepKeepsWakeups | guiagentlab/env/ray_pool.py:90-319 | no step other than the operator call leaves an un-notified waiter that could be served, should fail, or whose slot is free |
| LeaseSystem.NoRunLosesWakeups | guiagentlab/env/ray_pool.py:90-319 | no lost wakeups in any run without `recover()` |
| LeaseSystem.RecoverKeepsWakeupsIff | guiagentlab/env/ray_pool.py:259-271 | `recover()` loses no wakeup iff by the counts before it the container changes nothing for lease waiters, or no other lease waiter is left un-notified |
| LeaseSystem.SlotWaiterAbsorbsTheWakeup | guiagentlab/env/ray_pool.py:259-271 | a concrete state in which a slot waiter gets the one wakeup, waits again, and a lease waiter sleeps on although a lease could be granted |
| ThreadedPool.NewPool | guiagentlab/env/pool.py:49-83 | a configuration is rejected exactly by its checks; else the pool holds the first `active + spares` endpoints, nothing leased, complete iff the stripped endpoints differ |
| ThreadedPool.ReleaseReturns | guiagentlab/env/pool.py:181-186 | a release is accepted iff the lease is live, then ends it and wakes one thread; otherwise nothing changes |
| ThreadedPool.QuarantineReturns | guiagentlab/env/pool.py:188-200 | the same for a quarantine, which wakes everyone |
| ThreadedPool.RecordsUntouched | guiagentlab/env/pool.py:174-186 | granting, releasing and starting a recovery change no failure count and no last error |
| ThreadedPool.QuarantineIsNoted | guiagentlab/env/pool.py:188-197 | a quarantine counts one more failure and keeps its error |
| ThreadedPool.OperatorIsNoted | guiagentlab/env/pool.py:202-224 | a recovered container has no error on record, a retired one the reason |
| ThreadedPool.RecoveryEndIsNoted | guiagentlab/env/pool.py:267-284 | a recovery that failed leaves its failure on record, one that succeeded none |
| ThreadedPool.ContainerPool.AcquirePass | guiagentlab/env/pool.py:106-172 | for an unused token: granted iff enough containers serve and fewer than the actives are leased; only the granted container changes, and its token joins the live ones |
| ThreadedPool.ContainerPool.Release | guiagentlab/env/pool.py:181-186 | Done iff the lease was live; then its token is dead, the lease refused, its container AVAILABLE, the others as before, and one thread wakes |
| ThreadedPool.ContainerPool.Quarantine | guiagentlab/env/pool.py:188-200 | the same with the container QUARANTINED and everyone woken |
| ThreadedPool.ContainerPool.Recover | guiagentlab/env/pool.py:202-212 | refused for unknown and for leased containers; else the container is AVAILABLE, every lease stands and one thread wakes |
| ThreadedPool.ContainerPool.Retire | guiagentlab/env/pool.py:214-224 | refused likewise; else the container is RETIRED, every lease stands and everyone wakes |
| ThreadedPool.ContainerPool.StartRecovery | guiagentlab/env/pool.py:248-265 | an unleased container starts recovering once; a leased one is refused |
| ThreadedPool.ContainerPool.RecoverEndpoint | guiagentlab/env/pool.py:267-284 | the end of a recovery changes the container only if it is still RECOVERING, and no lease in any case |
| ThreadedPool.GrantUsesOne | guiagentlab/env/pool.py:106-179 | a grant uses exactly one of the leases that could be granted |
| ThreadedPool.ReleaseOpensOne | guiagentlab/env/pool.py:181-186 | a release opens at most one further lease |
| ThreadedPool.StepKeepsCovered | guiagentlab/env/pool.py:106-284 | while threads sleep, each lease that could be granted has a notified thread coming for it |
| ThreadedPool.NotifyOneSuffices | guiagentlab/env/pool.py:181-186 | waking one thread per release is enough in every run without operator calls |
| ThreadedPool.SleepersAreRight | guiagentlab/env/pool.py:106-172 | with no wakeup pending, a sleeping thread could neither be granted a lease nor fail |
| ThreadedPool.RecoverKeepsCoveredIff | guiagentlab/env/pool.py:202-212 | the single wakeup of `recover()` is enough exactly under a condition on the state before the call |
| ThreadedPool.RecoverCanLoseAWakeup | guiagentlab/env/pool.py:202-212 | a concrete state in which it is not: a thread is left asleep beside a grantable container |
| EvaluationRunner.StepKeepsAccounted | guiagentlab/evaluation/openai_runner.py:358-510 | whatever raises, a quarantine after its critical section and the writing of records included: each live lease is held by exactly one worker, and the others have been given back exactly once |
| EvaluationRunner.EveryRunIsAccounted | guiagentlab/evaluation/openai_runner.py:358-510 | in every run of any number of workers every lease is held by one worker or was given back exactly once |
| EvaluationRunner.FailedAttemptsAreRetried | guiagentlab/evaluation/openai_runner.py:358-511 | in every run a worker that is not done stands in attempt 1 + (its failed attempts put on record so far), and it ends exhausted iff that number is max_attempts: while an attempt is left, a failed one is followed by another |
| EvaluationRunner.WorkersFollowTheirCalls | guiagentlab/evaluation/openai_runner.py:376-500 | in every run, from the calls since the lease alone: the stages come in order, the container is released iff all seven calls succeeded or the model backend failed, set aside otherwise, and the episode is recorded iff the rollout was scored and at most the teardown failed |
| EvaluationRunner.JobsEndAsTheyShould | guiagentlab/evaluation/openai_runner.py:358-511 | in every run a job ends scored iff its episode was written, and aborted iff an exception came up that no handler takes |
| EvaluationRunner.DisposeAgainIsRefused | guiagentlab/evaluation/openai_runner.py:458-510 | the give-back a handler makes for a lease that has been given back is refused and changes nothing in the pool |
| EvaluationRunner.RefusedIffQuarantineSlipped | guiagentlab/evaluation/openai_runner.py:413-423 | in every run, a give-back of a worker is refused, or about to be, iff a quarantine of that worker inside the attempt's `try` raised after its critical section |
| EvaluationRunner.SecondGiveBackIsRefused | guiagentlab/env/pool.py:188-200 | a concrete run in which that happens: the endpoint state cannot be written, and the scored episode is lost |
| EvaluationRunner.StepKeepsClean | guiagentlab/evaluation/openai_runner.py:376-510 | a step keeps AVAILABLE containers free of initialised tasks, given that teardown fails only with InfrastructureError |
| EvaluationRunner.AvailableContainersAreClean | guiagentlab/evaluation/openai_runner.py:376-510 | the same in every run |
| EvaluationRunner.LeaseLeaksIffCleanupEscaped | guiagentlab/evaluation/openai_runner.py:461-476 | in every run, a worker has ended with its lease in hand iff its handler's own teardown has raised anything but InfrastructureError |
| EvaluationRunner.AllLeasesGivenBackIff | guiagentlab/evaluation/openai_runner.py:358-510 | once all workers have finished: every lease was given back exactly once and no container is LEASED, iff no handler's teardown of the run raised anything but InfrastructureError |
| EvaluationRunner.CleanupLeaksTheLease | guiagentlab/evaluation/openai_runner.py:461-476 | a concrete run in which the rollout and then the handler's teardown time out: the job is over and its container stays LEASED |
| EvaluationRunner.EveryStepNearsTheEnd | guiagentlab/evaluation/openai_runner.py:358-511 | every step but waiting lowers a measure of the steps a job has left |
| EvaluationRunner.RunsDoBoundedWork | guiagentlab/evaluation/openai_runner.py:358-511 | in every run the workers together take at most 13 steps per job and attempt, waiting for containers aside |
| WeightBuckets.FillKeepsWeights | verl/verl/checkpoint_engine/hccl_checkpoint_engine.py:248-303 | buckets in order hold exactly the sent weights, each bucket within capacity |
| WeightBuckets.BucketsAreFull | verl/verl/checkpoint_engine/hccl_checkpoint_engine.py:255-279 | a bucket is closed only when the next weight does not fit, and that weight starts the next bucket |
| WeightBuckets.MetasOfDistinct | verl/verl/checkpoint_engine/hccl_checkpoint_engine.py:286-298 | with distinct names the bucket metadata is the list of names, shapes, types and running offsets |
| WeightBuckets.RepeatedNameLosesAnEntry | verl/verl/checkpoint_engine/hccl_checkpoint_engine.py:286-298 | a repeated name in one bucket overwrites an entry, so fewer weights come out |
| WeightBuckets.SpansAreDisjoint | verl/verl/checkpoint_engine/hccl_checkpoint_engine.py:286-298 | the byte spans of different entries do not overlap |
| WeightBuckets.BucketRoundTrip | verl/verl/checkpoint_engine/hccl_checkpoint_engine.py:317-368 | reading a bucket back gives its weights iff its names are distinct |
| HcclEngine.SendWeights | verl/verl/checkpoint_engine/hccl_checkpoint_engine.py:248-303 | the sender fills one array while a broadcast may still be reading the other: however late that reads, the wire carries the buckets with their bytes, only the final one marked last; it stops at a weight over capacity |
| HcclEngine.ReceiveWeights | verl/verl/checkpoint_engine/hccl_checkpoint_engine.py:317-368 | the receiver yields from one buffer while the other is filled, and yields the unpacked buckets in order |
| HcclEngine.TransferIsFaithfulIff | verl/verl/checkpoint_engine/hccl_checkpoint_engine.py:230-375 | what is yielded equals what was sent iff no name repeats inside one bucket |
| HcclEngine.Transfer | verl/verl/checkpoint_engine/hccl_checkpoint_engine.py:230-375 | sender and receiver together; it fails only when some weight exceeds the bucket |
| MooncakeChain.OwnKeepsRank | verl/verl/checkpoint_engine/mooncake_checkpoint_engine.py:180-227 | a rank's step keeps its own part of the protocol: what is in its half, what it has yielded, where it stands |
| MooncakeChain.OwnKeepsLink | verl/verl/checkpoint_engine/mooncake_checkpoint_engine.py:194-227 | and its relation to its successor: at most two buckets ahead, unread buckets intact, slots set exactly while acknowledgements are outstanding |
| MooncakeChain.UpstreamKeepsLink | verl/verl/checkpoint_engine/mooncake_checkpoint_engine.py:256-315 | a receiver's step keeps the relation to its predecessor |
| MooncakeChain.StepKeepsInv | verl/verl/checkpoint_engine/mooncake_checkpoint_engine.py:149-315 | every atomic step keeps the invariant of the whole chain |
| MooncakeChain.EveryRunKeepsInv | verl/verl/checkpoint_engine/mooncake_checkpoint_engine.py:149-315 | the invariant holds in every reachable state, for any number of ranks and buckets |
| MooncakeChain.UnreadBucketsStayWhole | verl/verl/checkpoint_engine/mooncake_checkpoint_engine.py:183-216 | no rank overwrites a buffer before its successor has read that bucket |
| MooncakeChain.AcknowledgementsNeverCollide | verl/verl/checkpoint_engine/mooncake_checkpoint_engine.py:293-308 | an acknowledgement always finds its slot clear: at most one per slot is outstanding |
| MooncakeChain.OneAcknowledgementIsLeftOver | verl/verl/checkpoint_engine/mooncake_checkpoint_engine.py:226-227 | after a sync of two or more buckets one slot of the sender is still set |
| MooncakeChain.FinishedReceiverHasEverything | verl/verl/checkpoint_engine/mooncake_checkpoint_engine.py:252-315 | a finished receiver has yielded exactly the sender's sequence iff no name repeats inside one bucket, whatever the interleaving |
| MooncakeChain.NoDeadlock | verl/verl/checkpoint_engine/mooncake_checkpoint_engine.py:149-155 | a state in which no rank can step is one in which every rank has finished |
| MooncakeChain.StepLowersTotal | verl/verl/checkpoint_engine/mooncake_checkpoint_engine.py:149-315 | every step lowers the total work left |
| MooncakeChain.RunsAreBounded | verl/verl/checkpoint_engine/mooncake_checkpoint_engine.py:149-315 | the length of a run is bounded by the work of its first state |
| WeightChunks.SplitWeightChunks | verl/verl/checkpoint_engine/base.py:541-567 | the splitting loop, against the chunk list |
| WeightChunks.ChunksTile | verl/verl/checkpoint_engine/base.py:541-567 | chunks of a weight tile it in order with exact offsets, each exactly a bucket but the last, which is not empty |
| WeightChunks.ChunkCountIsLeast | verl/verl/checkpoint_engine/base.py:554-567 | the number of chunks is the least n with n * bucket_size >= nbytes |
| WeightChunks.MergeWeightChunks | verl/verl/checkpoint_engine/base.py:570-609 | the merging loop with its reused buffer and its assertions, against the fold that specifies it |
| WeightChunks.MergeOfSplit | verl/verl/checkpoint_engine/base.py:541-609 | merging the chunks of any weights yields the nonempty ones and no assertion fails |
| WeightChunks.SplitMergeRoundTripIff | verl/verl/checkpoint_engine/base.py:541-609 | the round trip is the identity iff no weight is empty |
| DeltaEncoding.ChangedIsExact | verl/verl/checkpoint_engine/delta_sync/sparse_gather.py:36-54 | the diff names a position iff its bits changed |
| DeltaEncoding.ChangedAscends | verl/verl/checkpoint_engine/delta_sync/sparse_gather.py:36-54 | positions come in ascending order |
| DeltaEncoding.AssembleFlush | verl/verl/checkpoint_engine/delta_checkpoint_engine.py:237-286 | the flush-building loop lays out manifest, positions and values as specified |
| DeltaEncoding.ManifestTiles | verl/verl/checkpoint_engine/delta_checkpoint_engine.py:237-286 | the manifest tiles the buffers without gaps: value offsets in elements, position offsets in bytes of four, none in a dense flush |
| DeltaEncoding.DecodeOfAssemble | verl/verl/checkpoint_engine/delta_checkpoint_engine.py:237-286 | slicing the buffers by the manifest offsets recovers the consumed entries, in order |
| DeltaEncoding.LandDrawn | verl/verl/workers/rollout/sglang_rollout/delta_loader.py:112-160 | densifying an entry and the NaN-masked copy overwrite exactly its positions that do not hold a NaN |
| DeltaEncoding.OverlayTwice | verl/verl/workers/rollout/sglang_rollout/delta_loader.py:138-160 | two overlays of one tensor are one overlay of the union |
| DeltaStream.FlushStream.Seal | verl/verl/checkpoint_engine/delta_checkpoint_engine.py:424-434 | the bucket becomes the waiting flush and the one before it goes out unmarked; nothing consumed is lost |
| DeltaStream.FlushStream.Consume | verl/verl/checkpoint_engine/delta_checkpoint_engine.py:436-450 | a parameter enters as slices of at most MAX_ENTRY_ELEMS elements, none when nothing changed; after every entry the bucket counts its bytes and is below the bucket size, as a full one has been sealed |
| DeltaStream.FlushStream.BucketDense | verl/verl/checkpoint_engine/delta_checkpoint_engine.py:339-346 | a whole tensor enters the seed stream, with the same sealing |
| DeltaStream.FlushStream.Finish | verl/verl/checkpoint_engine/delta_checkpoint_engine.py:556-563 | the wire is well framed (exactly the last message terminal, no flush empty, an empty marker alone iff no flush), carries everything consumed in order, and is cut exactly where buckets fill: every flush but the last reaches the bucket size, and none reached it before its final entry |
| DeltaStream.SlicesAreBounded | verl/verl/checkpoint_engine/delta_checkpoint_engine.py:444-450 | no slice is empty or over the cap |
| DeltaStream.SlicesAreFull | verl/verl/checkpoint_engine/delta_checkpoint_engine.py:444-450 | every slice of a parameter but its last has exactly MAX_ENTRY_ELEMS elements |
| DeltaStream.ReceiveWeights | verl/verl/checkpoint_engine/delta_checkpoint_engine.py:172-215 | the receiving loop delivers every flush up to the terminal message |
| DeltaStream.LoadAllAppend | verl/verl/workers/rollout/sglang_rollout/delta_loader.py:74-92 | loading entries in two portions is loading them together |
| DeltaStream.ApplyDelta | verl/verl/workers/rollout/sglang_rollout/delta_loader.py:57-109 | entries are handed over in chunks within the byte limit unless single, each closed only when the next entry would exceed it, and the result is that of loading them one by one |
| DeltaStream.ReceiveAndApply | verl/verl/workers/rollout/sglang_rollout/delta_loader.py:57-109 | receiving and applying a whole wire is loading its entries in order |
| DeltaEngine.GatherVBatched | verl/verl/checkpoint_engine/delta_sync/sparse_gather.py:57-130 | the padded batched gather gives, for every parameter, what gathering it alone would give |
| DeltaEngine.GatherDense | verl/verl/checkpoint_engine/delta_sync/sparse_gather.py:133-171 | placing every shard at its offset gives the full tensor |
| DeltaEngine.ShardDeltaIsExact | verl/verl/checkpoint_engine/delta_sync/sparse_gather.py:36-54 | a rank names exactly the positions it holds that changed in the full tensor |
| DeltaEngine.GatheredIsTheFullDiff | verl/verl/checkpoint_engine/delta_checkpoint_engine.py:520-545 | the stitched deltas are the element-wise diff of the full tensors, however the parameter is sharded |
| DeltaSync.DeltaShardedCheckpointEngine.SendDenseSeed | verl/verl/checkpoint_engine/delta_checkpoint_engine.py:288-381 | the first sync sends every full tensor once, in order, well framed and cut where buckets fill, and snapshots every shard |
| DeltaSync.DeltaShardedCheckpointEngine.FlushGroup | verl/verl/checkpoint_engine/delta_checkpoint_engine.py:452-474 | a group has one process group when gathered, and its entries enter the stream in order |
| DeltaSync.DeltaShardedCheckpointEngine.SendDeltas | verl/verl/checkpoint_engine/delta_checkpoint_engine.py:408-563 | a later sync gathers the diffs in batches of one process group, each full or ended by another group, sends them in order, well framed and cut where buckets fill, and replaces every snapshot |
| DeltaSync.DeltaShardedCheckpointEngine.SendWeights | verl/verl/checkpoint_engine/delta_checkpoint_engine.py:399-563 | dense seed before, diffs after seeding |
| DeltaSync.SparseEntriesAreBounded | verl/verl/checkpoint_engine/delta_checkpoint_engine.py:436-450 | no entry of a sparse sync is empty or over MAX_ENTRY_ELEMS |
| DeltaSync.SnapshotsHold | verl/verl/checkpoint_engine/delta_checkpoint_engine.py:517-528 | each snapshot replaced in a sync is the current shard of its parameter; the others stay |
| DeltaConvergence.SlicesLand | verl/verl/workers/rollout/sglang_rollout/delta_loader.py:57-92 | the slices of a parameter land as one overlay of the new tensor |
| DeltaConvergence.SyncDelivers | verl/verl/checkpoint_engine/delta_checkpoint_engine.py:288-563 | one sync is accepted, brings every parameter to its next tensor and touches nothing else |
| DeltaConvergence.NamedIsTheDiff | verl/verl/checkpoint_engine/delta_checkpoint_engine.py:514-550 | a sparse sync names exactly the positions at which the trainer moved since the last sync |
| DeltaConvergence.EveryRunShows | verl/verl/checkpoint_engine/delta_checkpoint_engine.py:288-577 | after any number of syncs the receiver shows, at every position, the seed's value or the trainer's latest value that is not a NaN |
| DeltaConvergence.EveryRunAgreesOnNumbers | verl/verl/checkpoint_engine/delta_checkpoint_engine.py:288-577 | the receiver equals the trainer's current tensor wherever that holds a number, however parameters are sharded, batched, sliced or bucketed |
| DeltaConvergence.FollowsIffNoFreshNaN | verl/verl/checkpoint_engine/delta_checkpoint_engine.py:288-577 | the receiver equals the trainer bit for bit after every sync of a run iff no sync turns a position into a NaN it did not hold before |
| DeltaConvergence.FreshNaNIsDropped | verl/verl/workers/rollout/sglang_rollout/delta_loader.py:138-160 | a concrete run that does not converge: a number turns into a NaN and the receiver keeps the number |
| DeltaConvergence.Sync | verl/verl/checkpoint_engine/delta_checkpoint_engine.py:399-577 | the sending engine and the receiver together perform one such sync |
| DeltaConvergence.RunSyncs | verl/verl/checkpoint_engine/delta_checkpoint_engine.py:288-577 | and a whole run of them |
| AnchorGroups.HammingIsAMetric | guiagentlab/rollout/maiui.py:217-220 | on signed 64-bit fingerprints the distance is symmetric, at most 64, zero iff equal, and satisfies the triangle inequality |
| AnchorGroups.HammingCountsBits | guiagentlab/rollout/maiui.py:217-220 | the distance is the number of the 64 bit positions in which the two numbers differ |
| AnchorGroups.KeyIsInjective | guiagentlab/methods/gigpo.py:88-91 | the sort key tells any two signatures apart |
| AnchorGroups.AscendingIsUnique | guiagentlab/methods/gigpo.py:88-91 | the sorted order of a set of signatures is unique |
| AnchorGroups.OrderedByKey | guiagentlab/methods/gigpo.py:88-91 | signatures are placed by coarse fingerprint, those without a detail first, then by detail |
| AnchorGroups.BestIsLeastCandidate | guiagentlab/methods/gigpo.py:92-102 | the chosen cluster is the least of (worst member distance, index) among the clusters all of whose members match, and none is chosen iff none matches |
| AnchorGroups.WorstIsFarthest | guiagentlab/methods/gigpo.py:92-99 | the distance of a cluster is that of its farthest member, coarse before detail |
| AnchorGroups.JoinsTheNearest | guiagentlab/methods/gigpo.py:92-103 | a signature joins, among the clusters within whose limits it lies, the one whose farthest member is nearest, the earliest on a tie; it opens a cluster iff there is none; no other signature moves |
| AnchorGroups.ClusterSignatures | guiagentlab/methods/gigpo.py:86-103 | the clustering loop, against the fold that specifies it |
| AnchorGroups.PlacedIsSound | guiagentlab/methods/gigpo.py:86-103 | every signature has one cluster, all members of a cluster match pairwise, no two clusters could be merged |
| AnchorGroups.PerceptualAnchorGroups | guiagentlab/methods/gigpo.py:13-109 | the checks in order, and every row labelled by its group, its own signature and the set of signatures in the group |
| AnchorGroups.RowOrderDoesNotMatter | guiagentlab/methods/gigpo.py:30-33 | permuting or duplicating rows permutes or duplicates labels and changes nothing else |
| AnchorGroups.LabelsStayInGroups | guiagentlab/methods/gigpo.py:71-109 | rows share a label only within an episode group, and unclusterable rows only when identical |
| AnchorGroups.RawRowsShareIff | guiagentlab/methods/gigpo.py:71-81 | rows that cannot be clustered share a label iff they are of one group with equal raw signatures |
| AnchorGroups.EqualSignaturesShare | guiagentlab/methods/gigpo.py:82-109 | rows of one group with equal signatures share their label |
| AnchorGroups.ClusteredRowsMatch | guiagentlab/methods/gigpo.py:47-69 | any two rows with one perceptual label are within the coarse limit, and when both have details within the detail limit, and within one bit when their coarse fingerprints are equal |
| AnchorGroups.ClustersAreMaximal | guiagentlab/methods/gigpo.py:86-103 | two clusters of a group contain two rows of which the coarse distance is over its limit, or the detail distance over its limit or over one bit at equal coarse fingerprints |
| AnchorGroups.PerceptualAnchorGroupsWithoutLoops | guiagentlab/methods/gigpo.py:138-167 | loop rows get a label of their own each; the other rows are labelled as if the loop rows were not there |
| ActionWeights.HierarchicalActionWeights | guiagentlab/methods/advantages.py:92-147 | the checks in order, and every weight scale / (prompts * trajectories of the prompt * valid actions of the trajectory), zero on invalid rows |
| ActionWeights.FlatMeanIsNestedMean | guiagentlab/methods/advantages.py:92-147 | the weighted sum of losses over the normalizer equals mean over prompts of mean over trajectories of mean over valid actions, for every loss vector |
| ActionWeights.WeightsSumToScale | guiagentlab/methods/advantages.py:92-147 | the weights sum to the normalizer |
| ActionWeights.PromptsShareEqually | guiagentlab/methods/advantages.py:92-147 | every active prompt has the same share of the weight |
| Sums.SplitByKey | guiagentlab/methods/advantages.py:137-146 | a sum over rows is the sum over keys of the sums over rows with that key |
| LoopGuard.DeterministicLoopGuard.Observe | guiagentlab/reward/loop_guard.py:75-107 | one observation appends the token, keeps the counter equal to the multiplicities, and returns the verdict and the repeated segment of the new history |
| LoopGuard.FirstCycleIsShortest | guiagentlab/reward/loop_guard.py:98-106 | a reported cycle is the shortest of the allowed lengths whose two last segments agree, and none is reported iff there is none |
| LoopGuard.PassesIff | guiagentlab/reward/loop_guard.py:91-107 | a step passes iff its pair is below the threshold and no allowed cycle repeats |
| LoopGuard.VerdictIsExact | guiagentlab/reward/loop_guard.py:88-116 | by the history alone: the number of equal tokens decides first and marks the step itself; else the shortest allowed cycle whose tokens all equal those a cycle before is reported and marked whole; else nothing |
| LoopGuard.IndicesCoverTheStep | guiagentlab/reward/loop_guard.py:109-116 | the segment is nonempty exactly for a blocked step, includes that step and never the first one |
| LoopGuard.BlockedStepsRepeat | guiagentlab/reward/loop_guard.py:55-61 | only a step equal to an earlier one can be blocked |
| RolloutLoop.ConservativeTeacherIntervention.TriggerReasons | guiagentlab/rollout/teacher_intervention.py:39-62 | a rescue is triggered iff enabled, within budget, outside the cooldown and for a reason, and then every reason that holds is given and no other |
| RolloutLoop.ConservativeTeacherIntervention.RecordApplication | guiagentlab/rollout/teacher_intervention.py:72-77 | an application starts the cooldown |
| RolloutLoop.ChooseAction | guiagentlab/rollout/agent.py:1229-1380 | the teacher is asked iff rescues are on, budget is left, no cooldown runs and the action is invalid, loops, or the screen has not changed for long enough; the executed action is the teacher's iff it was asked for, parsed and does not loop, else the student's; the live guard has then seen exactly that action; neither budget check can raise |
| RolloutLoop.MarkRepeated | guiagentlab/rollout/agent.py:1387-1398 | marking a segment cancels exactly the pending queries in it |
| RolloutLoop.MarkStep | guiagentlab/rollout/agent.py:1382-1398 | after a step the skip marks are those the executed tokens determine |
| RolloutLoop.SubmitQuery | guiagentlab/rollout/agent.py:1400-1409 | a query is submitted iff there is a teacher and the step is not marked |
| RolloutLoop.TakeStep | guiagentlab/rollout/agent.py:1128-1409 | one step keeps everything established so far |
| RolloutLoop.RunAttempt | guiagentlab/rollout/agent.py:1128-1596 | a whole attempt: every row records the right action and verdict, and a call to the teacher exactly when the rows before it make one due; marks and queries are settled, calls and applications are counted within budget, and the loop stops where it should |
| RolloutLoop.QueriesAndSkipsAddUp | guiagentlab/rollout/agent.py:1591-1596 | with a teacher every step has a pending query or a skip mark, never both: queries plus skips equals steps, and every emitted row has a query |
| RolloutLoop.FirstStepIsEmitted | guiagentlab/rollout/agent.py:1832-1837 | the first step is never skipped, so emission is never empty and starts with it |
| RolloutLoop.EverythingIsEmittedWithoutTeacher | guiagentlab/rollout/agent.py:1832-1837 | without a teacher every step is emitted |
| RolloutLoop.SkippedOnlyWhenBlocked | guiagentlab/rollout/agent.py:1382-1398 | a skipped step lies in the segment of some blocked step |
| RolloutLoop.BlockedStepsAreSkipped | guiagentlab/rollout/agent.py:1382-1400 | a blocked step is itself skipped when skipping is on |
| RolloutLoop.RescuesNeverLoop | guiagentlab/rollout/agent.py:1293-1324 | an applied teacher action is valid and never one the guard blocks |
| RolloutLoop.CooldownStays | guiagentlab/rollout/teacher_intervention.py:32-77 | after a rescue no rescue is called for during the cooldown |
| MaiUiHistory.BuildMessageHistory | guiagentlab/rollout/maiui.py:83-111 | the building loop, with its length check |
| MaiUiHistory.BuiltByPosition | guiagentlab/rollout/maiui.py:83-111 | with first retained screenshot f: the prefix, f responses, then each retained screenshot followed by its response, and the last screenshot at the end |
| MaiUiHistory.TrimmingKeepsActions | guiagentlab/rollout/maiui.py:60-80 | trimming keeps every action in order and as many screenshots as newest images |
| MaiUiHistory.DropFromChat | guiagentlab/rollout/maiui.py:60-111 | dropping the oldest screenshots of a built chat is starting the screenshots later |
| MaiUiHistory.TrimBuiltIff | guiagentlab/rollout/maiui.py:60-111 | trimming a built history succeeds iff the prefix has no image, and then equals building with the tighter limit, in messages and in screenshots |
| MaiUiHistory.BuildingKeepsActions | guiagentlab/rollout/maiui.py:83-111 | every assistant action survives building, in order |
| MaiUiHistory.ToOpenAiMessages | guiagentlab/rollout/maiui.py:138-160 | conversion succeeds iff placeholders and images are as many; placeholder number p becomes image p; the two errors are told apart |
| MaiUiHistory.ImagesUsedInOrder | guiagentlab/rollout/maiui.py:138-160 | every image is used exactly once, in order |
| MaiUiHistory.BuiltConvertsIff | guiagentlab/rollout/maiui.py:83-160 | a built history converts with its retained screenshots iff the prefix has no placeholder |
| SuccessInjection.JudgeGroup | guiagentlab/replay/success_injection.py:52-80 | what becomes of one group, errors in the order of the loop |
| SuccessInjection.SelectAllFailureReplacements | guiagentlab/replay/success_injection.py:30-92 | the group loop: the first error, or everything collected |
| SuccessInjection.SelectionIsSound | guiagentlab/replay/success_injection.py:45-92 | each selected group is selected once, replacements plus ineligible groups equals all-failure groups |
| SuccessInjection.SelectionIsComplete | guiagentlab/replay/success_injection.py:45-92 | no eligible all-failure group is passed over |
| SuccessInjection.JudgedGroupFailed | guiagentlab/replay/success_injection.py:52-90 | a selected group failed in every trajectory, has the configured size, and gives up its last trajectory |
| SuccessInjection.ReplacedExactlyWhenFailed | guiagentlab/replay/success_injection.py:52-90 | by the rows alone: a group gives up a trajectory iff rewards agree within each trajectory, none is positive, there are group_size of them and all rows are of one eligible task |
| SuccessInjection.RowsOfReplacement | guiagentlab/replay/success_injection.py:81-90 | a replacement covers exactly the rows of one whole trajectory of its group |
| SuccessInjection.ReplacementsAreDisjoint | guiagentlab/replay/success_injection.py:45-92 | replacement row sets are pairwise disjoint |
| SuccessInjection.ReplaceAllFailureGroups | guiagentlab/rollout/manager.py:558-684 | keep mask, replays and concatenation, against the batch they specify |
| SuccessInjection.ReplacedIffChosen | guiagentlab/rollout/manager.py:558-684 | for rows generated from prompts whose priority tells their group, replacing fails only where selecting does, and each replacement finds a prompt of its own group |
| SuccessInjection.OtherGroupsUntouched | guiagentlab/rollout/manager.py:645-684 | for such rows, groups that were not selected keep their rows in order |
| SuccessInjection.SelectedGroupAfter | guiagentlab/rollout/manager.py:645-684 | for such rows, a selected group keeps its other rows in order and gains the recorded success under its own uid and priority |
| SuccessInjection.ReplayRows | guiagentlab/rollout/agent.py:668-720 | the replay is one row per recorded step, in order, with reward 1.0 and the name, task and priority of the replaced trajectory |
| SuccessInjection.ReplacedGroupSucceeds | guiagentlab/rollout/manager.py:645-684 | after the replacement the group has a succeeding trajectory, provided the replay has steps and its name is new |
| SuccessInjection.ReplaysStayInGroupsIff | guiagentlab/rollout/manager.py:564-574 | the replays of every batch generated from given prompts stay in their groups iff prompts of equal priority are of one group |
| SuccessInjection.AmbiguousPriorityMisplaces | guiagentlab/rollout/manager.py:567-574 | if two prompts of equal priority are of different groups, there is a batch of theirs whose replay lands in the other group while its own group is gone |
| SuccessInjection.GroupSizeKeptIff | guiagentlab/rollout/agent.py:680 | the group still has its full number of trajectories iff the replay's name is new among those that stay |
| SuccessInjection.CollidingNameShrinksTheGroup | guiagentlab/rollout/agent.py:680 | a concrete batch in which it is not |
| QkvLayout.MergeAcrossTp | verl/scripts/legacy_model_merger.py:533-562 | the merging loops with their assertions, against the fold that specifies them |
| QkvLayout.ShardChunks | verl/scripts/legacy_model_merger.py:545-547 | the chunks of a shard are the packed groups it holds |
| QkvLayout.SizesRecovered | verl/scripts/legacy_model_merger.py:539-556 | the sizes read off the first shard are those of the packing |
| QkvLayout.MergeUndoesPacking | verl/scripts/converter_hf_to_mcore.py:155-161 | packing by key-value head, slicing over any tp that divides the heads and merging gives back q, k and v row for row |
| QkvLayout.PackingIsInjective | verl/scripts/converter_hf_to_mcore.py:155-161 | different weights pack differently |

## Left out

- HTTP clients, Docker, file locks, Ray remoting, sockets, RDMA and CUDA streams: replaced as described above.
- Persisted quarantines, read by `start()` and by the threaded constructor, and the recovery semaphore: a recovery is one step that starts and one that ends.
- `snapshot`, `from_file` and other read-only or configuration members of the pools.
- `AsyncPool.AsyncContainerPool.constructor`: takes a checked and cut configuration; the checks and the cut are those of `NewPool`.
- `EvaluationRunner.StepKeepsAccounted`: the job loop is a state machine of its stages and handlers instead of a method, because workers interleave at every call; one worker of the model is one job, and what records contain is not modelled.
- `MooncakeChain.StepKeepsInv`: both loops are program counters of one state machine for the same reason; the weight iterator is already cut into buckets.
- `ThreadedPool.RecoverCanLoseAWakeup`: shows one wakeup missed; a later release or recovery wakes the sleeper, so nothing is claimed about sleeping for ever.
- Wall-clock deadlines: the model allows a timeout at any moment, so nothing is claimed about when one happens.
- `MooncakeChain.FinishedReceiverHasEverything`: one sync from cleared slots; later syncs start with a slot still set and are not modelled.
- `EvaluationRunner.AvailableContainersAreClean`: assumes that a successful recovery cleans the environment and teardown fails only with InfrastructureError, which no code here can ensure.
- `DeltaConvergence.EveryRunShows`: for parameters without a converter, one element type, the same parameters and placement at every sync, and each process group with rank 0 as its first member; the converter branch that rebuilds tensors from NaN sentinels is not modelled.
- `DeltaEngine.GatherVBatched`: the early return when no rank has a change is not a branch of its own; its result is that of the general path.
- Checksums of delta flushes, device placement, tensor-parallel narrowing on the receiver.
- `WeightChunks.MergeWeightChunks`: also rejects a chunk whose shape and size disagree, which the original would meet as a failing view.
- `AnchorGroups.PerceptualAnchorGroups`: booleans, which Python counts as integers, are not distinguished from integers.
- `ActionWeights.HierarchicalActionWeights`: float32 rounding of the weights.
- `group_normalize`, `trajectory_outcome_scores` and the rest of the advantage estimators: means, deviations and discounted sums that would add easy members.
- `LoopGuard.DeterministicLoopGuard.Observe`: takes the normalised action as a string; the normalisation of coordinates and text is not modelled.
- `RolloutLoop.RunAttempt`: process rewards, milestones, screenshots, logging and the `ask_user` branch, which the constructor disables, are not modelled; an environment failure ends an attempt without a result.
- `SuccessInjection.ReplayRows`: returns, advantages and token contents of replayed rows.
- `SuccessInjection.ReplaceAllFailureGroups`: the comparison of tensor and metadata field names between online and replayed batches, and the dropping of rollout log probabilities.
- `QkvLayout.MergeUndoesPacking`: layer loops, norms, experts and the copying into destination parameters; slicing over tp ranks is the contiguous row split of the sharded checkpoint.
- The KIMI and NCCL checkpoint engines, dataset scripts, the command line, recording, manifests and the viewer.
