# Verification of the pipeline-parallel speculative decoding overlay

This project models the index arithmetic, the replicated state and the refactored algorithms of the
overlay and proves properties of the models with Dafny 4.11. `dafny verify dfyconfig.toml` checks all of
it. Floating-point values are exact reals or values of an arbitrary type, tensors are sequences or
arrays, and a kernel is the loop over its programs.

## What is modelled

**Mamba / KDA align cache** (`AlignMachine`, `AlignSafety`, `AlignRuns`, `AlignGrid`, `AlignTiles`,
`AlignKernels`, `AlignBatch`, `Recurrence`). A machine of per-slot registers, two block pools and a prefix
cache. Its events are the kernels on one slot (preprocess, pre-copy, forward, fill, postprocess) and the
scheduler's actions (admit, extend, release, evict), so every interleaving of requests and every grid order is
one run. The temporal state after `t` tokens is a fold of an arbitrary step function over the token history,
the conv state a window of it. `AlignKernels` has the kernels in place on arrays, `AlignGrid` their grid of
one program per row, state and tile, `AlignTiles` its temporal copies on bytes, and `AlignBatch` shows that a
launch in any order of its programs is a run of events.

**Relay of sampled tokens** (`Relay`, `RelayAgreement`, `RelayRuns`, `PPHandlers`, `ModelRunners`,
`AlignRelay`, `RelayDrive`, `LastDrive`). A last rank and any other rank under the same scheduler. The key
notion is the drained view of a slot: what it becomes once every parked result that is still valid is
settled. `PPHandlers` and `ModelRunners` have the methods in place. `AlignRelay` shows slot by slot, and over
whole runs `RelayDrive` for any other rank and `LastDrive` for the last rank by itself, that the relay drives the
align machine only through enabled events.

**kpool index cache and tail ring** (`Kpool`, `KpoolRuns`, `KpoolDecode`, `KpoolSafety`, `KpoolBatch`,
`KpoolGrid`, `KpoolLaunch`). The compression is an arbitrary function of a pool's tokens. `KpoolLaunch` shows that
a launch over live requests, in any order of its programs, is a stretch of a run of events.

**mHC pipeline split** (`PipelineSplit`), **split-KV sparse attention** (`SparseAttention`), **Hadamard
butterflies** (`Hadamard`), **indexer metadata and logits** (`PrefillChunks`, `PrefillMetadata`,
`ContextParallel`, `DistributedTopK`, `DecodeLayout`, `MqaLogits`, `PoolExpansion`), **tiled block copy**
(`TiledCopy`) and **repetition detector** (`RepetitionDetector`). `Arith` holds
division facts and `Options` the optional result.

## Assumptions

Each stands in for code or a caller that is not part of this model.

- Align: fewer speculative tokens than the block size; one block size for the two uses of it
  (`mamba_hybrid.py:104`, `:199`). The allocator gives a request unused blocks for every column it may still
  write, shares only settled blocks, and admits a request only at a block boundary whose block is cached.
  The linear-attention forward writes column `src + j` with the state after `running + j` tokens. One
  program's copy is atomic.
- Relay: the scheduler reports a request's exact computed count until its first sample and at least that
  count afterwards; the mask drops no row of a request that has sampled and has more than one token to go
  (`MaskSafeAtCall` shows that this is exactly what the mask needs, and only the agreement of the variables and
  the device runs of the other rank use it). It does not schedule a request whose prompt is done and whose
  tokens, with the one sampled last, have reached max_seq_len; it schedules a request whose result is pending no
  sooner than pp_size steps later (`pp_utils.py:57-59`), and frees and fills the same slots on every rank.
  `post_update` advances by scheduled minus rejected tokens and remembers the last sampled one. The sampler
  returns one to drafts + 1 tokens for a row that produces a sample, accepting at least one of the scheduled
  tokens, and none otherwise. Collectives arrive unaltered and in order. Generations do not overflow. The device
  run of the last rank (`LastRunSafe`) uses of all this only that rows are of occupied slots, that the rejected
  tokens are the drafts not accepted, and the rule of `post_update`.
- kpool: prefill chunks start pool-aligned (`sparse_attn_indexer_kpool.py:173-174`); new slots and tail blocks
  are unused ones, admitted prefixes are cached ones; a rejection does not roll back behind the newest stashed
  pool. `RollbackExactly` shows that the last condition is needed, `VerifySafeExactly` when it cannot fail.
- mHC: the fused operator is the post-mix followed by the pre-mix, and the post-mix keeps the [T, n, H]
  shape. Sequence parallelism is off.
- Sparse attention: `exp2` and `exp` are positive and turn sums into products, `log2` inverts `exp2` on
  positive numbers, and `LOGE2` converts between the bases; for `NearSoftmax`, `exp2` also grows and doubles from
  one whole number to the next.
- Top-K: every selector uses one total order, higher score first and lower id first on ties.

## Where the code and its documentation differ

- `tools/detect.py` promises the worst run. Jumping over whole runs can count a run one short: exactly the runs
  of less than `r * size + size - 1` characters that do not open the text or a line can be counted below `r`
  (`ReportCountsExactly`), so a run of exactly `min_reps` copies can be reported clean (`RunMissed`).
- `compute_need_sampled_mask` means to exclude requests that are known to be finished. The host's count is an
  optimistic mirror (`mamba_hybrid.py:183-186`); when it stands at the limit while the request has more than one
  token to go, the mask can drop a result that is still needed (`MaskSafeAtCall`, `OvershootDiverges`). The
  collectives, the FIFO, the owners of deferred posts and the last rank's device come out right even then
  (`RunInStep`, `LastRunSafe`).
- The kpool decode kernel is meant to be correct for any number of verify tokens (`kpool_compress.py:575-578`).
  Its completions are, but a rejection near a pool boundary can leave rejected tokens in the ring, and the next
  completion compresses them (`VerifySafeExactly`, `RollbackWitness`).
- In exact arithmetic the masked lanes of the sparse attention still weigh `exp2(NEG_LARGE)`, so splitting
  and the single pass agree exactly when they pad alike (`SplitAgreesExactly`, `SplitDisagrees`, `SoftmaxExactly`);
  how little that is, `NearSoftmax` says.

## Model

| member | source | states |
|---|---|---|
| `AlignRuns.StepSafe` | ported-files/vllm/v1/worker/mamba_utils.py:249-520 | every kernel and scheduler event that is enabled reads and writes inside its row and pools, and keeps the invariant of all live requests and of the prefix cache |
| `AlignRuns.RunSafe` | ported-files/vllm/v1/worker/mamba_utils.py:249-520 | the invariant holds at every point of every run that starts with vacant slots and arbitrary bytes in the pools, and every event of the run is defined |
| `AlignRuns.RunningStateFound` | ported-files/vllm/v1/worker/mamba_utils.py:421-435 | in every run, temporal column `stateIdx + accepted - 1` of an idle request holds exactly the recurrent state after its computed tokens, and the conv window at offset `accepted - 1` of column `stateIdx` its last inputs |
| `AlignSafety.PreprocessKeeps` | ported-files/vllm/v1/worker/mamba_utils.py:417-435 | advancing the column and resetting the count keeps the invariant, whether the column moves right, moves left after rejections or stays |
| `AlignSafety.PrecopyKeeps` | ported-files/vllm/v1/worker/mamba_utils.py:491-520 | the pre-copy keeps the invariant, whose case after it says that both pools hold the request's state where the forward pass looks for it and every other request's state is intact |
| `AlignSafety.ForwardKeeps` | ported-files/vllm/v1/worker/mamba_utils.py:1221-1230 | the forward pass keeps the invariant, whose case after it says that column `stateIdx + j` holds the state after all but the last `drafts - j` scheduled tokens, other rows and cached blocks being intact |
| `AlignSafety.PostKeeps` | ported-files/vllm/v1/worker/mamba_utils.py:328-389 | the fused postprocess keeps the invariant in all four cases: no boundary, copy, self-copy with a bias, nothing to do |
| `AlignSafety.PostDefined` | ported-files/vllm/v1/worker/mamba_utils.py:341-389 | when the postprocess copies, both columns are inside the request's own row |
| `AlignSafety.PostCounts` | ported-files/vllm/v1/worker/mamba_utils.py:331-350 | running position, new computed count and destination column of a settled step: the destination is at or left of the running column, and coincides with it only when the boundary is the new count |
| `AlignSafety.ResetOnlyAtBoundary` | ported-files/vllm/v1/worker/mamba_utils.py:352-356 | the accepted count is reset to 1 only when the aligned count equals the new computed count |
| `AlignSafety.DestinationAtOrLeft` | ported-files/vllm/v1/worker/mamba_utils.py:348-350 | a checkpoint never goes to a column right of the running one |
| `AlignRuns.BoundaryUnique` | ported-files/vllm/v1/worker/mamba_utils.py:341-343 | at most one block boundary lies between the running position and the new computed count |
| `AlignRuns.CheckpointExactly` | ported-files/vllm/v1/worker/mamba_utils.py:341-389 | whenever a boundary a lies between the running position and the new computed count, column a / block_size - 1 ends up holding the state after exactly a tokens |
| `AlignRuns.CheckpointKept` | ported-files/vllm/v1/worker/mamba_utils.py:362-389 | no event other than its own eviction changes a checkpoint |
| `AlignRuns.CheckpointDurable` | ported-files/vllm/v1/worker/mamba_utils.py:331-389 | over any stretch of a run without its eviction, a checkpoint reads back as the state of its prefix in both pools |
| `AlignRuns.AdmitKeeps` | ported-files/vllm/v1/worker/gpu/model_states/mamba_hybrid.py:97-105 | a new or resumed request seeded at column (computed - 1) // block_size with count 1 finds the cached state of its prefix |
| `AlignRuns.FillKeeps` | ported-files/vllm/v1/worker/gpu/model_states/mamba_hybrid.py:317-321 | filling the accepted count while a result is pending does not lose any candidate column |
| `AlignKernels.AlignContext.constructor` | ported-files/vllm/v1/worker/gpu/model_states/mamba_hybrid.py:78-95 | registers start at column 0, count 1, no source column |
| `AlignKernels.AlignContext.AdvanceRow` | ported-files/vllm/v1/worker/mamba_utils.py:421-435 | one lane of the preprocess kernel on the register arrays |
| `AlignKernels.AlignContext.Preprocess` | ported-files/vllm/v1/worker/gpu/model_states/mamba_hybrid.py:185-200 | one launch advances exactly the mapped slots by the decision function and leaves the others |
| `AlignKernels.AlignContext.CopyTile` | ported-files/vllm/v1/worker/mamba_utils.py:117-246 | one program's share of a copy in place: a conv state shifts by the bias inside its block and is moved by tile 0 alone, a temporal state takes the biased column, each tile its own cells |
| `AlignKernels.AlignContext.Precopy` | ported-files/vllm/v1/worker/mamba_utils.py:479-520 | one launch over rows, states and tiles: for every order of the programs each state's pool is what the rows' copies leave one after the other; -1 rows, fresh rows and unmoved rows copy nothing |
| `AlignKernels.AlignContext.PostProgram` | ported-files/vllm/v1/worker/mamba_utils.py:312-389 | one program (row, state, tile): decision from the snapshot, reset of the live count by state 0 and tile 0 only, its own share of the copy |
| `AlignGrid.AnyOrder` | ported-files/vllm/v1/worker/mamba_utils.py:303-325 | for every order of the programs of a launch whose rows keep apart, a state's pool ends as the rows' whole moves leave it, cell by cell |
| `AlignKernels.AlignContext.Postprocess` | ported-files/vllm/v1/worker/mamba_utils.py:969-1022 | one launch: for every order of the programs each state's pool is what the rows' copies leave, decided from the counts at the launch, and exactly the resetting rows end with count 1 |
| `AlignKernels.LiveCountLoses` | ported-files/vllm/v1/worker/mamba_utils.py:980-1000 | in every order, a program that decided from the live count would lose the copy of its state exactly when its row resets with a bias and the resetting program ran before it, and would decide as from the snapshot otherwise |
| `AlignKernels.PreprocessV1AndV2Alike` | ported-files/vllm/v1/worker/mamba_utils.py:1209-1254 | the host-side preprocess and the fused kernel compute the same column, count, copy flag and bias |
| `AlignBatch.PreprocessLaunchIsRun` | ported-files/vllm/v1/worker/gpu/model_states/mamba_hybrid.py:185-200 | one preprocess launch leaves the registers that the rows' Preprocess events leave |
| `AlignBatch.PrecopyLaunchIsRun` | ported-files/vllm/v1/worker/mamba_utils.py:479-520 | one pre-copy launch leaves the pools that the rows' Precopy events leave |
| `AlignBatch.PrecopyGridIsRun` | ported-files/vllm/v1/worker/mamba_utils.py:479-520 | and so does any order of its programs, for the states of any layer |
| `AlignBatch.PostLaunchIsRun` | ported-files/vllm/v1/worker/mamba_utils.py:969-1022 | one postprocess launch leaves the pools, the registers and the accepted counts that the rows' Post events leave |
| `AlignBatch.PostGridIsRun` | ported-files/vllm/v1/worker/mamba_utils.py:303-325 | and so does any order of its programs, for the states of any layer |
| `AlignBatch.PostsCommute` | ported-files/vllm/v1/worker/mamba_utils.py:312-325 | settling two requests in either order gives the same machine, cache included |
| `AlignBatch.PostPrivate` | ported-files/vllm/v1/worker/mamba_utils.py:362-389 | a postprocess changes no block that the row of another live request names |
| `AlignRelay.ScheduleTracks` | ported-files/vllm/v1/worker/gpu/model_states/mamba_hybrid.py:160-207 | scheduling an idle slot makes preprocess, pre-copy and forward enabled one after the other and leaves the registers every rank computes for the row |
| `AlignRelay.SettleTracks` | ported-files/vllm/v1/worker/gpu/model_runner.py:1513-1541 | settling a pending result, at once or later, is one enabled Post event with the same registers and count |
| `AlignRelay.LastRankTracks` | ported-files/vllm/v1/worker/gpu/model_runner.py:1877-1996 | on the last rank a row is preprocess, pre-copy, forward and postprocess, ending with the rank's variables |
| `AlignRelay.UnsampledNeedsNoPost` | ported-files/vllm/v1/worker/gpu/model_runner.py:1874-1883 | for a chunk without a sample, which other ranks never settle, the postprocess would copy nothing and leave what the fill leaves |
| `AlignRelay.OneParked` | ported-files/vllm/v1/worker/gpu/pp_utils.py:107-139 | over every run of shaped and spaced steps at most one parked result of a slot is still valid |
| `Relay.MaskKeepsExactly` | ported-files/vllm/v1/worker/gpu/pp_utils.py:39-53 | the mask keeps a row if and only if its chunk reaches the end of the prompt and both the reported count and the prompt are more than one token short of the limit |
| `RelayAgreement.MaskSafeAtCall` | ported-files/vllm/v1/worker/gpu/pp_utils.py:39-53 | for the limit of the call: whatever the row and the sampler's answer, the mask drops only results that no later step needs if and only if it keeps the row of every request that has sampled and has more than one token to go |
| `RelayAgreement.MaskSafeExactly` | ported-files/vllm/v1/worker/gpu/pp_utils.py:39-53 | hence, for requests of every limit, if and only if the reported count of a request that has sampled is at most one ahead of its computed count |
| `RelayAgreement.DropsOnlyFinished` | ported-files/vllm/v1/worker/gpu/pp_utils.py:39-53 | a dropped row of a request that has not sampled, or that one more token takes to its limit, is the request's last on both kinds of rank |
| `RelayAgreement.DropsRunning` | ported-files/vllm/v1/worker/gpu/pp_utils.py:50-53 | with more than one token to go and a report at the limit, some row and sample make the mask drop a result of a request that goes on, and the ranks disagree |
| `RelayAgreement.OvershootDiverges` | ported-files/vllm/v1/worker/gpu/pp_utils.py:50-53 | drafts rejected two tokens before the limit: dropped, not finished, computed counts 11 and 14 |
| `Relay.Pad` | ported-files/vllm/v1/worker/gpu/pp_utils.py:224-241 | the sampled tokens first, -1 in the rest of the receivers' width |
| `RelayAgreement.RowAgrees` | ported-files/vllm/v1/worker/gpu/model_runner.py:1868-1883 | for one row, advancing optimistically and settling later equals settling at once in computed count, last token, drafts, column and accepted count |
| `RelayAgreement.ChangeAgrees` | ported-files/vllm/v1/worker/gpu/model_runner.py:1048-1064 | freeing or filling a slot keeps the ranks in agreement whatever is still parked for the previous occupant |
| `RelayAgreement.ConsumeAgrees` | ported-files/vllm/v1/worker/gpu/model_runner.py:1082-1099 | consuming the oldest entry keeps the ranks in agreement |
| `RelayAgreement.BatchAgrees` | ported-files/vllm/v1/worker/gpu/model_runner.py:1852-1883 | scheduling a batch keeps the ranks in agreement |
| `RelayAgreement.OpsMatch` | ported-files/vllm/v1/worker/gpu/pp_utils.py:165-186 | for one step, broadcasts and posted receives agree in number, order and element count |
| `RelayRuns.RunInStep` | ported-files/vllm/v1/worker/gpu/model_runner.py:1554-1561 | over every run of steps of the right shape, whatever the counts, limits, samples and rejections, both kinds of rank keep the same owners and generations, every parked row belongs to its admission, and the FIFO holds one entry per in-flight step |
| `RelayRuns.RunAgrees` | ported-files/vllm/v1/worker/gpu/model_runner.py:1554-1561 | over every run of steps, finishes, preemptions and re-adds that the scheduler may ask for, the last rank and another rank agree in their variables |
| `RelayRuns.ScheduledAlike` | ported-files/vllm/v1/worker/gpu/model_runner.py:1082-1099 | whenever a request is scheduled the other rank holds the last rank's computed count, accepted count, column, last token and drafts |
| `RelayRuns.NothingParked` | ported-files/vllm/v1/worker/gpu/pp_utils.py:57-59 | no scheduled request still has a parked result |
| `RelayRuns.ConsumedExactly` | ported-files/vllm/v1/worker/gpu/pp_utils.py:86-92 | over every run of shaped steps the queue has length pp_size and step T's entry is consumed at step T + pp_size |
| `RelayRuns.DeferredPostOwner` | ported-files/vllm/v1/worker/gpu/pp_utils.py:119-133 | over every run of shaped steps a result that survives the filter settles the very admission that produced it, never a later occupant of its slot; with spaced steps nothing rescheduled it in between |
| `RelayRuns.WiresMatch` | ported-files/vllm/v1/worker/gpu/pp_utils.py:141-272 | over every run of shaped steps the last rank's collectives and the posted receives are the same sequence |
| `PPHandlers.PPHandler.constructor` | ported-files/vllm/v1/worker/gpu/pp_utils.py:66-102 | the FIFO starts with pp_size empty entries on every rank but the last, generations at 0 |
| `PPHandlers.PPHandler.OnReqIdxFreed` | ported-files/vllm/v1/worker/gpu/pp_utils.py:104-105 | only the freed slot's generation changes |
| `PPHandlers.PPHandler.GetPrevSampledOutputs` | ported-files/vllm/v1/worker/gpu/pp_utils.py:107-139 | pops one entry and reserves one; None exactly when there is nothing valid; freed or unneeded rows are mapped to -1 |
| `PPHandlers.PPHandler.Receive` | ported-files/vllm/v1/worker/gpu/pp_utils.py:141-200 | writes this step's entry with the generations of this moment, posts the step's receives, and tells whether every row waits |
| `PPHandlers.PPHandler.Broadcast` | ported-files/vllm/v1/worker/gpu/pp_utils.py:202-247 | sends padded tokens and the two counts, or nothing when no row needs them |
| `PPHandlers.PPHandler.BroadcastDraft` | ported-files/vllm/v1/worker/gpu/pp_utils.py:249-272 | sends the drafts under the same condition |
| `PPHandlers.SendStep` | ported-files/vllm/v1/worker/gpu/pp_utils.py:202-272 | both sends of a step issue exactly the step's collectives |
| `ModelRunners.ModelRunner.UpdatePpDecodeRequests` | ported-files/vllm/v1/worker/gpu/model_runner.py:1082-1099 | consuming on the arrays is the relay model's consumption: settle, then scatter drafts, skipping -1 rows |
| `ModelRunners.ModelRunner.RemoveRequest` | ported-files/vllm/v1/worker/gpu/model_runner.py:1048-1064 | vacates the slot and bumps its generation |
| `ModelRunners.ModelRunner.AddRequest` | ported-files/vllm/v1/worker/gpu/model_states/mamba_hybrid.py:97-105 | seeds the slot of a new request |
| `ModelRunners.ModelRunner.UpdateRequests` | ported-files/vllm/v1/worker/gpu/model_runner.py:1068-1080 | removals and additions in order |
| `ModelRunners.ModelRunner.StepOtherRank` | ported-files/vllm/v1/worker/gpu/model_runner.py:1852-1887 | one whole step on the arrays of a rank that is not the last is the relay model's step |
| `ModelRunners.ModelRunner.StepLastRank` | ported-files/vllm/v1/worker/gpu/model_runner.py:1889-1996 | one whole step on the arrays of the last rank is the relay model's step |
| `RelayAgreement.DroppedResult` | ported-files/vllm/v1/worker/gpu/pp_utils.py:50-53 | what a dropped row costs: no broadcast on its own account, its entry never settled, the other rank's count ahead by the rejected tokens, its last token and drafts those of the step before; the ranks can agree only if nothing was rejected and token and drafts repeat |
| `RelayDrive.DeviceRunSafe` | ported-files/vllm/v1/worker/gpu/model_runner.py:1554-1636 | over every run, every deferred post, pre-copy, forward and fill of a rank that is not the last is enabled, stays inside its request's blocks, and leaves the rank's variables describing its device |
| `RelayDrive.ScheduledStateFound` | ported-files/vllm/v1/worker/gpu/model_runner.py:1620-1636 | whenever a request is scheduled, the device of such a rank holds its recurrent state after exactly the last rank's computed count, at the column the last rank's registers name |
| `RelayDrive.DeferredPostRequest` | ported-files/vllm/v1/worker/mamba_utils.py:362-368 | a deferred post acts on the row of the request whose result it carries |
| `RelayDrive.DeferredPostsPrivate` | ported-files/vllm/v1/worker/mamba_utils.py:362-389 | the deferred posts of a step leave the blocks of every request they do not settle as they were |
| `LastDrive.LastRunSafe` | ported-files/vllm/v1/worker/gpu/model_runner.py:1889-1996 | over every run of the last rank by itself, whatever counts and limits the rows report, whatever the mask drops and however soon a request is scheduled again: every pre-copy, forward and postprocess is enabled, stays inside its request's blocks, leaves every request between two steps, and leaves the rank's variables describing its device |
| `LastDrive.LastBatchDriven` | ported-files/vllm/v1/worker/gpu/model_runner.py:1977-1996 | a whole batch of rows of occupied slots settles every row on the last rank at once and keeps rank and device in step |
| `LastDrive.ShapedLast` | ported-files/vllm/v1/worker/gpu/model_runner.py:1889-1996 | the last rank of every shaped run of a pair, so of every legal one, takes the steps that `LastRunSafe` is about |
| `RelayDrive.AllocDriven` | ported-files/vllm/v1/worker/gpu/model_runner.py:1048-1140 | finishes, preemptions, re-adds and allocator moves in any mix keep rank and device in step |
| `RelayDrive.BatchDriven` | ported-files/vllm/v1/worker/gpu/model_runner.py:1868-1883 | a whole batch keeps rank and device in step |
| `Kpool.KpoolCache.CompressInsert` | ported-files/vllm/model_executor/layers/sparse_attn_indexer_kpool.py:155-200 | the prefill insert in place: a cache slot gets the compression of the kpool tokens that end at its row, all others keep their entry |
| `Kpool.KpoolCache.SeedTail` | ported-files/vllm/models/glm5next/nvidia/ops/kpool_compress.py:459-496 | the prefill seed in place: a token is stored unless the token kpool ahead has the same tail block |
| `Kpool.KpoolCache.DecodeUpdate` | ported-files/vllm/models/glm5next/nvidia/ops/kpool_compress.py:542-711 | the decode kernel in place, request by request and token by token: completion read first, stash second |
| `Kpool.InsertNothing` | ported-files/vllm/model_executor/layers/sparse_attn_indexer_kpool.py:176-180 | a batch shorter than one pool inserts nothing |
| `KpoolRuns.PrefillNewPool` | ported-files/vllm/model_executor/layers/sparse_attn_indexer_kpool.py:165-200 | a pool completed by a pool-aligned chunk is compressed from precisely its own tokens |
| `KpoolRuns.PrefillRing` | ported-files/vllm/models/glm5next/nvidia/ops/kpool_compress.py:471-496 | after a chunk the tail ring holds the incomplete pool at pos % kpool |
| `KpoolRuns.PrefillKeepsSlot` | ported-files/vllm/model_executor/layers/sparse_attn_indexer_kpool.py:182-200 | a chunk writes no cache slot of older pools |
| `KpoolRuns.PrefillKeepsTail` | ported-files/vllm/models/glm5next/nvidia/ops/kpool_compress.py:471-496 | a chunk writes no tail block but its own |
| `KpoolDecode.PoolReadRight` | ported-files/vllm/models/glm5next/nvidia/ops/kpool_compress.py:622-666 | the pool read back at a completion is the pool's own kpool tokens |
| `KpoolDecode.DecodeTokenStep` | ported-files/vllm/models/glm5next/nvidia/ops/kpool_compress.py:584-710 | each verify token keeps the ring and the completed pools right for one position more |
| `KpoolDecode.DecodePools` | ported-files/vllm/models/glm5next/nvidia/ops/kpool_compress.py:580-710 | after a decode row every complete pool of the accepted prefix is compressed from its own tokens, for any row length |
| `KpoolDecode.DecodeRing` | ported-files/vllm/models/glm5next/nvidia/ops/kpool_compress.py:696-710 | after a decode row the ring holds the accepted prefix's incomplete pool, when the rollback stays in the newest pool |
| `KpoolDecode.VerifySafeExactly` | ported-files/vllm/models/glm5next/nvidia/ops/kpool_compress.py:580-710 | before the call: with h tokens of history and m verify tokens, pairwise different, every acceptance leaves the ring right if and only if kpool is 1, or h % kpool + m <= kpool, or h % kpool is kpool - 1 and m <= kpool + 1 |
| `KpoolDecode.RollbackWitness` | ported-files/vllm/models/glm5next/nvidia/ops/kpool_compress.py:696-710 | pools of 4, history 2, four tokens verified, one kept: the ring is wrong and the next token caches a pool of two rejected tokens |
| `KpoolDecode.RollbackExactly` | ported-files/vllm/models/glm5next/nvidia/ops/kpool_compress.py:696-710 | for pairwise different tokens, the ring holds the kept tokens' incomplete pool after a rollback if and only if the kept count is a whole number of pools or no token was stashed beyond its pool |
| `KpoolDecode.RollbackBreaks` | ported-files/vllm/models/glm5next/nvidia/ops/kpool_compress.py:696-710 | a rollback past that guard leaves the first entry of the incomplete pool wrong |
| `KpoolDecode.DecodeKeeps` | ported-files/vllm/models/glm5next/nvidia/ops/kpool_compress.py:580-710 | a decode row writes no cache slot and no tail block of another request |
| `KpoolDecode.PaddingHarmless` | ported-files/vllm/models/glm5next/nvidia/ops/kpool_compress.py:594-609 | padding rows of the decode grid write nothing |
| `KpoolGrid.DecodeAnyOrder` | ported-files/vllm/models/glm5next/nvidia/ops/kpool_compress.py:565-580 | rows that touch different tail blocks and cache slots leave the same store in every order |
| `KpoolGrid.LaunchAnyOrder` | ported-files/vllm/models/glm5next/nvidia/ops/kpool_compress.py:565-580 | so one decode launch over live requests, padded rows included, leaves the same store in every order of its programs |
| `KpoolGrid.DecodeLaunchIsEach` | ported-files/vllm/models/glm5next/nvidia/ops/kpool_compress.py:542-711 | and the launch over the padded grid does what the requests' rows do one by one |
| `KpoolSafety.AdmitKeeps` | ported-files/vllm/model_executor/layers/sparse_attn_indexer_kpool.py:155-200 | a request admitted over cached pools finds them right and shares no slot that anyone may write |
| `KpoolSafety.ExtendKeeps` | ported-files/vllm/v1/worker/gpu/model_runner.py:1159-1171 | a live request grows by unused slots, which a departed request may have left, and everyone's pools stay right |
| `KpoolSafety.PublishKeeps` | ported-files/vllm/model_executor/layers/sparse_attn_indexer_kpool.py:155-200 | a complete pool is never written again, so caching it for others is safe |
| `KpoolSafety.EventKeeps` | ported-files/vllm/model_executor/layers/sparse_attn_indexer_kpool.py:155-200 | every event keeps every request's pools and ring, and every cached pool, right |
| `KpoolSafety.PoolsAlwaysRight` | ported-files/vllm/models/glm5next/nvidia/ops/kpool_compress.py:580-711 | in every run of admissions, growth, aligned prefill chunks, decode steps, caching, eviction and departures, with slots passing between requests, every complete pool's entry is the compression of its tokens and the ring holds the incomplete pool |
| `KpoolBatch.PrefillLaunchIsEach` | ported-files/vllm/models/glm5next/nvidia/ops/kpool_compress.py:499-540 | one prefill launch over the concatenated chunks does what the chunks do request by request |
| `KpoolBatch.RequestOfPadding` | ported-files/vllm/v1/attention/backends/mla/indexer.py:562-573 | tokens in front of the first request are mapped to it, and padding behind the last one to the last |
| `KpoolBatch.TailSlotOfToken` | ported-files/vllm/v1/attention/backends/mla/indexer.py:562-573 | every token of request r is mapped into r's own tail block, also with empty requests in the batch |
| `KpoolLaunch.PutAnyOrder` | ported-files/vllm/models/glm5next/nvidia/ops/kpool_compress.py:459-496 | programs that write different places leave the same buffer in every order |
| `KpoolLaunch.InsertsDiffer` | ported-files/vllm/model_executor/layers/sparse_attn_indexer_kpool.py:176-200 | no two programs of a prefill insert over live requests write the same cache slot |
| `KpoolLaunch.SeedsDiffer` | ported-files/vllm/models/glm5next/nvidia/ops/kpool_compress.py:471-496 | no two programs of a prefill seed over live requests write the same ring entry: of two tokens with the same entry the earlier is left out |
| `KpoolLaunch.PrefillAnyOrder` | ported-files/vllm/models/glm5next/nvidia/ops/kpool_compress.py:499-540 | both prefill kernels over the chunks of live requests, their programs in any orders, do what the chunks do one by one |
| `KpoolLaunch.PrefillGridIsRun` | ported-files/vllm/models/glm5next/nvidia/ops/kpool_compress.py:499-540 | a prefill launch over live requests, its programs in any orders, is the list of their enabled prefill events, and the invariant holds after it |
| `KpoolLaunch.DecodeGridIsRun` | ported-files/vllm/models/glm5next/nvidia/ops/kpool_compress.py:542-711 | a decode launch over live requests, padded rows included and its programs in any order, is the list of their enabled decode events whatever is kept of each row, and the invariant holds after it |
| `PipelineSplit.PartsOfConcat` | ported-files/vllm/models/glm5next/nvidia/model.py:680-687 | cutting a flattened row into equal parts gives the parts back |
| `PipelineSplit.UnflattenFlatten` | ported-files/vllm/models/glm5next/nvidia/model.py:675-745 | unflattening what a stage flattened gives the streams back |
| `PipelineSplit.LayerStep` | ported-files/vllm/models/glm5next/nvidia/model.py:407-512 | one layer with deferred post-mix keeps the deferred state representing the unfused streams |
| `PipelineSplit.StageStep` | ported-files/vllm/models/glm5next/nvidia/model.py:701-747 | a stage takes the wire format of its first cut to the wire format of its last |
| `PipelineSplit.PipelineIsReference` | ported-files/vllm/models/glm5next/nvidia/model.py:693-747 | for every partition of the layers into non-empty stages the pipeline gives the unfused layer-by-layer result |
| `PipelineSplit.SplitsAgree` | ported-files/vllm/models/glm5next/nvidia/model.py:693-747 | any two partitions, in particular none, give the same output |
| `PipelineSplit.RunLayers` | ported-files/vllm/models/glm5next/nvidia/model.py:718-733 | the loop over a rank's layers computes the stage function |
| `SparseAttention.ComputeTile` | ported-files/vllm/v1/attention/ops/triton_mla_sparse_kernel.py:100-160 | the online loop's accumulators are the lanes' weight and weighted value divided by exp2 of the running maximum, which bounds every score |
| `SparseAttention.FinalKernel` | ported-files/vllm/v1/attention/ops/triton_mla_sparse_kernel.py:165-233 | the single pass outputs the direct weighted sum over the direct weight, masked lanes weighing exp2(NEG_LARGE); 0 when there is no lane |
| `SparseAttention.SplitKernel` | ported-files/vllm/v1/attention/ops/triton_mla_sparse_kernel.py:279-332 | a split stores its slice's ratio and log-sum-exp, 0 and minus infinity for an empty slice, and touches only its own entry |
| `SparseAttention.MergeKernel` | ported-files/vllm/v1/attention/ops/triton_mla_sparse_kernel.py:369-407 | the merge outputs the weight-blended partials |
| `SparseAttention.Attention` | ported-files/vllm/v1/attention/ops/triton_mla_sparse_kernel.py:430-480 | for every split count and block size the launch outputs the direct form with its number of padded lanes |
| `SparseAttention.SplitAgreesExactly` | ported-files/vllm/v1/attention/ops/triton_mla_sparse_kernel.py:279-281 | splitting gives the single pass's result if and only if both pad the same number of lanes, or the numerator is 0 |
| `SparseAttention.SplitDisagrees` | ported-files/vllm/v1/attention/ops/triton_mla_sparse_kernel.py:279-281 | 272 indices, two splits, tiles of 32 against 16: 48 padded lanes against none, and different outputs unless the numerator is 0 |
| `SparseAttention.EvenSplitsAgree` | ported-files/vllm/v1/attention/ops/triton_mla_sparse_kernel.py:279-281 | with a split count that divides topk and slices that are whole tiles, splitting equals the single pass |
| `SparseAttention.SoftmaxExactly` | ported-files/vllm/v1/attention/ops/triton_mla_sparse_kernel.py:134-135 | the output is the softmax over the attended indices if and only if no lane is masked or padded, or the numerator is 0 |
| `SparseAttention.NearSoftmax` | ported-files/vllm/v1/attention/ops/triton_mla_sparse_kernel.py:100-143 | when some attended score is at least k - 10^30, the output differs from the softmax over the attended indices by at most n / 2^k of it, n masked or padded lanes |
| `SparseAttention.MaskedWeight` | ported-files/vllm/v1/attention/ops/triton_mla_sparse_kernel.py:103-143 | the output times the attended weight plus n times exp2(-10^30) is the attended weighted sum: what each masked or padded lane adds |
| `SparseAttention.NothingAttended` | ported-files/vllm/v1/attention/ops/triton_mla_sparse_kernel.py:223-233 | a row without a valid index outputs 0 |
| `SparseAttention.SplitPadsZero` | ported-files/vllm/v1/attention/ops/triton_mla_sparse_kernel.py:103-105 | no lane is padded if and only if every non-empty slice is whole tiles |
| `SparseAttention.ChooseNumKvSplits` | ported-files/vllm/v1/attention/ops/triton_mla_sparse_kernel.py:411-427 | the chosen count is the largest power of two q that divides topk with q = 1, or q < 2 * (topk / 128) and q * tokens * head groups <= SMs; 1 when four times the grid already fills the device |
| `Hadamard.StagesAreMatrix` | ported-files/vllm/models/glm5next/nvidia/ops/kpool_compress.py:35-67 | the butterfly stages of strides 1, 2, ..., n/2 are the product with the doubled Hadamard matrix, for every n = 2^k |
| `Hadamard.FlatIsRowByRow` | ported-files/vllm/models/glm5next/nvidia/ops/kpool_compress.py:71-119 | the flat multi-row stages transform every row by itself |
| `Hadamard.TorchMatrix` | ported-files/vllm/models/glm5next/nvidia/ops/kpool_compress.py:63-65 | the doubling loop builds that matrix |
| `Hadamard.MatrixEntry` | ported-files/vllm/models/glm5next/nvidia/ops/kpool_compress.py:63-65 | entry (i, j) of that matrix is 1 or -1 by the parity of the bits that i and j have in common |
| `Hadamard.TwiceIsScale` | ported-files/vllm/models/glm5next/nvidia/ops/kpool_compress.py:45-53 | the unscaled transform applied twice multiplies by n |
| `Hadamard.RotateEntry` | ported-files/vllm/models/glm5next/nvidia/ops/kpool_compress.py:45-54 | entry j of the rotation is the scale times the product with column j of the matrix |
| `Hadamard.RotateTwice` | ported-files/vllm/models/glm5next/nvidia/ops/kpool_compress.py:45-54 | with scale 1/sqrt(n) the rotation is its own inverse |
| `PrefillChunks.SplitIndexerPrefillChunks` | ported-files/vllm/v1/attention/backends/mla/indexer.py:81-127 | the greedy loops terminate and build the chunk list of the specification |
| `PrefillChunks.RowInOneChunk` | ported-files/vllm/v1/attention/backends/mla/indexer.py:98-127 | every query row of every request is scored by exactly one chunk |
| `PrefillChunks.ChunksBounded` | ported-files/vllm/v1/attention/backends/mla/indexer.py:106-125 | rows times keys times 4 of every chunk are within the logits bytes unless it has one query row, and its keys within the workspace unless it holds one request; only lone requests are cut, and a slice that leaves rows to the next has no room for one more |
| `PrefillChunks.ChunksInOrder` | ported-files/vllm/v1/attention/backends/mla/indexer.py:1139-1158 | chunks are in request order, and a slice that skips the gather directly follows the previous slice of the same requests |
| `PrefillChunks.GroupFits` | ported-files/vllm/v1/attention/backends/mla/indexer.py:106-113 | a group fits both budgets and no further request would |
| `PrefillChunks.GroupMaximal` | ported-files/vllm/v1/attention/backends/mla/indexer.py:89-113 | in bytes: a second request joins a group only within both budgets, and the request after the group would break one |
| `PrefillMetadata.Program` | ported-files/vllm/v1/attention/backends/mla/indexer.py:291-361 | one program writes the rows and gathered entries of its request and nothing else |
| `PrefillMetadata.BuildPrefillChunkMetadata` | ported-files/vllm/v1/attention/backends/mla/indexer.py:1348-1440 | one launch writes every row of the slice and names the request of every gathered entry |
| `PrefillMetadata.RowInsideRequest` | ported-files/vllm/v1/attention/backends/mla/indexer.py:324-354 | every row belongs to one request and its [ks, ke) lies inside the entries gathered for that request |
| `PrefillMetadata.RowCountsVisible` | ported-files/vllm/v1/attention/backends/mla/indexer.py:339-356 | a query row scores exactly as many entries as this rank keeps of those compressed from tokens up to and including its own |
| `PrefillMetadata.GatheredIsVisible` | ported-files/vllm/v1/attention/backends/mla/indexer.py:318-356 | a request's gathered entries are those of its whole context on this rank, and its last query row sees them all |
| `PrefillMetadata.AllEntries` | ported-files/vllm/v1/attention/backends/mla/indexer.py:291-361 | over all ranks a request has exactly the entries whose tokens are all in its context |
| `ContextParallel.LocalLenCounts` | ported-files/vllm/v1/attention/backends/mla/indexer.py:341-350 | the per-rank local length counts exactly the owned positions of the prefix |
| `ContextParallel.LocalLensSum` | ported-files/vllm/v1/attention/backends/mla/indexer.py:341-350 | the kernel's local lengths of all ranks sum to the global length |
| `ContextParallel.LocalPrefix` | ported-files/vllm/v1/attention/backends/mla/indexer.py:337-350 | a local index is below the local length if and only if its global token is in the prefix |
| `ContextParallel.GlobalIdOrder` | ported-files/vllm/model_executor/layers/sparse_attn_indexer.py:79-98 | local and global ids order a shard alike |
| `DistributedTopK.MergeIsGlobal` | ported-files/vllm/model_executor/layers/sparse_attn_indexer.py:88-98 | for any sharding into any number of ranks the top k of the union of local top ks is the top k of the whole |
| `DistributedTopK.PackedTopK` | ported-files/vllm/model_executor/layers/sparse_attn_indexer.py:115-126 | selecting by local index and converting to global ids is selecting by global ids |
| `DistributedTopK.MergeDcpTopK` | ported-files/vllm/model_executor/layers/sparse_attn_indexer.py:79-129 | each rank selects its top k by local index and packs it with global ids; the top k of what all ranks send is the global top k of the row, and has exactly min(k, length) candidates |
| `DistributedTopK.MergedKeepsHighest` | ported-files/vllm/model_executor/layers/sparse_attn_indexer.py:88-129 | every token of the merged selection scores at least as high as every token left out, and has the lower id where they score alike |
| `DistributedTopK.OnlyHighest` | ported-files/vllm/model_executor/layers/sparse_attn_indexer.py:88-129 | and the selection is the only set of min(k, length) tokens of the row with that property |
| `DecodeLayout.ScatterDecodeTokens` | ported-files/vllm/model_executor/layers/sparse_attn_indexer_kpool.py:235-259 | flat token offset_b + t lands at (b, t) and every other cell is padding |
| `DecodeLayout.ScatterAt` | ported-files/vllm/model_executor/layers/sparse_attn_indexer_kpool.py:203-232 | the shared indices send flat token offset_b + t to (b, t) |
| `DecodeLayout.UnpackScatter` | ported-files/vllm/model_executor/layers/sparse_attn_indexer_kpool.py:235-259 | reading the grid back in request order undoes the scatter |
| `DecodeLayout.TopkLenIs` | ported-files/vllm/model_executor/layers/sparse_attn_indexer_kpool.py:262-296 | a real row has its own token's position plus one, a padded row 0; the shortcut has the position of the flat token of the row's number plus one |
| `DecodeLayout.TopkLensAlike` | ported-files/vllm/model_executor/layers/sparse_attn_indexer_kpool.py:262-296 | on a uniform batch the shortcut and the layout scattered with -1 give every row the same length |
| `DecodeLayout.ShortcutExactly` | ported-files/vllm/model_executor/layers/sparse_attn_indexer_kpool.py:271-296 | the shortcut has the rows and lengths of the padded layout if and only if the batch is uniform |
| `DecodeLayout.ShortcutAligned` | ported-files/vllm/model_executor/layers/sparse_attn_indexer_kpool.py:271-281 | the shortcut reads a row's own token if and only if every request before it is full |
| `DecodeLayout.VariableAt` | ported-files/vllm/v1/attention/backends/mla/indexer.py:923-957 | on the variable path each flat token sees its request's context up to itself through its request's table row |
| `DecodeLayout.UniformDecode` | ported-files/vllm/v1/attention/backends/mla/indexer.py:47-78 | the uniform kernel gives the variable path's lengths and rows for every uniform batch |
| `MqaLogits.OneHeadScore` | ported-files/vllm/v1/attention/ops/mqa_logits_triton.py:330-340 | a query with one head scores product times scale times weight when product times scale is positive, and 0 otherwise |
| `MqaLogits.JoinedScore` | ported-files/vllm/v1/attention/ops/mqa_logits_triton.py:339-340 | the heads of two queries score the sum of the two scores |
| `MqaLogits.IdleHead` | ported-files/vllm/v1/attention/ops/mqa_logits_triton.py:339-340 | a head whose scaled product is not positive may be left out, wherever it stands |
| `MqaLogits.ScoreNonNegative` | ported-files/vllm/v1/attention/ops/mqa_logits_triton.py:339-340 | without negative weights no score is negative |
| `MqaLogits.ProductLinear` | ported-files/vllm/v1/attention/ops/mqa_logits_triton.py:331 | the product of head and key is linear in the head |
| `MqaLogits.ProductUnit` | ported-files/vllm/v1/attention/ops/mqa_logits_triton.py:331 | and with a unit vector it is that coordinate of the key |
| `MqaLogits.ContiguousLogits` | ported-files/vllm/v1/attention/ops/mqa_logits_triton.py:265-349 | the early-exit tiles write score or minus infinity to every column, for every tile size |
| `MqaLogits.TorchLogits` | ported-files/vllm/model_executor/layers/sparse_attn_indexer_kpool.py:80-98 | the chunked form writes the same, for every chunk size |
| `MqaLogits.GatherK` | ported-files/vllm/model_executor/layers/sparse_attn_indexer_kpool.py:100-131 | the gather lays the requests' contexts one after the other, each entry read through the block table |
| `MqaLogits.PagedLogits` | ported-files/vllm/v1/attention/ops/mqa_logits_triton.py:61-159 | the paged kernel scores every token against its context through the block table and leaves the other columns |
| `MqaLogits.PagedIsContiguous` | ported-files/vllm/v1/attention/ops/mqa_logits_triton.py:93-159 | paged scoring equals gathering by the same table and scoring [ks, ke) |
| `PoolExpansion.ExpandAndAppend` | ported-files/vllm/models/glm5next/nvidia/ops/kpool_compress.py:937-1009 | the fused kernel over rows and column tiles equals expand-then-append on every row |
| `PoolExpansion.FusedIsReference` | ported-files/vllm/models/glm5next/nvidia/ops/kpool_compress.py:831-933 | column by column the fused entry is the entry of the two-step form |
| `PoolExpansion.EmittedTokens` | ported-files/vllm/models/glm5next/nvidia/ops/kpool_compress.py:955-975 | the attended tokens are exactly those of the selected pools and the whole tail |
| `PoolExpansion.DistinctTokens` | ported-files/vllm/models/glm5next/nvidia/ops/kpool_compress.py:955-975 | distinct complete pools give distinct tokens below the sequence length |
| `PoolExpansion.ShortRowOnce` | ported-files/vllm/model_executor/layers/sparse_attn_indexer_kpool.py:581-592 | the short path's row holds every token up to pos that fits, once, and -1 otherwise |
| `PoolExpansion.ShortPrefillAlike` | ported-files/vllm/model_executor/layers/sparse_attn_indexer_kpool.py:552-592 | when the budget covers all pools the selection path and the short-prefill path attend to the same tokens {0..pos} |
| `TiledCopy.CopyTile` | ported-files/vllm/v1/worker/mamba_utils.py:34-113 | one tile copies exactly the bytes it owns; wide accesses are 8-aligned on both sides |
| `TiledCopy.CopyWord` | ported-files/vllm/v1/worker/mamba_utils.py:82-95 | an 8-byte access is made only at 8-aligned addresses |
| `TiledCopy.ByteInOneTile` | ported-files/vllm/v1/worker/mamba_utils.py:55-113 | each destination byte is owned by exactly one tile, for every address pair, size, tile count and block size |
| `TiledCopy.PerTileLeast` | ported-files/vllm/v1/worker/mamba_utils.py:74-108 | the units per tile are the fewest whole vectors that let all tiles together cover the copy |
| `AlignTiles.TileIsProgram` | ported-files/vllm/v1/worker/mamba_utils.py:34-113 | on bytes, one tile of a row's memory copy is one program of the grid, with the tile that writes a byte as its owner |
| `AlignTiles.CopyTemporal` | ported-files/vllm/v1/worker/mamba_utils.py:303-325 | a launch on the bytes of a temporal state, each program running its tile of its row's memory copy, leaves the rows' whole moves for every order of the programs and touches no other byte |
| `TiledCopy.CopyTiled` | ported-files/vllm/v1/worker/mamba_utils.py:55-113 | running all tiles in any order copies the block and touches nothing else, also onto itself |
| `RepetitionDetector.FindLoop` | tools/detect.py:11-28 | the loops terminate and return the report of the specification |
| `RepetitionDetector.ReportSound` | tools/detect.py:11-28 | what is reported is an allowed unit that occurs that often in a row, at least min_reps times, or nothing |
| `RepetitionDetector.ReportIsFirst` | tools/detect.py:11-28 | of the runs counted, shorter units first and then from left to right, the report is the first with the largest count that reaches min_reps, or nothing when none does |
| `RepetitionDetector.ScanCountsExactly` | tools/detect.py:15-27 | for every single run: the scan for its unit size counts it r times in every text if and only if the run has at least r * size + size - 1 characters |
| `RepetitionDetector.ReportCountsExactly` | tools/detect.py:11-28 | every run of a width and length is reported at least r times, in every text, if and only if it has at least r units and all but one character of another; r units suffice if and only if the run opens the text or a line |
| `RepetitionDetector.ReportComplete` | tools/detect.py:15-27 | so R >= min_reps + 1 copies of an allowed unit are reported as at least R - 1, and as at least R when the run opens the text or a line |
| `RepetitionDetector.RunMissed` | tools/detect.py:15-27 | the shortest case: two copies of ab after an x are reported clean |

## Left out

- Tensor layout of states: conv blocks are windows of inputs, without the dim-first layout or its strides.
- Warp-level races inside one overlapping in-block conv shift: one program's copy is atomic.
- Model runner beyond slot bookkeeping and step order: CUDA graphs, streams, LoRA, encoder cache, pooling.
- Block tables: rows are indexed by slot; staged writes and the gathered per-step views are not modelled.
- `all_token_ids`, `total_len` and penalty counts that `post_update` also writes.
- FP8 and FP4 encodings, quantisation scales, bf16 rounding and page byte layout.
- External top-K selectors, the gather and pack kernels of the distributed merge, `unpack_seq_triton`,
  `get_compressed_slot_mapping`: represented by what their callers rely on.
- PrefillMetadata.BuildPrefillChunkMetadata: the host-side maximum over ranks and the early return for an
  empty total are not modelled.
- MqaLogits.PagedLogits: the buffer is passed in, so the optional minus-infinity pre-fill is the caller's.
- SparseAttention.Attention: one query, head and value lane at a time; head masking and the tiling of the
  value lanes by the merge grid are not modelled.
- SparseAttention.ChooseNumKvSplits: the per-split minimum of 128 is a cap rounded up to a power of two, as in
  the code, not a guarantee.
- Evaluation, benchmark and log-scraping tools; weight loading; registries and wrappers.
