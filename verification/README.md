# Verified models of the GPU media and inference backends

Dafny models of the parts of the repository that guard a GPU or must agree with a simple
mathematical definition, and proofs about them.  `dafny verify dfyconfig.toml` checks
everything.

| module | what it models |
|---|---|
| `RequestSearch`, `PleConvSpec`, `PleConvRuns`, `PleConv` | the short-convolution kernels with their rolling state windows: prefill, decode and speculative chunks with rollback, in-place shifts, and the fixed-iteration search for a token's request |
| `Words`, `NgramIds`, `NgramCpu` | the n-gram hash kernel, its CPU counterpart with the packing of requests into rows, and both against the whole sequence |
| `OnlineSoftmax` | the blockwise attention kernel against direct softmax attention |
| `SingleFlightSlot`, `SingleFlight` | the single-flight media runner over an unreliable backend |
| `WarmWorker`, `WarmWorkerObject` | the warm video worker, its idle reaper and per-request runs |
| `OverlayStack`, `OverlayPack` | the composed and the single-pack overlay installer, with crashes |
| `Xgrammar`, `StopGuard` | the installed grammar wrapper and streaming stop guard |
| `ShardedTable`, `ShardedGather`, `ShardedWorkers` | the shard checks and the concurrent row gather of the memory-mapped table |
| `AudioLease`, `AudioStream` | the busy lease and the bounded stream of the audio server |
| `ByteCodes`, `WavFile`, `FlacFile` | the RIFF/WAVE and FLAC metadata walkers |
| `DrafterLayout` | the KV-cache layout of the drafter layers |
| `Graphs`, `WorkflowBuilders` | workflow graphs, the two-stage video lane and the back-patched edit lane |
| `Options`, `Arithmetic` | helpers |

## How it is modelled

**Kernels.**  One channel; sums over reals, hashes over integers modulo 2^64.  A kernel is a
method over arrays with the source's loops; its programs run one after the other, and its
contract describes every program's effect from the state at entry, so their order does not
show.  SiLU is any function; the exponential is any positive function that turns sums into
products.

**Concurrent parts.**  The media runner, the warm worker, the audio lease and the audio stream
are step systems.  A step is the code one task runs between two awaits (or one move of a
thread, a callback, a process or the server), a run is any list of steps, and results hold in
every reachable state.  Timeouts are steps that may happen at any poll.  The objects whose
fields these steps change are also modelled as classes, each method proved to be its step.

**The media server** may accept a lost submit arbitrarily late or drop it, answers 4xx only for
a prompt it never queued, echoes our own id only for a prompt it accepted, shows a terminal
history entry exactly while it keeps one, and keeps it until our own delete.  A history read
may also fail, or yield a reply the runner cannot read: a body that is not an object, an entry
whose status is neither an object nor empty, or a message list that is no list.

**Installers.**  Files are a map from paths to bytes; the digest is any function of the bytes, so
nothing rests on the absence of collisions.  The files may change between validation and
re-check, and the process may die between any two writes, or inside one.

**Grammar wrapper.**  A grammar is any pair of predicates on token sequences: the last token is
allowed, the matcher has terminated.

## What turned out not to hold

Each is stated with the exact condition under which the property does hold, and a concrete
case.

- A prefill or decode launch after a draft reads the draft's first token only, however many were
  kept, because only draft launches roll back (`PleConvRuns.PlainAfterDraft`,
  `PleConvRuns.DecodeAfterDraftMisses`).  Runs are right exactly when every launch reads tokens that
  end as the committed ones do (`PleConvRuns.RunIsRightIff`); for that switch, whatever the tokens,
  when exactly one was kept (`PleConvRuns.PlainAfterDraftIsSafeIff`).  A draft on an unused slot is
  right exactly when the cells it reads are zero (`PleConvRuns.DraftOnUnusedSlotIsRightIff`).
- The media runner's slot is lost exactly when a task that polls history dies of a reply it
  cannot read (`SingleFlight.SlotLostExactlyAfterCrash`, `SingleFlight.DiesIff`,
  `SingleFlight.NoLostSlot`).  A body that is not an object, or an entry status that is neither an
  object nor empty, does so to the foreground and to the reaper
  (`SingleFlight.BrokenReplyLosesSlot`, `SingleFlight.BrokenReplyKillsReaper`); messages that cannot
  be iterated do so to the foreground, on a terminal success (`SingleFlight.BadMessagesLoseSlot`).
  A targeted cancellation survives all of them.
- The slot can never be freed again after our own cancellation removed a still pending prompt,
  which leaves no history entry to prove it ended (`SingleFlight.SlotCanBeFreedIff`,
  `SingleFlight.CancelledPendingJobIsNeverFreed`).
- Two process groups can be alive after a request was cancelled again while it waited for a kill
  that its first cancellations were shielded from (`WarmWorker.AbortsIff`,
  `WarmWorker.DoubleCancelLeavesTwoLive`).  Without such a cancellation they never are
  (`WarmWorker.OneLiveProcess`), and after one they can be exactly as long as the group whose
  killing task it stopped is alive (`WarmWorker.TwoLiveAheadIff`).
- An idle worker stays until the next request exactly when its reaper woke while the request that
  scheduled it still held the lock, and gave up (`WarmWorker.NeglectedIff`,
  `WarmWorker.NeglectLasts`, `WarmWorker.NeglectedIsReachable`).
- The composed installer and sequential application differ when a manifest names a target twice
  and one entry writes it back (`OverlayPack.StackIsSequentialIff`), and a write torn by a crash
  is not repaired by a restart unless the torn bytes happen to be accepted
  (`OverlayStack.TornWrite`, `OverlayStack.TornStaysTorn`).
- The stop guard misses a marker exactly when at every check each occurrence in the text so far
  ends at or before that check's offset (`StopGuard.ClosedIffSeen`, `StopGuard.LostMarker`).
- A last shard longer than the others passes the constructor's checks but not the addressing
  (`ShardedTable.FlatIndexingIff`, `ShardedTable.LongLastShardIsAccepted`), and a negative chunk
  size gathers nothing (`ShardedGather.GatherCpu`).
- A transcription that fails between admission and submission keeps the audio lease for good
  (`AudioLease.StrandsIff`).  The one way left for it to fail there is an executor that refuses
  the job, since the route sees a loaded model and an accepted file name first; from any idle
  state that strands the lease (`AudioLease.RefusedSubmissionStrands`).
- A streamed response dropped before its body is first read keeps its worker when its items do
  not fit the queue (`AudioStream.JobCanReturnIff`, `AudioStream.DroppedAtOnce`).
- A FLAC file cut one byte short of its packed fields is accepted with a wrong sample rate when
  the right one is at least 256 Hz, and cut two bytes short when it is at least 65536 Hz; every
  other cut of that block is refused or harmless (`FlacFile.CutStreamInfo`, `FlacFile.CutFile`,
  `FlacFile.CutStreamInfoMisread`).
- The drafter layout's design text promises stand-alone tensors for more drafter layers than MLA
  tensors, and an exact fit of 656 against 4096 bytes per token from some block on; the code
  refuses the first and never does the second (`DrafterLayout.BuiltAcceptedIff`,
  `DrafterLayout.DeployedGeometryNeverFits`).  The models follow the code.

## Model

| member | source | states |
|---|---|---|
| RequestSearch.LocateRequest | backends/qwen38-vllm/nvidia-8a728663/overlays/ops_ple.py:367-376 | for any nondecreasing boundaries and any number of steps at least the bit length of the request count, the unguarded halving ends at the last request that starts at or before the token: the one whose non-empty range holds it, or the last request for a token past the end; further steps change nothing |
| RequestSearch.OwnerIsUnique | backends/qwen38-vllm/nvidia-8a728663/overlays/ops_ple.py:51-63 | a token lies in the range of one request only |
| PleConvSpec.WholeConvIsCausal | backends/qwen38-vllm/nvidia-8a728663/overlays/ops_ple.py:406-434 | later tokens never change an output of the whole-sequence convolution |
| PleConvSpec.SlotOffset | backends/qwen38-vllm/nvidia-8a728663/overlays/ops_ple.py:381-388 | the rollback offset is in the draft window; for 1 to SPEC_QUERY_LEN accepted tokens it is one less than their number |
| PleConvSpec.ChunkOutput | backends/qwen38-vllm/nvidia-8a728663/overlays/ops_ple.py:409-434 | on a window that remembers the sequence so far (or an untouched one at its start) every output of a chunk is the whole-sequence convolution |
| PleConvSpec.ChunkState | backends/qwen38-vllm/nvidia-8a728663/overlays/ops_ple.py:514-558 | after a chunk the window, read one cell further on per kept token of a draft, is the zero-padded end of the sequence with the kept tokens, for every accepted prefix of a speculative chunk |
| PleConvRuns.RunComputesWhatItReads | backends/qwen38-vllm/nvidia-8a728663/overlays/ops_ple.py:372-434 | what any run computes, whatever mode follows whatever and from any window: every output is the convolution of the tokens its launch reads and its chunk; a plain launch reads the window from its start, where a draft leaves its first token only, a draft reads it from the rollback offset |
| PleConvRuns.RunIsRightIff | backends/qwen38-vllm/nvidia-8a728663/overlays/ops_ple.py:372-434 | such a run computes the convolution of the committed tokens with every filter of that state length if and only if every launch reads tokens that end as the committed ones do |
| PleConvRuns.RunIsWholeSequence | backends/qwen38-vllm/nvidia-8a728663/overlays/ops_ple.py:381-434 | over any run of prefill, decode and draft launches in a safe order (a plain launch follows a draft only if exactly its first token was kept, drafts and unflagged decodes start on a slot in use, a draft keeps at least one token) every output is the convolution of the tokens committed before it and its own chunk; cells never written do not matter |
| PleConvRuns.PlainAfterDraft | backends/qwen38-vllm/nvidia-8a728663/overlays/ops_ple.py:381-388 | a prefill or decode after a draft outputs the convolution of the sequence with the draft's first token only, however many were kept |
| PleConvRuns.PlainAfterDraftIsRightIff | backends/qwen38-vllm/nvidia-8a728663/overlays/ops_ple.py:381-388 | it is right with every filter exactly when the window read from its start remembers the committed tokens, which is when they end as with the first draft token only; so it is when one token was kept |
| PleConvRuns.PlainAfterDraftIsSafeIff | backends/qwen38-vllm/nvidia-8a728663/overlays/ops_ple.py:381-388 | whatever the tokens, it is right exactly when one token was kept or the filter has no state |
| PleConvRuns.DecodeAfterDraftMisses | backends/qwen38-vllm/nvidia-8a728663/overlays/ops_ple.py:381-388 | a decode after a draft of two kept tokens yields 1 where the whole sequence has 2 |
| PleConvRuns.DraftOnUnusedSlotIsRightIff | backends/qwen38-vllm/nvidia-8a728663/overlays/ops_ple.py:397-404 | a draft reads an unused slot as well, and is right with every filter exactly when the cells it reads are zero |
| PleConvRuns.ReferenceIsChunkFree | backends/qwen38-vllm/nvidia-8a728663/overlays/ops_ple.py:406-434 | the chunk-wise reference outputs, put end to end, are those of the concatenated sequence |
| PleConvRuns.ChunkInvariance | backends/qwen38-vllm/nvidia-8a728663/overlays/ops_ple.py:561-675 | any cut of a sequence into prefill and flagged decode chunks gives the outputs of one whole-sequence convolution with zero history, whatever bytes the slot held |
| PleConv.LoadTap | backends/qwen38-vllm/nvidia-8a728663/overlays/ops_ple.py:410-428 | the masked two-source load of a tap yields the history cell, from the state window or from the inputs |
| PleConv.SumTaps | backends/qwen38-vllm/nvidia-8a728663/overlays/ops_ple.py:408-434 | the tap loop sums the taps of the dilated convolution |
| PleConv.ShiftInPlace | backends/qwen38-vllm/nvidia-8a728663/overlays/ops_ple.py:461-474 | the ascending in-place loop of decode equals the simultaneous shift: no cell is overwritten before it is read |
| PleConv.StoreWindow | backends/qwen38-vllm/nvidia-8a728663/overlays/ops_ple.py:532-558 | the ascending in-place write-back of prefill and draft chunks equals the simultaneous shift, and leaves the cells past it alone |
| PleConv.WriteBack | backends/qwen38-vllm/nvidia-8a728663/overlays/ops_ple.py:501-558 | one write-back program moves exactly its own request's window |
| PleConv.RowOutput | backends/qwen38-vllm/nvidia-8a728663/overlays/ops_ple.py:367-439 | a token program finds its request and yields SiLU of its convolution, and zero past the real tokens |
| PleConv.ConvProgram | backends/qwen38-vllm/nvidia-8a728663/overlays/ops_ple.py:436-474 | a token program changes one residual row, by its output, and for decode moves its own window only |
| PleConv.Launch | backends/qwen38-vllm/nvidia-8a728663/overlays/ops_ple.py:561-675 | a launch is refused with nothing changed, or adds to every residual row the output computed from the windows at entry and leaves every slot at its next window |
| PleConv.LaunchIsWholeConv | backends/qwen38-vllm/nvidia-8a728663/overlays/ops_ple.py:320-474 | on a remembering slot a launch adds SiLU of the whole-sequence convolution and leaves the slot remembering the kept tokens |
| Words.SlotIsFlooredRemainder | backends/qwen38-vllm/nvidia-8a728663/overlays/ops_ple.py:103-106 | the truncated remainder with its sign fix-up is the floored remainder, negative hashes included |
| Words.Slot | backends/qwen38-vllm/nvidia-8a728663/overlays/ops_ple.py:104-105 | the table slot lies in the head's partition |
| NgramIds.KernelId | backends/qwen38-vllm/nvidia-8a728663/overlays/ops_ple.py:100-106 | a head's id lies in [offset, offset + size), whatever the sign of the hash |
| NgramIds.PredecessorAcrossChunks | backends/qwen38-vllm/nvidia-8a728663/overlays/ops_ple.py:76-95 | a chunk sees through its saved context exactly what the whole sequence holds, with everything at or before the nearest earlier EOS replaced by EOS |
| NgramIds.KernelAgreesWithCpu | backends/qwen38-vllm/nvidia-8a728663/overlays/ple_layer.py:350-382 | on any row, the kernel's newest-to-oldest walk with a crossed flag gives the id of the CPU path's shifted row, which finds the nearest EOS by a running maximum |
| NgramIds.IdAcrossChunks | backends/qwen38-vllm/nvidia-8a728663/overlays/ops_ple.py:65-106 | chunk invariance: ids from a chunk and its saved context are those of the whole sequence |
| NgramIds.ContextAfterChunk | backends/qwen38-vllm/nvidia-8a728663/overlays/ops_ple.py:76-95 | the last tokens of a context and its chunk are the context of the sequence with the chunk |
| NgramIds.RunIdIsWholeId | backends/qwen38-vllm/nvidia-8a728663/overlays/ops_ple.py:65-106 | however a sequence is cut into chunks, every id computed from its chunk and the context saved before it is the id of the whole sequence |
| NgramIds.MixIsCausal | backends/qwen38-vllm/nvidia-8a728663/overlays/ops_ple.py:69-98 | an id never depends on later tokens |
| NgramIds.Table.OrderInRange | backends/qwen38-vllm/nvidia-8a728663/overlays/ops_ple.py:72-74 | every head has an order between 2 and the n-gram size |
| NgramIds.TokenIds | backends/qwen38-vllm/nvidia-8a728663/overlays/ops_ple.py:44-113 | one token's program locates its request (the last one for a token past the end) and computes the ids of all heads from that request's context |
| NgramIds.ComputeIds | backends/qwen38-vllm/nvidia-8a728663/overlays/ops_ple.py:116-150 | the launcher fills every row with the ids of its token under the request it is located in; where a request's context is that of its earlier tokens these are the ids of its whole sequence |
| NgramCpu.RequestOf | backends/qwen38-vllm/nvidia-8a728663/overlays/ple_layer.py:418-419 | the clamped library search finds the request the kernel locates |
| NgramCpu.Pack | backends/qwen38-vllm/nvidia-8a728663/overlays/ple_layer.py:411-423 | the packed rows hold each request's tokens from the first column on, and EOS elsewhere: every token reaches its own cell |
| NgramCpu.PackedIdIsKernelId | backends/qwen38-vllm/nvidia-8a728663/overlays/ple_layer.py:428-456 | the id read from a token's packed cell, behind its request's context, is the kernel's id of the token: what follows in the row does not matter |
| NgramCpu.CpuIds | backends/qwen38-vllm/nvidia-8a728663/overlays/ple_layer.py:384-457 | the whole CPU path, search and packing included, gives every token the ids the kernel gives it |
| OnlineSoftmax.Rescale | backends/qwen38-sglang/sm121_varlen.py:78-82 | rescaling to a new maximum and adding a block keeps the representation of the direct sum |
| OnlineSoftmax.Block | backends/qwen38-sglang/sm121_varlen.py:66-91 | after every executed block the running maximum is a number, and maximum, sum and accumulator stand for the direct sums over the positions visited |
| OnlineSoftmax.BlockLoop | backends/qwen38-sglang/sm121_varlen.py:62-91 | the loop over a range, in blocks of any size, ends with the direct sums of the range |
| OnlineSoftmax.Attend | backends/qwen38-sglang/sm121_varlen.py:58-107 | one program returns direct softmax attention over the selected rows, and zeros for an empty range; the divisor is never zero |
| OnlineSoftmax.KvHeadInRange | backends/qwen38-sglang/sm121_varlen.py:60-61 | with the accepted head counts every query head has a key/value head, and each serves an equal run of query heads |
| OnlineSoftmax.OneQueryEach | backends/qwen38-sglang/sm121_varlen.py:129-130 | with at most one query per sequence the packed query offsets are the identity |
| OnlineSoftmax.Launch | backends/qwen38-sglang/sm121_varlen.py:110-193 | every output cell is direct softmax attention of its query and head over its sequence's key range |
| OnlineSoftmax.QsaAttention | backends/qwen38-sglang/sm121_varlen.py:110-193 | a call is accepted exactly when its ranks, shapes, head counts and offset counts are acceptable (no key/value heads divide by zero), and every cell of its fresh output is then direct softmax attention |
| SingleFlightSlot.StaleOwnerChangesNothing | backends/comfyui-media/bridge/jobs.py:68-96 | release, retain and terminal release by an old owner leave the slot of a newer owner (or a free slot) as it is |
| SingleFlightSlot.ReleaseKeepsCoherence | backends/comfyui-media/bridge/jobs.py:68-96 | the plain release keeps quarantine-implies-busy exactly when the slot is not quarantined in the releaser's name; the terminal release always does |
| SingleFlightSlot.Runner.constructor | backends/comfyui-media/bridge/jobs.py:34-48 | the slot starts free |
| SingleFlightSlot.Runner.Acquire | backends/comfyui-media/bridge/jobs.py:59-66 | admission: unavailable when quarantined, busy when held, otherwise held in the new owner's name |
| SingleFlightSlot.Runner.Release | backends/comfyui-media/bridge/jobs.py:68-72 | only the owner frees the slot, and leaves the quarantine mark |
| SingleFlightSlot.Runner.RetainBusy | backends/comfyui-media/bridge/jobs.py:74-79 | only the owner marks the slot quarantined, and keeps it held |
| SingleFlightSlot.Runner.ReleaseTerminal | backends/comfyui-media/bridge/jobs.py:81-96 | only the owner frees the slot, and clears its own quarantine |
| SingleFlight.CancelReturnsTrueOnlyWhenEnded | backends/comfyui-media/bridge/comfy_client.py:290-355 | a targeted cancellation reports success only for a prompt that has ended |
| SingleFlight.ReadsTheMark | backends/comfyui-media/bridge/comfy_client.py:238-240 | the runner reads an entry as terminal exactly when it carries a mark of an ended prompt |
| SingleFlight.PerformKeepsJob | backends/comfyui-media/bridge/jobs.py:100-478 | no action of a run, its submit task, its reapers or the backend breaks the invariant, and the slot changes only in its owner's hands |
| SingleFlight.ApplyKeepsInv | backends/comfyui-media/bridge/jobs.py:100-478 | every step of the whole system keeps the invariant of every job |
| SingleFlight.SingleFlightSafety | backends/comfyui-media/bridge/jobs.py:100-239 | in every reachable state a prompt that may be live is owned by the run that holds the busy slot, so at most one is live, under any cancellation, timeout or lost response |
| SingleFlight.AdmissionMeansIdleBackend | backends/comfyui-media/bridge/jobs.py:59-66 | a request is admitted only when no earlier prompt may be live and no earlier task is at work |
| SingleFlight.SlotLostExactlyAfterCrash | backends/comfyui-media/bridge/jobs.py:412-478 | quarantine implies busy; a busy slot has a foreground run, a reaper or the quarantine mark, except exactly when a task of its owner died of a history reply it could not read |
| SingleFlight.DiesIff | backends/comfyui-media/bridge/jobs.py:435-438 | a task dies exactly when it resumes with a reply its reading breaks on; a targeted cancellation survives every reply |
| SingleFlight.NoLostSlot | backends/comfyui-media/bridge/jobs.py:314-338 | over every run in which no polling task is given a reply it cannot read, no slot is lost: bodies and entry statuses are objects (or an empty status), and a terminal success polled by the foreground has a message list |
| SingleFlight.BrokenReplyLosesSlot | backends/comfyui-media/bridge/comfy_client.py:218-243 | any reply that is no object, or whose entry has a status that is neither an object nor empty, met by the foreground, strands the slot with the prompt still live |
| SingleFlight.BrokenReplyKillsReaper | backends/comfyui-media/bridge/jobs.py:432-447 | met by the reaper of a cancelled run, the same reply kills it and strands the slot |
| SingleFlight.BadMessagesLoseSlot | backends/comfyui-media/bridge/comfy_client.py:437-448 | a terminal success whose messages cannot be iterated strands the slot of a finished job; it breaks the foreground's wait and nothing else |
| SingleFlight.SlotCanBeFreedIff | backends/comfyui-media/bridge/jobs.py:360-478 | in every reachable state a held slot can still be freed exactly when its job is freeable: nothing posted, proven rejected, or a task that is alive and not bound to die, and a prompt that can still reach terminal history |
| SingleFlight.CancelledPendingJobIsNeverFreed | backends/comfyui-media/bridge/comfy_client.py:314-321 | a reachable state in which our own delete of a pending prompt has removed it without history, so its slot can never be freed |
| WarmWorker.ApplyKeepsInv | backends/ltx-pipelines/server.py:224-336 | every step between two awaits keeps the invariant that every live group is answered for, by one killer at most |
| WarmWorker.AtMostOneLive | backends/ltx-pipelines/server.py:224-336 | in every reachable state at most one group is alive whose killing task was not itself cancelled; a releasing or quarantined one counts |
| WarmWorker.OneLiveProcess | backends/ltx-pipelines/server.py:224-336 | over every interleaving of requests, idle reapers, failures and cancellations in which no request is cancelled past its shields, at most one process group is alive |
| WarmWorker.AbortsIff | backends/ltx-pipelines/server.py:155-163 | a step aborts a kill exactly when it cancels a request whose shields are used up and that waits for this kill, still under way |
| WarmWorker.TwoLiveAheadIff | backends/ltx-pipelines/server.py:155-163 | from a reachable unquarantined state, some continuation without a further cancellation past the shields reaches two live groups if and only if some live group has already been abandoned by its killing task |
| WarmWorker.NothingSpawnedAfterQuarantine | backends/ltx-pipelines/server.py:440-446 | once quarantined, no process group is ever started |
| WarmWorker.RenderIsUndisturbed | backends/ltx-pipelines/server.py:285-294 | no reaper, kill or late waiter touches a worker, its key or its group while it renders |
| WarmWorker.LateWaiterKeepsNewKey | backends/ltx-pipelines/server.py:278-283 | a waiter on an old release never clears the key of the worker that replaced it |
| WarmWorker.RenderedByRightWeights | backends/ltx-pipelines/server.py:296-310 | every render is served by a group started for the module and weights it asked for |
| WarmWorker.AbandonedGroupMeetsAnother | backends/ltx-pipelines/server.py:152-163 | a live group that nothing answers for when no request runs is one whose killing task was cancelled, and the next request starts another beside it |
| WarmWorker.DoubleCancelLeavesTwoLive | backends/ltx-pipelines/server.py:152-163 | a reachable state with two live groups and no quarantine: a second cancellation reaches the shielded kill |
| WarmWorker.IdleWorkerIsReleased | backends/ltx-pipelines/server.py:285-294 | in every reachable state an idle worker that is not neglected has exactly one sleeping reaper, whose waking takes the worker and starts to kill its group |
| WarmWorker.NeglectedIff | backends/ltx-pipelines/server.py:285-289 | an unused worker comes to be without a sleeping reaper exactly when its reaper wakes while the request that scheduled it still holds the lock |
| WarmWorker.NeglectLasts | backends/ltx-pipelines/server.py:285-289 | from then on nothing releases it until another request is admitted |
| WarmWorker.NeglectedIsReachable | backends/ltx-pipelines/server.py:285-289 | a reachable idle state with a live worker and no reaper left |
| WarmWorkerObject.Worker.constructor | backends/ltx-pipelines/server.py:236-243 | the worker starts stopped |
| WarmWorkerObject.Worker.StartRelease | backends/ltx-pipelines/server.py:260-277 | `release` up to its await: drop the sleeping reaper, join a release under way or start one |
| WarmWorkerObject.Worker.FinishRelease | backends/ltx-pipelines/server.py:278-283 | its `finally`: only the release it waited for is cleared |
| WarmWorkerObject.Worker.Render | backends/ltx-pipelines/server.py:298-310 | `render` up to its first await: release first, render at once or spawn |
| WarmWorkerObject.Worker.FinishRender | backends/ltx-pipelines/server.py:328-336 | after a good render: bound the log by releasing, or schedule the reaper |
| WarmWorkerObject.Worker.WakeIdle | backends/ltx-pipelines/server.py:285-294 | the reaper after its sleep: nothing while a request runs, otherwise release |
| OverlayStack.ComposePacks | backends/qwen38-vllm/nvidia-e962733e-v8/apply-stack.py:19-33 | the two nested loops compose both manifests in order, stopping at the first error |
| OverlayStack.ComposeMeaning | backends/qwen38-vllm/nvidia-e962733e-v8/apply-stack.py:22-33 | composition succeeds exactly when every overlay is sound and every target's chain is linked; each target then gets its chain's last payload and accepts its pristine bytes and those of every link |
| OverlayStack.Validate | backends/qwen38-vllm/nvidia-e962733e-v8/apply-stack.py:34-39 | validation succeeds exactly when every target holds an accepted version, and writes nothing |
| OverlayStack.Tree.Commit | backends/qwen38-vllm/nvidia-e962733e-v8/apply-stack.py:40-47 | a re-check that fails writes nothing; otherwise the files are those after the changes gone through before the process died |
| OverlayStack.Tree.Apply | backends/qwen38-vllm/nvidia-e962733e-v8/apply-stack.py:18-48 | the whole installer: the composition error, the refusal of unknown bytes, a dry run, or the re-check both leave the tree as it is; otherwise the tree is that of a run cut off after the given number of changes |
| OverlayStack.RecheckIsAboutTargets | backends/qwen38-vllm/nvidia-e962733e-v8/apply-stack.py:41-43 | the re-check passes exactly when no target was touched since validation, and then the changes are those of the files as they now are |
| OverlayStack.CompleteRun | backends/qwen38-vllm/nvidia-e962733e-v8/apply-stack.py:44-47 | a complete run overlays the final files and changes nothing else |
| OverlayStack.RestartConverges | backends/qwen38-vllm/nvidia-e962733e-v8/apply-stack.py:4-5 | if every target holds any version of its chain, then after any number of runs cut off between any two writes the next complete run is accepted and ends with every target final |
| OverlayStack.UnknownMeansNoWrite | backends/qwen38-vllm/nvidia-e962733e-v8/apply-stack.py:37-38 | one unknown target and no run ever writes anything |
| OverlayStack.TornWrite | backends/qwen38-vllm/nvidia-e962733e-v8/apply-stack.py:44-47 | after a crash inside a write, later runs finish exactly when the torn bytes are an accepted version; otherwise nothing is ever written again |
| OverlayStack.TornStaysTorn | backends/qwen38-vllm/nvidia-e962733e-v8/apply-stack.py:44-47 | a file torn half-way through its new text is refused by every later run, although its old and its new text are accepted |
| OverlayPack.ValidatePack | backends/qwen38-vllm/nvidia-e962733e-v8/apply-overlays.py:27-38 | the single-pack validation succeeds exactly when every entry is sound and every target pristine or patched |
| OverlayPack.PackResultAt | backends/qwen38-vllm/nvidia-e962733e-v8/apply-overlays.py:44-47 | a pack leaves in each target the last payload that differs from what validation saw |
| OverlayPack.StackAcceptsSequential | backends/qwen38-vllm/nvidia-e962733e-v8/apply-stack.py:19-39 | whatever the two packs one after the other accept, the composed installer accepts |
| OverlayPack.StackIsSequentialIff | backends/qwen38-vllm/nvidia-e962733e-v8/apply-stack.py:18-47 | for a compatible chain the composed installer ends where sequential application ends if and only if no pack writes one of its own targets back |
| OverlayPack.StackIsSequential | backends/qwen38-vllm/nvidia-e962733e-v8/apply-stack.py:18-47 | with manifests that name each target once the two always agree |
| OverlayPack.NamedTwiceDiffers | backends/qwen38-vllm/nvidia-e962733e-v8/apply-overlays.py:44-47 | a manifest that names a file there and back makes the two installers end on different bytes |
| OverlayPack.RestartNeedsTheStack | backends/qwen38-vllm/nvidia-e962733e-v8/apply-stack.py:2-6 | after a complete run, starting over pack by pack is refused wherever the upgrade rebuilt a baseline target, while the composed installer accepts its own result |
| Xgrammar.RunIsMaximal | backends/glm53-exl3/patch_xgrammar_termination.py:91-104 | the tokens consumed from a batch are the longest prefix the grammar allows without passing its end |
| Xgrammar.RunSplits | backends/glm53-exl3/patch_xgrammar_termination.py:91-104 | consuming two batches is consuming their concatenation |
| Xgrammar.XgrammarGrammar.AcceptTokens | backends/glm53-exl3/patch_xgrammar_termination.py:82-105 | accepting consumes that prefix, updates counter and flag with every token, ignores tokens after the end, and fails with one logged error exactly on a token rejected before it |
| Xgrammar.XgrammarGrammar.ValidateTokens | backends/glm53-exl3/patch_xgrammar_termination.py:125-146 | validation returns that prefix and leaves matcher, counter and flag as they were |
| Xgrammar.XgrammarGrammar.Rollback | backends/dspark-vllm/packs/miaai-ds4fv-9414dd58-sp/patches/hotfix-vllm-issue136-xgrammar-termination.py:152-155 | rolling back drops the last tokens and re-reads the flag |
| Xgrammar.XgrammarGrammar.Reset | backends/glm53-exl3/patch_xgrammar_termination.py:153-157 | reset leaves a fresh wrapper |
| Xgrammar.XgrammarGrammar.ManagerStep | backends/glm53-exl3/patch_xgrammar_termination.py:169-182 | the manager advances on exactly one allowed token, drops an invalid one drafted before the end of reasoning without logging an error, and fails on any other |
| Xgrammar.ValidateThenAccept | backends/glm53-exl3/patch_xgrammar_termination.py:125-146 | validation returns exactly the longest prefix that accepting the batch then consumes, and accepting it succeeds |
| Xgrammar.BatchMayBeCut | backends/glm53-exl3/patch_xgrammar_termination.py:82-105 | a speculative batch fed at once ends where it ends when cut anywhere |
| Xgrammar.FlagAndCounterAgree | backends/glm53-exl3/patch_xgrammar_termination.py:82-157 | over every sequence of accept, validate, rollback, reset and manager steps the cached flag is the matcher's termination and the counter the tokens consumed since reset |
| Xgrammar.WindowRollsBack | backends/glm53-exl3/patch_xgrammar_termination.py:169-182 | rolling back the advances the manager counted undoes a whole window, whatever was dropped, skipped or ended in it |
| Xgrammar.OldAcceptBreaksFlagIff | backends/glm53-exl3/patch_xgrammar_termination.py:60-80 | the replaced accept leaves a wrong flag exactly when some token of the batch is rejected with the matcher, after all tokens before it, at its end |
| Xgrammar.OldResetBreaksFlagIff | backends/glm53-exl3/patch_xgrammar_termination.py:148-151 | the replaced reset leaves a wrong flag exactly when the grammar had terminated |
| Xgrammar.SameBeforeTheEnd | backends/glm53-exl3/patch_xgrammar_termination.py:60-105 | patched and replaced accept agree on every batch without an ending token before its last |
| Xgrammar.TrailingToken | backends/glm53-exl3/patch_xgrammar_termination.py:2-8 | a batch with one token after the end: the replaced code forgets the termination, the patched one ignores the token |
| StopGuard.Detokenizer.constructor | backends/glm53-exl3/patch_suppress_stops_in_reasoning.py:125-135 | the guard starts open on an empty text |
| StopGuard.Detokenizer.Update | backends/glm53-exl3/patch_suppress_stops_in_reasoning.py:143-161 | one chunk is appended and checked: the new flag, whether stops are active, and from which offset |
| StopGuard.EndMarker | backends/glm53-exl3/patch_suppress_stops_in_reasoning.py:56-75 | the marker searched for is never empty |
| StopGuard.GuardIsWholeTextSearch | backends/glm53-exl3/patch_suppress_stops_in_reasoning.py:147-153 | for every division of the output into chunks, and offsets never past the earlier text, the guard is closed exactly when the whole text contains the marker |
| StopGuard.ClosedIffSeen | backends/glm53-exl3/patch_suppress_stops_in_reasoning.py:147-153 | for any chunks and any offsets, the guard is closed exactly when some chunk's text so far has an occurrence that ends past that chunk's offset |
| StopGuard.DivisionDoesNotMatter | backends/glm53-exl3/patch_suppress_stops_in_reasoning.py:147-153 | how the output is cut does not matter |
| StopGuard.StopsStartAfterMarker | backends/glm53-exl3/patch_suppress_stops_in_reasoning.py:151-159 | stops are active exactly once the marker is in the text, never checked from before the end of its first occurrence, and in the closing chunk from exactly there |
| StopGuard.MissesIff | backends/glm53-exl3/patch_suppress_stops_in_reasoning.py:149-150 | an offset moved past the old text loses the marker exactly when every new occurrence ends at or before it |
| StopGuard.EarlyOffsetNeverMisses | backends/glm53-exl3/patch_suppress_stops_in_reasoning.py:149-150 | an offset at or before the old text's end never loses it |
| StopGuard.LostForGood | backends/glm53-exl3/patch_suppress_stops_in_reasoning.py:149-159 | a marker that ends before the first checked offset never closes the guard |
| StopGuard.LostMarker | backends/glm53-exl3/patch_suppress_stops_in_reasoning.py:155-159 | an output whose marker lies in the minimum-token stretch keeps its client stops dormant |
| ShardedTable.Collect | backends/qwen38-vllm/nvidia-8a728663/overlays/ple_mmap.py:74-92 | the shard dictionary is built exactly when every size matches and no number repeats |
| ShardedTable.Open | backends/qwen38-vllm/nvidia-8a728663/overlays/ple_mmap.py:61-120 | the constructor accepts exactly the distinct, contiguous, uniform shard sets whose shards but the last are equally long; it does not bound the last |
| ShardedTable.ReadsFlatRow | backends/qwen38-vllm/nvidia-8a728663/overlays/ple_mmap.py:154-160 | divmod addressing reads the row of the concatenated shards when the last shard fits |
| ShardedTable.FlatIndexingIff | backends/qwen38-vllm/nvidia-8a728663/overlays/ple_mmap.py:107-120 | the addressing agrees with the concatenated table on every row of an accepted table exactly when its last shard is no longer than the others |
| ShardedTable.LongLastShardIsAccepted | backends/qwen38-vllm/nvidia-8a728663/overlays/ple_mmap.py:107-111 | the constructor accepts a table whose last shard is longer |
| ShardedGather.GatherChunk | backends/qwen38-vllm/nvidia-8a728663/overlays/ple_mmap.py:148-160 | a worker fills exactly its rows of the staging buffer, and fails exactly when a read fails |
| ShardedGather.GatherCpu | backends/qwen38-vllm/nvidia-8a728663/overlays/ple_mmap.py:162-186 | the gather fills the staging buffer with the rows in order and leaves the rest; a chunk size of zero is an error, and a negative one fills nothing |
| ShardedGather.GatherIsFlatIndexing | backends/qwen38-vllm/nvidia-8a728663/overlays/ple_mmap.py:162-186 | staging row k is row ids[k] of the concatenated shards |
| ShardedWorkers.InterleavingDoesNotMatter | backends/qwen38-vllm/nvidia-8a728663/overlays/ple_mmap.py:180-185 | any byte-by-byte interleaving of workers on consecutive stretches leaves what running them one after the other leaves |
| ShardedWorkers.StepRowRefines | backends/qwen38-vllm/nvidia-8a728663/overlays/ple_mmap.py:148-160 | a transfer of a row worker, at the address its chunk start and row give, is a copy of the gathered byte of that address |
| ShardedWorkers.ConcurrentGather | backends/qwen38-vllm/nvidia-8a728663/overlays/ple_mmap.py:148-186 | every interleaving of the chunk workers of a gather, each reading the row of its current id and writing it to its own row of the buffer byte by byte, ends with the rows in order and the rest untouched |
| AudioLease.ModelHolder.EnsureIdle | backends/spark-audio/lloom_audio_cuda_server.py:471-478 | admission: refused when busy, otherwise busy under the next generation |
| AudioLease.ModelHolder.ClearBusy | backends/spark-audio/lloom_audio_cuda_server.py:480-483 | a clear frees the current generation only, or any when it names none |
| AudioLease.LeaseSafety | backends/spark-audio/lloom_audio_cuda_server.py:471-542 | in every interleaving, while a job is unfinished the holder is busy at that job's generation, so at most one is unfinished |
| AudioLease.JobRunsUnderItsRoutesLease | backends/spark-audio/lloom_audio_cuda_server.py:504-512 | the lease a job reads from the holder is the one its route was given, although it is not passed down |
| AudioLease.ClearsFreeOnlyTheirOwn | backends/spark-audio/lloom_audio_cuda_server.py:480-483 | a clear that frees the holder names the current lease, and no job is unfinished then |
| AudioLease.BusyIsAccounted | backends/spark-audio/lloom_audio_cuda_server.py:496-542 | a busy holder has a route that has yet to submit, a job whose callback has yet to run, or a stranded lease |
| AudioLease.StrandsIff | backends/spark-audio/lloom_audio_cuda_server.py:1099-1112 | a step strands the lease exactly when a transcription fails between admission and submission |
| AudioLease.RefusedSubmissionStrands | backends/spark-audio/lloom_audio_cuda_server.py:504-508 | from every idle reachable state a transcription whose submission is refused strands the lease |
| AudioLease.StrandedForever | backends/spark-audio/lloom_audio_cuda_server.py:1100-1112 | a stranded lease is never cleared, and every later request is refused |
| AudioLease.LeaseCanBeFreed | backends/spark-audio/lloom_audio_cuda_server.py:504-508 | from every other reachable busy state some continuation ends idle |
| AudioStream.StreamIsFaithful | backends/spark-audio/lloom_audio_cuda_server.py:799-813 | in every interleaving the consumer has received a prefix of the audible chunks in order; a body that ends normally carried all of them, one that raises all that came before the exception |
| AudioStream.Backpressure | backends/spark-audio/lloom_audio_cuda_server.py:513-524 | at most four items are queued, and the producer is at most one further ahead |
| AudioStream.JobCanReturnIff | backends/spark-audio/lloom_audio_cuda_server.py:517-542 | the job can still return from every reachable state except exactly when its response was dropped before its body was first read and its items do not fit the queue |
| AudioStream.DroppedAtOnce | backends/spark-audio/lloom_audio_cuda_server.py:799-819 | for every script, dropping the response at once wedges the job exactly when its items do not fit the queue |
| ByteCodes.LittleRoundTrip | backends/ltx-pipelines/pipelines.py:333 | little-endian fields are read back |
| ByteCodes.BigRoundTrip | backends/ltx-pipelines/pipelines.py:365 | big-endian fields are read back |
| WavFile.DecodeWav | backends/ltx-pipelines/pipelines.py:325-354 | the loop computes the walk: last format, last data, and each error in order |
| WavFile.WavRoundTrip | backends/ltx-pipelines/pipelines.py:331-348 | for every padded chunk list, any RIFF size field and up to seven stray bytes, decoding the file concludes from the chunks in order |
| WavFile.LastChunksDecide | backends/ltx-pipelines/pipelines.py:337-345 | the last format chunk and the last data chunk decide |
| WavFile.FormatRoundTrip | backends/ltx-pipelines/pipelines.py:340-343 | every format whose fields fit is read back from its body |
| FlacFile.DecodeFlac | backends/ltx-pipelines/pipelines.py:357-383 | the loop computes the walk to the first STREAMINFO block |
| FlacFile.PackUnpack | backends/ltx-pipelines/pipelines.py:370-374 | unpacking inverts packing of the 20, 3, 5 and 36 bit fields |
| FlacFile.UnpackPack | backends/ltx-pipelines/pipelines.py:370-374 | packing inverts unpacking, for every 64-bit value |
| FlacFile.FlacRoundTrip | backends/ltx-pipelines/pipelines.py:361-383 | for every block list decoding the file gives the first STREAMINFO that no last block precedes, whatever frames follow the last block |
| FlacFile.StreamInfoRoundTrip | backends/ltx-pipelines/pipelines.py:367-379 | every STREAMINFO body is read back |
| FlacFile.CutStreamInfo | backends/ltx-pipelines/pipelines.py:366-379 | a STREAMINFO body cut anywhere is refused or read with its facts unchanged, except exactly one byte short of the packed fields at 256 Hz or more and two bytes short at 65536 Hz or more; those are accepted at the rate divided by 256 per missing byte |
| FlacFile.CutFile | backends/ltx-pipelines/pipelines.py:361-368 | that is what decoding the cut file gives |
| FlacFile.CutStreamInfoMisread | backends/ltx-pipelines/pipelines.py:366-379 | a 44100 Hz file cut one byte short of the packed fields is accepted as 172 Hz |
| DrafterLayout.BuiltPageIsMlaPage | backends/glm53-exl3/patch_glm5_drafter_group.py:166-226 | the builder makes the drafter's page the MLA page, really in exact fit and by padding otherwise, except exactly for a spec that comes padded to another page and fits |
| DrafterLayout.BuiltAcceptedIff | backends/glm53-exl3/patch_glm5_drafter_group.py:312-335 | for any drafter spec, padded or not: the builder divides by zero exactly when a padded page is smaller than its block; otherwise the built group is accepted exactly when there is an MLA tensor for every drafter layer and no foreign padding survived an exact fit, and it then shares the MLA tensors: the stand-alone mode of the design text is never reached |
| DrafterLayout.PoolBytesPerBlock | backends/glm53-exl3/patch_glm5_drafter_group.py:376-391 | the accumulated bytes per block are those of all tensors |
| DrafterLayout.TensorsFillPool | backends/glm53-exl3/patch_glm5_drafter_group.py:446-500 | the emitted tensors take exactly the pool's bytes per block for every block, and fit the available memory |
| DrafterLayout.InExactlyOneTensor | backends/glm53-exl3/patch_glm5_drafter_group.py:463-500 | in every accepted layout each drafter layer is in exactly one tensor |
| DrafterLayout.TooManyLayersLosesOne | backends/glm53-exl3/patch_glm5_drafter_group.py:331-335 | without the check on the layer count a sharing drafter would lose a layer |
| DrafterLayout.KernelBlockInPage | backends/glm53-exl3/patch_glm5_drafter_group.py:189-203 | exact fit: however the manager block is split, every kernel block lies inside its own block's page |
| DrafterLayout.DistinctBlocksDisjoint | backends/glm53-exl3/patch_glm5_drafter_group.py:190-194 | blocks with different ids never share a byte |
| DrafterLayout.FitBlockSplits | backends/glm53-exl3/patch_glm5_drafter_group.py:181-184 | an exact-fit block is divisible by every kernel block in use |
| DrafterLayout.PaddedFitsIff | backends/glm53-exl3/patch_glm5_drafter_group.py:205-226 | the padded strided view ends inside the tensor exactly when the kernel block is the manager block |
| DrafterLayout.DeployedGeometryNeverFits | backends/glm53-exl3/patch_glm5_drafter_group.py:40-45 | 656 against 4096 bytes per token never fits exactly, at no MLA block |
| Graphs.Graph.constructor | backends/comfyui-media/graphs/graphs.py:108-109 | a new graph is empty |
| Graphs.Graph.Add | backends/comfyui-media/graphs/graphs.py:111-114 | a node that fits its inputs gets the next key and leaves every earlier output as it was |
| Graphs.TypedIsBackward | backends/comfyui-media/graphs/graphs.py:107-114 | a typed graph is closed and acyclic, with links to earlier nodes only |
| Graphs.BackwardAppends | backends/comfyui-media/graphs/graphs.py:111-114 | adding a node that links to nodes already there keeps every link going back, whatever its class |
| Graphs.AddsKeepAcyclic | backends/comfyui-media/graphs/graphs.py:107-114 | any list of adds, of any node classes, that link to results keeps a closed acyclic graph closed and acyclic, and one that links back only linking back only |
| Graphs.BuiltByAddsIsAcyclic | backends/comfyui-media/graphs/graphs.py:107-114 | every graph built by such adds alone is closed and no path of links comes back |
| Graphs.NoCycle | backends/comfyui-media/graphs/graphs.py:107-114 | no path of links comes back to where it started |
| Graphs.BackPatch | backends/comfyui-media/graphs/graphs.py:828 | patching a link to a later node keeps the graph closed and acyclic when no node in between links back |
| Graphs.GuidesAreCropped | backends/comfyui-media/graphs/graphs.py:502-527 | guides counted back along the links alone: in a typed graph the upsampler and the decoder are given none, a guide or crop node has as many in its latent as in its conditionings, a crop leaves none, and every sampler is told of exactly those in its latent |
| Graphs.TypesStateCarried | backends/comfyui-media/graphs/graphs.py:449-527 | soundness of the typing: the guide count of every typed link is the number of guides counted along the links |
| Graphs.GuidesComeFromGuideNodes | backends/comfyui-media/graphs/graphs.py:460-465 | in any list of nodes, a link carries a guide only if links lead back from it to a guide node |
| WorkflowBuilders.Begin | backends/comfyui-media/graphs/graphs.py:449-458 | the first conditioning, the empty latent and the first frame, without guides |
| WorkflowBuilders.Guide | backends/comfyui-media/graphs/graphs.py:460-465 | an endpoint adds one guide to conditioning and latent alike |
| WorkflowBuilders.Audio | backends/comfyui-media/graphs/graphs.py:469-491 | the audio latent, and a voice reference that hands the guides of the conditioning on |
| WorkflowBuilders.Advanced | backends/comfyui-media/graphs/graphs.py:121-129 | sampling keeps the guides it was told of |
| WorkflowBuilders.Crop | backends/comfyui-media/graphs/graphs.py:503-508 | cropping clears exactly the guides that were added |
| WorkflowBuilders.Upscale | backends/comfyui-media/graphs/graphs.py:509-512 | only a latent without guides is upscaled |
| WorkflowBuilders.Ltx | backends/comfyui-media/graphs/graphs.py:424-531 | on every branch the video graph is well typed, closed and acyclic, has the guides of every node in order, returns a movie, samples twice, upscales and decodes once, and holds exactly the guides, crops, frames, schedules, adapters and audio nodes its branch asks for |
| WorkflowBuilders.QwenImage21 | backends/comfyui-media/graphs/graphs.py:779-842 | the edit graph with its back-patched link is closed and acyclic although a link goes forward; without a reference every link goes back |
| WorkflowBuilders.QwenEdit | backends/comfyui-media/graphs/graphs.py:810-828 | the patched encoder reads the image joined with its mask, both added after it, and the sampler starts from the encoder's own latent |
| WorkflowBuilders.Decoded | backends/comfyui-media/graphs/graphs.py:528-531 | the decoded frames are joined with the supplied waveform itself, or with the decoded audio |
| WorkflowBuilders.Saved | backends/comfyui-media/graphs/graphs.py:282-283 | the output node added last reads the lane's result and keeps any lane's graph closed and acyclic |
| WorkflowBuilders.VideoGraph | backends/comfyui-media/graphs/graphs.py:293-296 | the whole video graph with its output node links back only |
| WorkflowBuilders.EditGraph | backends/comfyui-media/graphs/graphs.py:260-283 | the whole edit graph, patched or not, with its output node is closed and acyclic |

## Left out

- Floating-point rounding, the intermediate cast before SiLU, masks used only for padding, several channels per program, and launch hints: reals and one channel stand for them.
- `_ple_gate_kernel` and the quantised formats: their meaning rests on libraries that are not part of this model.
- Interleaving of kernel programs: they run one after the other; the contracts show that each reads the entry state of what it needs and writes only its own rows.
- PleConvRuns.RunIsWholeSequence: takes the modes in a safe order; which order launches come in is the scheduler's choice, which is not in the repository. Without that, `PleConvRuns.RunComputesWhatItReads` and `PleConvRuns.RunIsRightIff` say what is computed.
- Runs of launches: every launch has tokens for the request, a draft at most as many as the launch was built for, and a plain launch leaves the accepted count at one.
- N-gram ids: the code that saves contexts is not in the repository; `NgramIds.NextContext` is what it must save.
- PleConv.Launch: requires indices and boundaries in range when the launch is not refused, as the kernels do not check them.
- Attention checks of devices and dtypes; `OnlineSoftmax.QsaAttention` keeps those of ranks, shapes and counts.
- OnlineSoftmax.QsaAttention: requires packed offsets in range when the call is accepted, as neither the launcher nor the kernel checks them.
- OnlineSoftmax.Attend: the guard against a NaN quotient has no counterpart over reals.
- Single flight: uploads and their clean-up, output selection and media checks (a nondeterministic good or bad fetch), the reason text, and the cancelled flag of the client, which nothing sets.
- Single flight: cancellation of reaper tasks at loop shutdown, and a reaper without a prompt id, which no caller starts.
- Warm worker: the request body, the log and the supervisor are nondeterministic results; a cancelled spawn is taken to leave no group alive, and so is a kill whose leader was reaped, after which the rest of the group has only been sent its signal.
- Warm worker: no cancellation is delivered between the failure of a render and the start of its clean-up, because the event loop runs its queue in order and the clean-up was queued first.
- WarmWorker.OneLiveProcess: leaves out runs that cancel a request past its shields, because `WarmWorker.DoubleCancelLeavesTwoLive` shows the property false there; `WarmWorker.TwoLiveAheadIff` says when.
- Installers: directories and permissions; the single-pack installer's dry-run switch.
- Grammar wrapper: the bitmask, and the manager's loop around its branch, which is not in the repository.
- Stop guard: `check_stop_strings` and the offset's computation, which are not in the repository; the offset is a parameter. Arming the guard on the last prompt token is not modelled.
- Sharded gather: header parsing and file opening; the tensors of the layer are the input. The thread pool's error after a failed read is one verdict.
- Audio: model calls are scripts of chunks; the GPU lock beside the single worker thread adds nothing to the lease.
- AudioLease.LeaseCanBeFreed: takes a running job to be able to end; when a streaming job can end is `AudioStream.JobCanReturnIff`.
- Containers: images, duration limits, and decoding by libraries.
- Drafter layout: the mamba and tail groups' own validation and the window-bounded block demand, whose code is not in the repository.
- Graph builders other than the video and the edit lane (`h3`, `h3_ref2va`, music and the remaining image lanes): every one only adds nodes through `Graph.add` that link to earlier results, which `Graphs.BuiltByAddsIsAcyclic` covers; their node lists are not modelled. Numbers, texts and geometry of requests are not modelled.
- WorkflowBuilders.QwenImage21: nodes are a sequence rather than the graph object, because the patch breaks the order the object's invariant rests on.
- The gateway, HTTP, subprocess, container and media-tool calls, text-anchor patching, and request validation.
