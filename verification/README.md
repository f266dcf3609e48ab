# A verified model of distributed inference, trace regrading and think-tag streaming

This project models three parts of the repository and proves what they are for.

**Distributed inference** (`ds4_distributed.c`).  A coordinator runs layers 0 up to some layer itself; registered
workers hold the contiguous slices after it.  A prompt is cut into chunks, and every chunk is pushed through the route:
the coordinator's slice, then hop after hop, each guarded by a rolling hash of the tokens it has seen.

- `TokenHash`, `Engine` and `WorkerSessions` model the rolling hash, the engine's token timeline and a worker's sessions.
- `Prefill` defines the plain loop: span after span, each through every hop.  It is the meaning that everything else is
  compared with.  Worker sessions are found by their id alone, so any connection may reach them: between any two frames
  of a call other connections may run work frames, load shards or clear sessions there.
- `SliceComposition` proves that it does not matter to the logits how the layers are cut into slices, and
  `SliceAnswers` says what the loop, and every pipelined prefill that succeeds, computes in terms of the slices alone.
- `Pipeline` is the pipelined prefill as a transition system.  One action is one atomic step of one thread (producer,
  sender, result reader; per hop a receive loop, an evaluation thread and a relay thread) or a fault.  Threads meet in
  bounded queues and in sockets with bounded FIFO channels.  Depths, capacities and the number of hops are arbitrary.
  `PipelineSafety` and `PipelineTheorems` prove the invariant of every run and that success means what the plain loop
  computes; `PipelineBounds` proves that no buffer overflows; `PipelineProgress` proves that runs are bounded and never
  stick; `PipelineFaultFree` proves that without faults the pipeline succeeds exactly when the plain loop does.
- `PipelineCalls` is one call of it, over a first socket that is up or down: when some run succeeds, and when some run
  ends in a worker's error answer.  `QuietCalls` proves that a call which others leave alone can always succeed.
  `PipelineEvents` lets other connections operate on the hops' sessions between any two steps.
  `PipelineAnswers` says what a hop answers when something goes wrong.  `PipelineStranding` and `PipelineStrandedRun`
  say when all threads of the workers end, and show a run after which one does not.
- `Agreement` and `DistSession` put spans, pipelined attempts and recovery together: what it means when a sync or a
  decode step returns 0, and with which logits, whatever other connections do meanwhile.  The session owns its
  planner, so these calls run over routes that the worker registry really holds.
- `RouteSearch`, `PlanCache`, `SenderRing`, `RouteBlob` and `WorkFrame` cover route planning, the registry and its plan
  cache, the ring between producer and sender, the route payload with its printer and three readers, and WORK frames
  on their way along the route.  `SenderRefinement` proves that any interleaving of operations on the ring with steps
  of the other threads is a run of `Pipeline`; `PlannedFrames` proves that the frames of `Prefill`, sent over a
  route that the search found, reach every hop as the table of the plain loop has them and are refused by none.
- `KvLayout`, `KvPayload`, `KvRestore`, `KvAccepted` and `SnapshotChunks` cover session snapshots: checked size
  arithmetic, shards gathered into one payload and split again over any route, the exact sets of shards and payloads
  that saving and loading accept, and the chunk frames that carry them.  `KvCaches` is what a node keeps of a layer (a
  ring of raw rows, compressed rows as floats or halves, compressor state, index rows) with its writer and its reader
  (`ds4.c:34472-34549`, `ds4.c:34554-34788`, shapes in `ds4.c:14634-14649`).
- `Formats` says, byte by byte, where the fields of each frame and payload stand.
- `HalfFloat` is the half-precision activation transport on raw bits.
- `Wire` holds words, byte orders and `Option`.

**Trace regrading** (`ds4_eval.c`).  `TraceText` and `TraceBlocks` model the printer of counted blocks and the scanner
that reads them back.

**Think-tag streaming** (`ds4_cli.c`, and its twin in `ds4_eval.c`).  `ThinkTags` defines one pass over the whole text
and the incremental scan; `ThinkPrinter` holds the two stateful versions.

`dafny verify dfyconfig.toml` checks everything.

## Assumptions about the engine

Tensors are opaque.  Per node, the KV state after a slice, the hidden state and the logits are arbitrary functions of
the KV state, the tokens, the position and the input, so nothing depends on what a slice computes.  Assumed:

- A slice is evaluated at `pos0` only when the timeline is valid and `pos0` long, or invalid and `pos0` is 0; success
  appends the tokens, failure invalidates the timeline but keeps its tokens (`ds4.c:41417-41454`).
- The KV effect of a slice does not depend on which output is asked for.
- Loading a shard sets the timeline to the given tokens (`ds4.c:34554-34788` for a node's own layers).
- Every call may fail at any time; what a failing call leaves in the KV state is arbitrary.

A reset empties the timeline before anything in it can fail (`ds4.c:41045-41068`, `ds4.c:45057-45065`), so a reset that
fails does *not* leave the timeline as it was.

## Where the code does not do what one would expect

Each of these is followed as the code has it, and proved.

- *The stored hash of a worker session can be wrong.*  A reset that fails returns before it touches the stored hash
  (`ds4_distributed.c:7453-7461`), while the timeline is already empty.  `RunWorkTrust` and `StepKeepsHash` say exactly
  when this happens and `FailedResetLeavesStaleHash` shows it.  `RunStaysGrounded` shows that a wrong hash only guards
  an empty, invalid timeline, and `EvaluatedOnRightPrefix` exactly which frames could still be evaluated on a wrong
  prefix; coordinators never send them (`EvaluatedOnMatchingPrefix`).
- *Recovery from a remote error of a pipelined prefill cannot work when the replay is pipelined too.*  The result
  reader shuts the first socket down on every failure, and recovery after a remote error keeps the plan and with it
  that socket (`ds4_distributed.c:2948-2987`).  `SomeRunSucceedsIff` says exactly when a pipelined call can return 0,
  `SomeRunEndsInRemoteErrorIff` exactly when one can end in a remote error, and `Rebuild` and `Sync` that such a call
  is then lost.
- *A call may return 0 without agreement.*  Frames of an abandoned connection may still arrive while a later call is
  under way, since a worker drains what it has queued (`ds4_distributed.c:7744-7853`), and shards and clears may come at
  any time.  What success does mean is that every hop stood at the prompt right after its own last frame of the call
  (`AgreementAmongOthers`, `Sync`, `Eval`).  Two guards on the fields of an operation, proved exact, say which operations
  leave a session at a hash (`StraySpares`) and which bring it there (`StrayBrings`); `AgreementAtReturn` says that
  everyone agrees when the call returns if and only if these guards say so for what reached each hop since its last
  frame.  `LeftOverFrameDisturbs` is a call that returns 0 and fails to agree.
- *A worker's threads may be left waiting.*  A relay that exits shuts down its upstream socket only, and the read loop
  waits for the evaluation thread before it closes anything downstream.  `WorkersEndUnlessStranded` gives the exact
  condition, `SomeWorkerIsStranded` a run that meets it, for any depths of queues and sockets, and `SomeCallStrands` a call
  that has such a run.
- *Re-encoding a half is not the identity on NaN.*  All NaN are sent as one (`ds4_distributed.c:818-848`);
  `ReencodeIsIdentity` and `PayloadRoundTrip` give the exact condition, `SmallestNanIsLost` the first input.
- *Saving what was restored may give other bytes* where compressed rows are kept as halves: `LayerWrittenAgain` and
  `ShardWrittenAgain` give the exact condition, `HalvesSurvive` a sufficient one for halves that came from halves.
- *The receiver of snapshot chunks also takes empty chunks and other cuts than the sender makes.*
  `CollectedIffFramed` says exactly what it accepts, and `EmptyChunkIsAccepted` shows such a stream.
- *A trace field is clipped to a small buffer and loses its carriage returns* (`ds4_eval.c:3423-3430`).  `FieldRoundTrip`
  and `TraceRoundTrip` say exactly which fields and cases come back as they were written.
- *A cached plan is compared by a 64-bit counter that wraps.*  `CountersAgree` and `EnsureRoute` say what that costs.

## Model

| member | source | states |
|---|---|---|
| TokenHash.HashTokenLoop | ds4_distributed.c:1495-1502 | the four-byte loop, with explicit wrap at 64 bits, is the fold of the byte step over the little-endian bytes of the token |
| TokenHash.HashSpanLoop | ds4_distributed.c:1504-1507 | the span loop is the fold of the token step over the span, from any state |
| TokenHash.HashPrefixLoop | ds4_distributed.c:1509-1511 | hashing a prefix is hashing the span from the initial state |
| TokenHash.HashSpanComposes | ds4_distributed.c:1504-1507 | hashing a prefix and then a span equals hashing their concatenation, from every state; this is what lets a worker extend its hash instead of recomputing it |
| TokenHash.HashSpanIsHashBytes | ds4_distributed.c:1495-1507 | a timeline is hashed as the concatenation of its tokens' bytes |
| TokenHash.StepByteInjective | ds4_distributed.c:1492-1502 | modulo 2^64 a byte step is injective in the state and in the byte (the multiplier has an inverse) |
| TokenHash.HashNeverHeals | ds4_distributed.c:1504-1507 | two states agree after a common span if and only if they agreed before it |
| TokenHash.OneByteDifferenceSurvives | ds4_distributed.c:1495-1511 | byte timelines that differ in one position hash alike if and only if that byte is the same, whatever comes before and after |
| TokenHash.OneTokenByteDifferenceSurvives | ds4_distributed.c:1495-1511 | token timelines that differ in one byte of one token hash alike if and only if that byte is the same |
| WorkerSessions.Worker.GetSession | ds4_distributed.c:6785-6808 | finds or creates the session, and leaves every other session alone |
| WorkerSessions.Worker.PrepareSession | ds4_distributed.c:7443-7472 | reset, adoption of the stored hash, or recomputation from the timeline; a failed reset leaves the stored hash as it was over an emptied timeline |
| WorkerSessions.Worker.ProcessWork | ds4_distributed.c:7443-7507 | the session map after a WORK item, including refusal on a prefix mismatch and invalidation after a failed evaluation, and exactly when the slice was evaluated |
| WorkerSessions.Worker.ProcessLoad | ds4_distributed.c:7119-7140 | installing a shard sets timeline and hash together, a refused or failed load gives the stored hash up; works if and only if the announced hash is that of the tokens and the engine takes the shard |
| WorkerSessions.Worker.ProcessSave | ds4_distributed.c:6865-6969 | a shard is handed out if and only if the session exists and its timeline has the requested length and hash |
| WorkerSessions.Worker.Clear | ds4_distributed.c:6819-6834 | all sessions are gone |
| WorkerSessions.RunWorkTrust | ds4_distributed.c:7443-7507 | a WORK item keeps "a valid stored hash is the hash of the timeline" if and only if it is not a reset that fails on a session whose valid hash is not the initial one |
| WorkerSessions.StepKeepsHash | ds4_distributed.c:7119-7140 | among all work items, loads and clears, exactly the one step named above breaks the hash invariant |
| WorkerSessions.RunKeepsHash | ds4_distributed.c:7443-7507 | over any interleaving of connections, the invariant holds for every session before, between and after all operations if and only if none of them is that step |
| WorkerSessions.FailedResetLeavesStaleHash | ds4_distributed.c:7453-7461 | the invariant is false of the code: a concrete two-frame run after which a valid stored hash is not the hash of the timeline |
| WorkerSessions.EvaluatedOnRightPrefix | ds4_distributed.c:7473-7507 | for any frame and any session: a slice is evaluated on a timeline with the frame's prefix hash if and only if the frame resets the session or the stored hash was right; on the sessions that coherent frames leave behind, the frames that escape start at position 0 with another prefix hash than the empty one |
| WorkerSessions.EvaluatedOnMatchingPrefix | ds4_distributed.c:7476-7507 | for frames that pair position 0 with the hash of the empty prefix, as coordinators do: no slice is evaluated unless the timeline it extends hashes to the frame's prefix hash; afterwards the timeline is extended by exactly the frame's tokens and hashes to the frame's result hash; failed resets included |
| WorkerSessions.RunWorkGrounded | ds4_distributed.c:7443-7507 | what survives even the failed reset: a wrong stored hash only ever guards an empty, invalid timeline |
| WorkerSessions.RunStaysGrounded | ds4_distributed.c:7443-7507 | the same over every run of such frames, loads and clears, with any failures |
| WorkerSessions.SessionsAreIndependent | ds4_distributed.c:6785-6808 | a session ends up the same when every operation that names another session is struck from the run |
| WorkerSessions.SessionRunIsLookup | ds4_distributed.c:6785-6808 | one session followed on its own, through the operations of any connections, is what the worker's map holds for it afterwards, whether it was there before or not |
| WorkerSessions.SessionRunGrounded | ds4_distributed.c:7443-7507 | and on it too a wrong stored hash only ever guards an empty, invalid timeline |
| Prefill.ChunkStartIsClamped | ds4_distributed.c:3640-3650 | chunk i starts at min(start + i*cap, end) |
| Prefill.ChunksCover | ds4_distributed.c:3534-3536 | the rounded-up chunk count is exactly the number of chunks that start inside the span |
| Prefill.ChunkExtendsPrompt | ds4_distributed.c:3593-3602 | chunks are adjacent pieces of the prompt, and the hash after chunk i is the hash of the prompt up to the start of chunk i+1 |
| Prefill.ExpectedHashes | ds4_distributed.c:3593-3602 | expected hash i is the hash of the prompt up to min(start+(i+1)*cap, end), for every i |
| Prefill.PlainPrefill | ds4_distributed.c:3811-3825 | the chunk-by-chunk loop refines the sequential specification: span after span until one fails |
| Prefill.ResetForgets | ds4_distributed.c:3780-3826 | a call that resets computes the same KV states and logits from every state of the cluster |
| SliceComposition.CutsDoNotMatter | ds4_distributed.c:7543-7553 | adjacent slices compose: if a slice is one slice followed by another through the hidden state, over a wire that does not round, then cutting it in two at any place of any route changes neither the logits of the plain loop nor what the other slices hold, and the KV states of the two halves are what the whole one's state projects to; also when other connections reach the other hops' sessions |
| SliceComposition.LocalCutsDoNotMatter | ds4_distributed.c:2670-2784 | the same for a cut through the coordinator's own slice, whose second half becomes the first hop |
| SliceComposition.HeadDoesNotMatter | ds4_distributed.c:2622-2654 | whether the last hop runs the output head or the coordinator runs the same head on the last hop's hidden state does not matter to the logits |
| SliceAnswers.PlainAnswer | ds4_distributed.c:6705-6759 | in terms of the slices alone: every slice has run every chunk in order, at its position, on what the slice before it made of the same chunk as it arrives over the wire, and the logits are those of the last chunk, from the last hop's head or from the coordinator's |
| PipelineSafety.TakeFollowsTable | ds4_distributed.c:7443-7507 | a hop that evaluates the frame of chunk i makes exactly the step the plain loop makes there, and forwards the frame the plain loop would |
| PipelineSafety.RelayReadsNext | ds4_distributed.c:6424-6619 | reading one result off the downstream socket keeps "clean results upstream are a prefix of those downstream" |
| PipelineSafety.RelayPasses | ds4_distributed.c:6424-6619 | passing a result on never produces more clean results upstream than downstream sent, even behind an error that overtook them |
| PipelineTheorems.HopActionKeeps | ds4_distributed.c:7722-7840 | every step of a hop's receive loop, evaluation thread, forwarder and relay, and every fault there, keeps the invariant of the whole pipeline |
| PipelineTheorems.CoordinatorActionKeeps | ds4_distributed.c:3206-3419 | so does every step of the producer, the sender and the result reader |
| PipelineTheorems.EveryRunKeepsInv | ds4_distributed.c:3513-3778 | the invariant holds after every run, with send, receive and evaluation faults at any step |
| PipelineTheorems.ChainInvariant | ds4_distributed.c:3320-3419 | in every reachable state: evaluated locally >= submitted >= sent >= evaluated at hop 1 >= ... >= evaluated at the last hop >= accepted; the accepted results are requests 0..k-1 in order with their expected hashes; submitted minus accepted never exceeds the window |
| PipelineBounds.RunBounded | ds4_distributed.c:3152-3266 | every step keeps, and every run has, the bounds below; the producer holds a free slot from the moment it is given one until it queues the frame |
| PipelineBounds.BuffersNeverOverflow | ds4_distributed.c:7683-7701 | after every run, faults included, queued frames fit the slots, jobs the prefetch depth, unanswered forwarded requests the forward window, and each direction of each socket its capacity |
| PipelineBounds.ReturnsLast | ds4_distributed.c:3703-3720 | when the call returns the sender and the reader have exited |
| PipelineTheorems.SuccessFollowsTable | ds4_distributed.c:3722-3778 | when the call returns 0 every hop has evaluated exactly all chunks and stands where the plain loop leaves it, and the last result is that of the last chunk |
| PipelineTheorems.PipeliningPreservesMeaning | ds4_distributed.c:3513-3778 | pipelining preserves meaning: under every interleaving a successful pipelined prefill implies that the sequential loop over the same chunks succeeds, with the same KV state and timeline hash at every hop and at the coordinator, and the same logits |
| SliceAnswers.PipelinedAnswer | ds4_distributed.c:3513-3778 | and these are the KV states and the logits of every pipelined prefill that succeeds, whatever its interleaving |
| SliceAnswers.CutsDoNotMatterPipelined | ds4_distributed.c:7543-7553 | cutting a slice in two does not matter to a pipelined prefill either: over both routes some run succeeds or none does, and all that do give the same logits |
| PipelineProgress.StepFalls | ds4_distributed.c:3206-3266 | every step of every thread, and every fault, lowers one measure |
| PipelineProgress.RunsAreBounded | ds4_distributed.c:3513-3778 | no run is longer than the measure of its first state |
| PipelineProgress.EveryRunStaysLive | ds4_distributed.c:6306-6359 | on every run the bookkeeping behind progress holds: a thread that is gone has closed what its partners wait on, and pending requests match what is on its way |
| PipelineProgress.StuckOnlyWhenFinished | ds4_distributed.c:7683-7742 | slot, window, job-queue, pending-window and socket waits never form a cycle: a state in which no thread can step is one where producer, sender and reader have exited |
| PipelineProgress.PipelineNeverSticks | ds4_distributed.c:3643-3720 | after every run, faults included, either the three coordinator threads have exited or some thread has a step that is not a fault; and the run is bounded |
| PipelineProgress.EveryRunCanFinish | ds4_distributed.c:3643-3778 | every run can be completed without any further fault, failing engine call or refusal |
| PipelineFaultFree.RunStaysHealthy | ds4_distributed.c:3513-3778 | without faults no thread ever reports a failure of its own making, provided the plain loop's checks pass |
| PipelineFaultFree.UndisturbedRunsSucceedLikeThePlainLoop | ds4_distributed.c:3513-3825 | a complete run without faults, failing engine calls or refusals returns 0 if and only if the sequential loop does: pipelining adds no failure and hides none |
| PipelineCalls.SomeRunSucceedsIff | ds4_distributed.c:3513-3778 | some complete run of a call returns 0 if and only if its first socket is up and the plain loop works: a pipelined prefill can succeed exactly when the sequential loop does |
| QuietCalls.QuietIsAccepted | ds4_distributed.c:7443-7507 | a call whose hops are left alone between its frames (whatever happens before a reset) passes every check of the plain loop, at the coordinator and at every hop |
| QuietCalls.QuietCallCanSucceed | ds4_distributed.c:3513-3778 | so some complete run of it returns 0 if and only if its first socket is up |
| PipelineCalls.RemoteErrorIff | ds4_distributed.c:3343-3419 | over every run: a call ends in a remote error if and only if the last result it read is a worker's error answer to the very request it waited for; an error that overtook other answers, a result that does not fit and a lost socket are other failures |
| PipelineCalls.SomeRunEndsInRemoteErrorIff | ds4_distributed.c:3343-3419 | some complete run ends in a worker's error answer, the outcome that keeps the plan, if and only if the first socket is up and the coordinator's own slice accepts the first chunk |
| PipelineCalls.FailureShutsDown | ds4_distributed.c:3343-3419 | a pipelined prefill that fails leaves its first socket shut down, in every complete run |
| PipelineCalls.DeadConnectionNeverSucceeds | ds4_distributed.c:2948-2987 | a replay over a connection that was shut down cannot succeed under any interleaving |
| PipelineCalls.PipelinedIsPlain | ds4_distributed.c:3780-3826 | from either start, a pipelined attempt that returns 0 computed what the sequential loop computes: the same cluster and the same logits |
| PipelineAnswers.RefusalIsAnswered | ds4_distributed.c:7443-7507 | a job that is refused or not evaluated is answered by an error for its own request, and nothing else changes hands |
| PipelineAnswers.FailedForwardIsTheLastAnswer | ds4_distributed.c:6757-6776 | when a frame cannot be written to the next hop, the error for its request is the last thing that the hop ever answers: both sockets are shut down and, whatever run follows, its own carries nothing more |
| PipelineAnswers.RelayAnswersTheOldest | ds4_distributed.c:6424-6619 | the relay answers the oldest request that was passed on, with the result that came for it, or, if what came answers another one, by an error for it, and then it exits and shuts the socket down |
| PipelineAnswers.LossIsAnswered | ds4_distributed.c:6440-6456 | when the next hop is lost, the oldest pending request is answered by an error and the relay exits |
| PipelineStranding.WorkersEndUnlessStranded | ds4_distributed.c:7744-7853 | when a prefill has lost its first socket and nobody can step, every thread of every worker has ended if and only if no evaluation thread waits on a downstream socket that is up and full while its own relay has exited |
| PipelineStrandedRun.SomeWorkerIsStranded | ds4_distributed.c:6424-6619 | that does happen, for any number of hops from two up and any depths: with enough chunks that the plain loop accepts, a run ends with the coordinator's threads gone, nobody able to step, and the first hop's evaluation thread waiting for good |
| PipelineStrandedRun.SomeCallStrands | ds4_distributed.c:7744-7853 | and there is such a call for any slices and any limits whose windows let enough chunks through |
| Agreement.SpanAgrees | ds4_distributed.c:2670-2784 | after a span that returned 0, with other connections at work on the same sessions, the coordinator's timeline is the prompt up to the end of the chunk, and the stored hash and the timeline hash of every hop were its hash right after the hop's frame |
| Agreement.SpansAgree | ds4_distributed.c:3811-3825 | the same after all spans, by induction over the chunks |
| Agreement.FatedSpanIsPlain | ds4_distributed.c:2554-2668 | a span that returns 0 in the presence of failures at any point did what the span without failures does, logits included |
| Agreement.SpanCode | ds4_distributed.c:2456-2668 | exactly what the return code of a span means: 0 when its result arrived and the head worked, 2 when the frame was sent and a worker's error answer arrived, because a hop refused the frame or for a reason of its own, and 1 otherwise |
| Agreement.DirectAttempt | ds4_distributed.c:3811-3825 | the direct loop with failures: code, cluster and logits are those of the spans up to the first that fails, and when it returns 0 it computed what the sequential loop computes |
| Agreement.LeftOverFrame | ds4_distributed.c:7443-7507 | for every frame that an abandoned connection may still deliver: it leaves a session that stands at a hash standing there if and only if its metadata is bad, or it neither resets nor carries that hash as its prefix hash, or it is evaluated and ends at that hash again, or the hash is that of the empty timeline and its reset goes no further |
| Agreement.StraySpares | ds4_distributed.c:6785-6808 | the same for every operation of another connection: work for any session, shard loads, and clears |
| Agreement.StandsUnlessDisturbed | ds4_distributed.c:7443-7507 | over any sequence of such operations a session keeps standing at a hash throughout if and only if each of them spares it |
| Agreement.StrayBrings | ds4_distributed.c:6785-6808 | and exactly which operation brings a session to a hash that it does not stand at, for every session, frame and hash: a frame of its id that is evaluated on a timeline with its prefix hash and ends there, a reset that goes no further when the hash is that of the empty timeline, a frame that has an invalidated hash recomputed over the right timeline, or a shard with the hash |
| Agreement.GuardsDecide | ds4_distributed.c:7443-7507 | these two guards decide where any sequence of operations leaves a session: it ends at a hash if and only if, step by step, what finds it there spares it and what finds it elsewhere brings it there |
| Agreement.AgreementAtReturn | ds4_distributed.c:5504-5635 | if everyone stood at the tokens right after their last frames, everyone still does when the call returns if and only if these guards say so for what reached each hop since; in particular if all of it spares the hop |
| Agreement.LeftOverResetDisturbs | ds4_distributed.c:7453-7465 | such a disturbing frame exists: the reset frame of the first token of a two-token prompt |
| Agreement.LeftOverFrameDisturbs | ds4_distributed.c:7744-7853 | a concrete call that returns 0 without agreement when it returns: an abandoned prefill of a longer prompt left the frame of its second chunk queued at the hop, which takes it after the last frame of the new call; the pipelined and the plain loop both return 0 |
| DistSession.DistSession.EnsureRoute | ds4_distributed.c:4332-4348 | with the planner that the session owns: on success the route in hand goes over the hops of a complete plan, and over workers that are registered now unless 2^64 changes went by; on failure the registry holds no route |
| DistSession.DistSession.PipelinedAttempt | ds4_distributed.c:3513-3778 | success means that the cluster and the logits are those that the sequential loop reaches from the state before the attempt, that every hop stood at the prompt right after its last frame, and that the sessions are now what other connections have made of that; a dead first socket or a remote error means failure and a dead socket afterwards; the return code is that of the run |
| DistSession.DistSession.DirectSpans | ds4_distributed.c:5566-5606 | the same for success of the direct suffix path, with the return code of the first span that fails |
| DistSession.DistSession.RunPrefill | ds4_distributed.c:3780-3826 | the same for the choice between the two, pipelined exactly when that is allowed and more than one chunk is to run; the job is the one asked for, over the session's own slice, wire and head and the slices of the route in hand |
| DistSession.DistSession.Rebuild | ds4_distributed.c:2948-2987 | replaying the transcript after a failure: success means that a reset job over the whole prompt ran, that its cluster and logits are those of the sequential loop from any state, that everyone stood at the whole prompt after the replay's frames and that the plan is ready; a new plan is a complete route over the workers registered by then and uses none of the registrations of the failed one, and a remote error keeps the plan; failure means the plan is given up; after a remote error over the same dead connection a pipelined replay always fails |
| DistSession.DistSession.Sync | ds4_distributed.c:5504-5635 | a sync that returns 0 after dispatching work returns the logits, and leaves the cluster, of the sequential loop over the slices of the planned workers, whose last one answers with logits exactly if it has the output head: from the checkpoint's length without a reset if the prompt extends the checkpoint, and otherwise, or through recovery, from position 0 with a reset.  A sync that returns 0 after dispatching work, direct, pipelined or through recovery, whatever other connections did to the sessions and whatever happened to the registry meanwhile: every hop stood at the hash of the full requested prompt right after its last frame, and everyone agrees when the call returns if and only if the guards say so for what reached each hop since; it ran over a complete route of workers registered when the call started, or when the recovery replanned (unless 2^64 registry changes went by); it fails without dispatching only when the registry holds no route, returns without dispatching only when the prompt is already there, and never succeeds when a pipelined attempt ended in a remote error |
| DistSession.DistSession.Eval | ds4_distributed.c:5637-5688 | the same for a decode step that returns 0, recovered or not: the logits and the cluster are those of the sequential loop for the old timeline extended by the token, starting behind the old timeline without a reset unless it was recovered |
| DistSession.DistSession.SettledAtReturn | ds4_distributed.c:5504-5635 | what a call that worked leaves in the session's hands agrees on the prompt if and only if the guards say so for what reached each hop since |
| DistSession.DistSession.RegistryMoves | ds4_distributed.c:4252-4275 | workers that join or leave during a call keep the plan in hand as it was made |
| Agreement.AllSpansAgree | ds4_distributed.c:2670-2784 | every hop stood at the end of the prompt after any complete list of spans |
| PipelineEvents.HistoryIsARun | ds4_distributed.c:6785-6808 | every history in which steps of the pipeline's threads interleave with operations of other connections at any hop is a run of the pipeline: same threads, same sockets, and each session ahead by exactly what reached it since its last frame |
| PipelineEvents.AgreementAmongOthers | ds4_distributed.c:3513-3778 | over every such history that reports success: every hop stood at the prompt right after its last frame, in the states of the plain loop among the same operations, and agreement at the end holds if and only if the guards say so for what reached each hop since |
| PipelineEvents.NeverSticksAmongOthers | ds4_distributed.c:3643-3720 | and whatever other connections do, the threads' own steps are bounded and never get stuck |
| RouteSearch.Search | ds4_distributed.c:1954-1989 | over any sorted set of accepted workers the backtracking search terminates, finds a contiguous admissible chain if and only if one exists, and among all of them one that the order of the registry prefers at every hop; it never writes outside its path array or over the chain so far, and on failure reports the furthest layer that admissible chains leave uncovered |
| RouteSearch.NobodyStartsAtMissing | ds4_distributed.c:1954-1989 | at the reported frontier no admissible worker starts |
| RouteSearch.RouteCoversEachLayerOnce | ds4_distributed.c:1944-1989 | a found chain holds every remote layer exactly once, only its last hop may own the output head, and inner hops can pass hidden state on |
| RouteSearch.OrderIsIrrelevant | ds4_distributed.c:1933-1942 | whether a chain exists does not depend on the order in which the registry is searched |
| RouteSearch.RouteIffChain | ds4_distributed.c:1944-1989 | what the search takes for a route is, in the workers' own fields, exactly a contiguous chain of registered workers that ends with the model, in which every worker without the output head has hidden state to hand on, and whose last one has the output head unless the coordinator can run its own |
| RouteSearch.PreferredIsForemost | ds4_distributed.c:1924-1932 | the route that is found is the best one: at the first hop at which another chain differs, the other goes on with no longer slice, and not with the output head where this one has none |
| RouteSearch.MissingIsFurthest | ds4_distributed.c:1954-1989 | the layer that is reported as missing can be reached by workers that hand hidden state on, none further can, and every worker registered there can neither hand hidden state on nor end the model |
| RouteSearch.BuildPlan | ds4_distributed.c:2201-2313 | a plan is returned if and only if the coordinator starts at layer 0 and either covers the model alone or registered workers form such a chain from the layer behind its own to the last; the plan is then empty or the foremost of these chains; otherwise the failure names the furthest frontier |
| PlanCache.DropDisplaced | ds4_distributed.c:1883-1914 | registering a worker removes exactly the stale registrations of the same slice, keeping order |
| PlanCache.DropFd | ds4_distributed.c:4095-4118 | removes the entry of a connection, and only that |
| PlanCache.DropHop | ds4_distributed.c:2091-2133 | removes the first entry that matches a hop |
| PlanCache.DropRoute | ds4_distributed.c:2102-2133 | removes the hops of a route and reports whether anything was removed |
| PlanCache.ForgottenRouteIsGone | ds4_distributed.c:2102-2133 | afterwards no registered worker matches any hop of the failed route |
| PlanCache.ForgottenAreTheHops | ds4_distributed.c:2102-2133 | and exactly those with the address, the slice and the output flag of one of its hops are gone |
| PlanCache.SortWorkersSorts | ds4_distributed.c:1933-1942 | the comparison is an order that a sort can establish, as a permutation |
| PlanCache.Planner.constructor | ds4_distributed.c:5389-5468 | an empty registry and no cached plan satisfy the invariant |
| PlanCache.Planner.AddWorker | ds4_distributed.c:1856-1931 | an accepted worker is registered in front; exactly the entries of the same host for the same slice with the same output flag go, and all others stay; the change counter rises; nothing at all happens during shutdown |
| PlanCache.Planner.RemoveWorker | ds4_distributed.c:4095-4118 | the counter rises if and only if the registry changed |
| PlanCache.Planner.ForgetRoute | ds4_distributed.c:2102-2133 | exactly the registrations with the address, slice and output flag of some hop of the failed plan are gone, and the counter rises if and only if the registry changed |
| PlanCache.Planner.Replan | ds4_distributed.c:2201-2313 | a new plan fits the registry as it is now, and failure is reported only when no route exists |
| PlanCache.Planner.EnsureRoute | ds4_distributed.c:4332-4348 | a plan is reused exactly when the counters agree, and whenever fewer than 2^64 changes lie between, the plan in hand is a complete contiguous route over workers that are registered now; it fails only when there is no route |
| PlanCache.Planner.Replayed | ds4_distributed.c:2948-2987 | the plan survives a recovery if and only if the replay worked |
| PlanCache.CountersAgree | ds4_distributed.c:4332-4348 | the 64-bit counters agree if and only if the number of changes between is a multiple of 2^64 |
| SenderRing.LiveGrows | ds4_distributed.c:3152-3187 | filling the slot behind the queued ones appends to the queue once it counts, and not before |
| SenderRing.LiveShrinks | ds4_distributed.c:3206-3266 | advancing the head drops the oldest frame and nothing else |
| SenderRing.Ring.constructor | ds4_distributed.c:3102-3137 | an empty ring of any size from 1 up |
| SenderRing.Ring.AcquireSlot | ds4_distributed.c:3152-3169 | waits for room, gives the tail slot, or gives up exactly when the sender stopped or failed |
| SenderRing.Ring.Fill | ds4_distributed.c:3643-3701 | filling outside the lock changes only the tail slot, never a queued frame |
| SenderRing.Ring.EnqueueSlot | ds4_distributed.c:3171-3187 | the filled frame is appended to the queue and to what was submitted |
| SenderRing.Ring.NextSlot | ds4_distributed.c:3206-3228 | the sender takes the head, or exits; when it exits unstopped everything submitted was sent |
| SenderRing.Ring.SendSlot | ds4_distributed.c:3229-3250 | the frame sent is the oldest queued one; what was sent is a prefix of what was submitted |
| SenderRing.Ring.SendFails | ds4_distributed.c:3229-3250 | a failed write stops the ring and is remembered |
| SenderRing.Ring.ReleaseSlot | ds4_distributed.c:3250-3266 | releasing drops the oldest frame |
| SenderRing.Ring.Finish | ds4_distributed.c:3189-3194 | no more frames will come |
| SenderRing.Ring.Cancel | ds4_distributed.c:3196-3204 | stops both sides |
| SenderRing.Ring.NeverTheSameSlot | ds4_distributed.c:3152-3266 | in every valid state the slot the producer fills outside the lock is not the slot the sender reads outside the lock |
| SenderRefinement.NewRing | ds4_distributed.c:3102-3137 | a new ring is the empty queue that the transition system starts with |
| SenderRefinement.TakeSlot | ds4_distributed.c:3152-3169 | asking for a slot, and cancelling when there is none to come, is the producer's step PTake |
| SenderRefinement.FillFrame | ds4_distributed.c:3663-3696 | filling the slot outside the lock is nothing that the pipeline sees, and the slot then holds the frame that the producer is about to queue |
| SenderRefinement.PutFrame | ds4_distributed.c:3171-3187 | enqueuing it is the producer's step PPut, whatever the sender did in between |
| SenderRefinement.GiveSlotUp | ds4_distributed.c:3676-3704 | a local failure with a slot in hand cancels the ring: the producer's step PLocal |
| SenderRefinement.BetweenChunks | ds4_distributed.c:3189-3194 | finishing, or cancelling when the reader has stopped, is its step PWindow |
| SenderRefinement.AwaitFrame | ds4_distributed.c:3206-3228 | waiting for a frame, or leaving, is the sender's step SStep |
| SenderRefinement.WriteFrame | ds4_distributed.c:3229-3250 | writing the head slot is SWrite, and the frame written is the one that reaches the first socket |
| SenderRefinement.WriteFails | ds4_distributed.c:3251-3258 | a failed write is SWriteFails |
| SenderRefinement.FreeSlot | ds4_distributed.c:3250-3266 | releasing the slot is SPop |
| SenderRefinement.GuardsAgree | ds4_distributed.c:3152-3266 | what a thread waits for at the ring lets it go on exactly when the transition system does |
| SenderRefinement.Interleave | ds4_distributed.c:3152-3266 | any interleaving of ring operations, with the sender at work between filling and queuing a slot, and of all other threads' steps is a run of the pipeline, in step with the ring throughout; what went down the first socket is what the ring sent, a prefix of what was submitted |
| RouteBlob.AppendEntry | ds4_distributed.c:2135-2171 | succeeds if and only if the host is printable and the size stays within 32 bits; then the entry's bytes are appended |
| RouteBlob.BuildBlob | ds4_distributed.c:2135-2199 | the whole route payload in order with the return target at the end, or a failure for one of the two stated reasons |
| RouteBlob.GetEntry | ds4_distributed.c:5998-6049 | entry lookup by walking the bytes, for every index, with every malformed prefix refused |
| RouteBlob.GetReturnTarget | ds4_distributed.c:6051-6116 | the return target behind the last entry |
| RouteBlob.Validate | ds4_distributed.c:6118-6216 | the one-pass validator refines the recursive description of a valid payload |
| RouteBlob.BuiltBlobValidates | ds4_distributed.c:2135-2199 | every printed route of any number of hops validates |
| RouteBlob.ValidIffPrinted | ds4_distributed.c:6118-6216 | the validator accepts a payload if and only if it is the printed form of a list of the announced length whose hosts are non-empty, short and without NUL, whose ports are 1 to 65535, whose layer ranges follow each other inside the model, and in which only an entry that ends the model has the output flag |
| RouteBlob.PrintedOnce | ds4_distributed.c:2135-2199 | and of only one such list |
| RouteBlob.EntriesRoundTrip | ds4_distributed.c:2135-2171 | reading undoes printing, whatever follows |
| RouteBlob.ReadersAgree | ds4_distributed.c:5998-6216 | on every payload the validator accepts, lookup returns entry i for every i and the return target is upstream |
| WorkFrame.FlagsRoundTrip | ds4_distributed.c:1532-1581 | the four WORK flags survive the flag word |
| WorkFrame.WorkRoundTrip | ds4_distributed.c:1560-1581 | the WORK header survives its twenty words, with session, request and both hashes split in halves |
| WorkFrame.ReadTokens | ds4_distributed.c:7245-7272 | the tokens are accepted if and only if every one is inside the vocabulary and their hash, continued from the prefix hash, is the announced result hash |
| WorkFrame.CheckRoute | ds4_distributed.c:7340-7408 | the worker's route checks, from its own position in the payload |
| WorkFrame.CheckWork | ds4_distributed.c:7158-7408 | the structural checks of a worker in order: either rejected, or run with a stated result kind and next hop |
| WorkFrame.FrameIsRead | ds4_distributed.c:6218-6257 | a worker reads back the header, tokens, activations and route payload that were sent |
| WorkFrame.WorkReachesHop | ds4_distributed.c:6705-6779 | after i rewrites the frame names exactly hop i's layers and position, and is otherwise the coordinator's |
| WorkFrame.AddressedRuns | ds4_distributed.c:7158-7412 | a frame that can be sent and is meant for a node (valid route, the node is the hop pointed at, tokens inside context and vocabulary continuing the hash, activations of the right size) passes every check; the lookups behind the validator never fail, and the result kind is an ACK or logits only at the end of the route |
| WorkFrame.AcceptedIffAddressed | ds4_distributed.c:7158-7412 | a worker accepts a byte string if and only if it is the wire form of a frame that is meant for it |
| WorkFrame.ForwardedIsAddressed | ds4_distributed.c:6705-6779 | whatever frame a worker accepted, from whomever, what it sends on is meant for the next hop of the route and is accepted there, if it can be sent at all |
| WorkFrame.InnerHopsGiveNoLogits | ds4_distributed.c:7340-7408 | only the last hop of a valid route can own the output head |
| WorkFrame.EveryHopAccepts | ds4_distributed.c:7158-7408 | for every route and span that fits the context, the frame reaching hop i passes every check there; logits only at an output-carrying final hop, an ACK only from the last hop |
| WorkFrame.PlannedRouteIsValid | ds4_distributed.c:2201-2313 | the route that the search found over accepted workers prints to a valid payload |
| PlannedFrames.NoHopRefuses | ds4_distributed.c:7158-7412 | on a planned route, for a span whose fields fit the wire: the frame of chunk i that reaches hop h, after h rewrites, carries what the table of the plain loop says, and the worker there accepts it; every hop but the last passes its hidden state on to the address and slice of the next planned worker, and the last answers with the kind of payload that the table has for the chunk |
| Formats.WorkFormat | ds4_distributed.c:91-112 | every field of a WORK frame by its byte offset in network order, then tokens, activations and route payload |
| Formats.EntryFormat | ds4_distributed.c:114-126 | every field of a route entry by its offset, then the host; and the way back that is printed |
| Formats.ReturnFormat | ds4_distributed.c:6093-6123 | what a worker reads as the way back, by its offsets, and exactly when it reads one |
| KvLayout.Mul | ds4_distributed.c:699-704 | the division test detects overflow exactly, and otherwise the product is exact |
| KvLayout.Add | ds4_distributed.c:693-697 | the same for addition |
| KvLayout.StateBytesReports | ds4_distributed.c:4597-4609 | the size of the compressor state is exact, or an overflow is reported |
| KvLayout.LayerBytesReports | ds4_distributed.c:4611-4654 | the size of a layer's tensors is exact whenever it fits 64 bits, and an overflow is reported exactly otherwise |
| KvCaches.SizeIsWritten | ds4_distributed.c:4611-4654 | the computed size of a layer is the number of bytes that a node writes for it (one head row per live raw row out of the ring, the compressed rows, two planes of compressor state, and for ratio 4 the index rows and their two planes), or an overflow is reported |
| KvCaches.RingHolds | ds4_distributed.c:4611-4654 | rows stored from a position on are in the ring at their slots, and every other slot is as it was |
| KvCaches.RowsByPosition | ds4_distributed.c:4611-4654 | the slot of a position is the position modulo the size of the ring, for writing and for reading |
| KvCaches.LayerIsRestored | ds4_distributed.c:7119-7140 | reading a layer undoes writing it, whatever the reader held before, whatever the sizes of the two rings, and whatever follows |
| KvCaches.LayerWrittenAgain | ds4_distributed.c:5079-5203 | a layer that was restored is written again as the same bytes if and only if the node can keep every compressed float that it was given: always where it keeps floats, and exactly the floats that halves hold where it keeps halves |
| KvCaches.HalvesSurvive | ds4_distributed.c:818-876 | halves that travel between nodes that keep halves do survive, except NaN codes other than the canonical one |
| KvCaches.WrittenShardIsAccepted | ds4_distributed.c:4679-4791 | the coordinator accepts the shard that a node writes, as what was written |
| KvCaches.WrittenRouteIsSaved | ds4_distributed.c:5079-5210 | what the nodes of a route send under one layout is always gathered |
| KvCaches.WrittenShardIsRestored | ds4_distributed.c:7119-7140 | another node of the same layers that the header and the counts fit takes the shard, cut into the layers that were written, and restores every cache from it to the last byte |
| KvCaches.ShardWrittenAgain | ds4_distributed.c:5079-5203 | the restored node writes the same layers again if and only if it could keep every compressed float of every layer |
| KvPayload.CutsWhatWasJoined | ds4_distributed.c:4611-4791 | cutting tensor bytes by the computed sizes undoes joining layers, leaving the rest |
| KvPayload.TotalIsJoined | ds4_distributed.c:4679-4791 | the summed sizes are the length of the tensors |
| KvPayload.ShardRoundTrip | ds4_distributed.c:4679-4791 | the shard a node writes is accepted and read back as layout, counts and tensors |
| KvPayload.RouteCoversIff | ds4_distributed.c:4878-4905 | the route validator accepts a list of ranges if and only if none is empty and together they name every layer once and in order |
| KvPayload.SavePayload | ds4_distributed.c:5079-5210 | succeeds if and only if the route covers all layers, every shard is acceptable and agrees with the first on layout, and the token count fits; the payload is then header, tokens, logits, counts and tensors in layer order |
| KvPayload.SaveIsTopologyNeutral | ds4_distributed.c:5079-5210 | whatever the route cuts the layers into, the gathered counts and tensors are those of the whole snapshot |
| KvRestore.NodeLoadsShard | ds4_distributed.c:7119-7140 | a node that the header fits takes a shard of its own layers and holds exactly them afterwards |
| KvRestore.LoadPayload | ds4_distributed.c:5212-5378 | succeeds if and only if the route covers all layers, the payload parses, every node takes its shard and no byte is left over; then the nodes hold what the specification says and the logits are those of the payload |
| KvRestore.SessionRoundTrip | ds4_distributed.c:5212-5320 | a saved payload parses back to the layout, tokens, logits, counts and tensors it was made of |
| KvRestore.RestoreGivesEachNodeItsLayers | ds4_distributed.c:4985-5378 | a payload saved over any route, loaded over any other route of nodes it fits, gives every node exactly its own layers' counts and tensor bytes and consumes the payload to the last byte |
| KvRestore.SaveAfterRestore | ds4_distributed.c:5079-5378 | saving again after such a restore produces shards of the same snapshot under the new nodes' layout, so the payload carries the same tokens, logits, counts and tensors |
| KvRestore.SavedTwice | ds4_distributed.c:4793-4817 | the two payloads are byte-identical if and only if the layout headers agree |
| KvAccepted.CutIsJoined | ds4_distributed.c:4985-5029 | layers cut off the front of a stream by their computed sizes are well-formed and join up to it again |
| KvAccepted.TotalCuts | ds4_distributed.c:4767-4785 | tensor bytes whose number is the summed size can always be cut into well-formed layers |
| KvAccepted.ShardAcceptedIff | ds4_distributed.c:4679-4791 | a shard is accepted for a range if and only if it is the printed form of well-formed layers of that range under a valid layout |
| KvAccepted.GatheredIffSnapshot | ds4_distributed.c:5079-5210 | the shards of a route can be gathered if and only if they are the parts of one snapshot; otherwise saving fails |
| KvAccepted.ParsedWasPrinted | ds4_distributed.c:5221-5318 | a payload that parses is the printed form of the layout, tokens, logits, counts and tensors it parses to, and meets every condition of a loadable one |
| KvAccepted.LoadsIffSaved | ds4_distributed.c:5212-5378 | a payload loads along a route if and only if it is the printed form of a snapshot of which every node can take its part |
| KvAccepted.SavedIsAcceptedIff | ds4_distributed.c:4671-4676 | the coordinator accepts the shard that a node saves if and only if the node has a window and a ring that holds the live part of it |
| KvAccepted.SavedLoadsIff | ds4_distributed.c:7119-7140 | a node takes the shard that another one saved of the same layers if and only if its context is at least as large and has room behind the tokens, both have the same window, both rings hold its live part, and the compressed rows fit |
| Formats.ShardFormat | ds4_distributed.c:4819-4854 | every field of a shard by its byte offset, in little-endian order, then row counts and tensors |
| Formats.SessionFormat | ds4_distributed.c:4793-4817 | the same for a session payload: thirteen words, tokens, logits, row counts, tensors |
| SnapshotChunks.SendChunks | ds4_distributed.c:5965-5992 | the send loop emits full chunks and a shorter last one |
| SnapshotChunks.ReceiveChunks | ds4_distributed.c:4522-4586 | the receive loop collects the specified payload or refuses |
| SnapshotChunks.ChunksRoundTrip | ds4_distributed.c:7060-7110 | for a payload of any size the receiver accepts what the sender emits, rebuilds the identical bytes and leaves the stream behind the last frame |
| SnapshotChunks.CollectedWasFramed | ds4_distributed.c:4522-4586 | whatever is accepted is a sequence of chunk frames of this request, each at most 8 MiB and the last one not empty, that concatenate to the payload |
| SnapshotChunks.FramedIsCollected | ds4_distributed.c:4522-4586 | every such sequence is accepted |
| SnapshotChunks.CollectedIffFramed | ds4_distributed.c:4522-4586 | the two together: a stream is accepted as a payload if and only if it starts with the payload in well-cut chunk frames of this request |
| SnapshotChunks.EmptyChunkIsAccepted | ds4_distributed.c:4522-4586 | among them streams that no sender makes: an empty chunk in front of the data |
| SnapshotChunks.FramesAreChunks | ds4_distributed.c:5965-5992 | the sender's frames carry between 1 byte and 8 MiB each, all full but the last |
| Formats.ChunkFormat | ds4_distributed.c:185-189 | every field of a chunk frame by its byte offset in network order, then the data |
| HalfFloat.EncodeRounds | ds4_distributed.c:818-848 | the bit manipulation lands between the midpoints around its code, for every finite float: normal, subnormal, underflow and overflow |
| HalfFloat.NearestCode | ds4_distributed.c:818-848 | such a code is nearest among all halves, with ties going to the even one |
| HalfFloat.EncodeIsCorrectlyRounded | ds4_distributed.c:818-848 | round to nearest, ties to even (section 4.3.1 of IEEE 754-2019): no half is closer, an odd result is strictly closest; the sign is kept, NaN stays NaN and nothing else becomes NaN, infinity stays infinity |
| HalfFloat.DecodeLoop | ds4_distributed.c:850-877 | the normalising loop computes the decoded bits |
| HalfFloat.DecodeIsExact | ds4_distributed.c:850-877 | halves embed exactly in floats: same sign, same magnitude, NaN to NaN, infinity to infinity |
| HalfFloat.ReencodeIsIdentity | ds4_distributed.c:818-876 | re-encoding a decoded half gives the same half if and only if it is not a NaN other than the canonical one |
| HalfFloat.SmallestNanIsLost | ds4_distributed.c:818-876 | the input that shows it: the half 0x7c01 comes back as 0x7e00 |
| HalfFloat.EncodePayload | ds4_distributed.c:925-964 | a payload of any length, encoded through a bounded buffer, is encoded value by value in order |
| HalfFloat.DecodePayload | ds4_distributed.c:966-1021 | and decoded value by value in order |
| HalfFloat.PayloadRoundTrip | ds4_distributed.c:925-1021 | re-encoding a decoded payload reproduces the wire words if and only if it holds no NaN other than the canonical one |
| TraceText.ReadsDecimal | ds4_eval.c:2681-2692 | a printed byte count is read back, with the number of digits consumed |
| TraceText.ReadsSigned | ds4_eval.c:3458-3461 | any count as strtoull reads it: behind white space and a sign, saturated at 2^64 - 1, and negated modulo 2^64 behind a minus sign |
| TraceBlocks.BlockIsSkipped | ds4_eval.c:3432-3469 | a printed counted block is skipped as a whole, whatever its text contains |
| TraceBlocks.OtherNamesAreNoBlock | ds4_eval.c:3444-3447 | a block whose name is empty or longer than 96 characters is not recognised |
| TraceBlocks.FindNextCase | ds4_eval.c:3471-3492 | the scanning loop finds the next header outside counted blocks |
| TraceBlocks.FindBlockBegin | ds4_eval.c:3494-3515 | the scanning loop finds the next line of a given name outside other counted blocks |
| TraceBlocks.RegradeTrace | ds4_eval.c:3615-3700 | the regrade loop extracts, case by case, what the specification extracts, every field through its buffer |
| TraceBlocks.CaseIsDelimited | ds4_eval.c:2774-2856 | a printed case starts with its header and reaches exactly to the next one, whether its texts are counted, and then arbitrary, or the output is only delimited and holds no case header or block marker |
| TraceBlocks.RegradesCases | ds4_eval.c:3615-3700 | the loop finds exactly the printed cases, in order |
| TraceBlocks.OutputRoundTrip | ds4_eval.c:3552-3587 | the model output of a printed case is copied back byte for byte: counted texts may hold anything, fake headers and markers included, and a text that is only delimited anything but the line that would end it |
| TraceBlocks.DelimitedRoundTrip | ds4_eval.c:3571-3574 | for every case whose output has no count, whatever its text and whatever follows: the text is copied up to its first line with the end marker, and so recovered exactly if and only if it holds no such line |
| TraceBlocks.CopySpan | ds4_eval.c:3423-3430 | copying a span into a buffer drops the line ends at its end and clips it to what leaves room for the final NUL |
| TraceBlocks.CopiedIs | ds4_eval.c:3423-3430 | the buffer holds as much of the span in front of its line ends as leaves room for the final NUL |
| TraceBlocks.GetLineField | ds4_eval.c:3517-3533 | the value of the first line with a key, as it ends up in its buffer |
| TraceBlocks.FieldRoundTrip | ds4_eval.c:3517-3533 | a metadata field of a printed case is read back whole if and only if it leaves room for the final NUL and does not end in a carriage return |
| TraceBlocks.ReturnIsLost | ds4_eval.c:3423-3430 | a field that ends in a carriage return loses it |
| TraceBlocks.CaseRoundTrip | ds4_eval.c:3615-3700 | source, id, status and picked answer of a printed case, clipped to their buffers, and its output whole; nothing is lost if and only if all fields fit |
| TraceBlocks.TraceRoundTrip | ds4_eval.c:2774-3700 | for any preamble and any list of cases with well-formed metadata lines, counted ones with arbitrary prompts and outputs among older ones whose output is only delimited, regrading finds exactly the printed cases, their outputs whole and their fields as their buffers hold them; a case is recovered as it was written if and only if all its fields fit |
| ThinkTags.ScanIsLossless | ds4_cli.c:373-417 | tags and visible characters together are the text |
| ThinkTags.ScanLeavesNoTag | ds4_cli.c:373-417 | no visible character starts a tag |
| ThinkTags.KnownEarly | ds4_cli.c:343-417 | whatever is decided before all text is there is decided as it would be with all of it, and the rest can be resumed |
| ThinkTags.PendingFits | ds4_cli.c:373-417 | the text that has to wait is at most 7 bytes, so the pending buffer never overflows, and nothing in it could have been decided |
| ThinkTags.StreamedIsScan | ds4_cli.c:373-435 | any pieces, then finishing, give the events of one pass over the whole text |
| ThinkPrinter.ShowIsTidy | ds4_cli.c:353-372 | colour is open exactly while thinking text is shown in colour, and is closed at a closing tag, which also ends the line |
| ThinkPrinter.ShowAllIsTidy | ds4_cli.c:353-435 | the same over every run of events |
| ThinkPrinter.TokenPrinter.constructor | ds4_cli.c:343-372 | a printer with nothing pending and nothing printed |
| ThinkPrinter.TokenPrinter.WriteChar | ds4_cli.c:367-371 | one visible character, in the style of the moment |
| ThinkPrinter.TokenPrinter.Process | ds4_cli.c:373-417 | feeding a piece shows exactly the events that are decided and keeps the rest pending |
| ThinkPrinter.TokenPrinter.WriteText | ds4_cli.c:437-444 | raw text is written through, formatted text is split |
| ThinkPrinter.TokenPrinter.Finish | ds4_cli.c:419-425 | what was pending is shown as plain text and colour is off |
| ThinkPrinter.TokenPrinter.GenerationDone | ds4_cli.c:419-443 | after a generation nothing is pending, colour is off and the line is complete |
| ThinkPrinter.TokenPrinter.PrintAll | ds4_cli.c:373-435 | chunking is invisible: any pieces print the bytes and colours of one pass over the whole text |
| ThinkPrinter.ThoughtIsPrinted | ds4_cli.c:353-435 | a thought between its tags and the answer behind it, neither holding a tag: the thought is printed in grey, the answer in the usual colour on a line of its own, and the tags are not |
| ThinkPrinter.EvalStream.constructor | ds4_eval.c:2222-2231 | an empty stream |
| ThinkPrinter.EvalStream.AppendVisible | ds4_eval.c:2232-2235 | text and styles grow together |
| ThinkPrinter.EvalStream.AppendTokenText | ds4_eval.c:2237-2279 | a piece appends exactly the decided events; text and style buffers stay the same length |
| ThinkPrinter.EvalStream.RecordAll | ds4_eval.c:2222-2279 | any pieces record the text and styles of one pass |
| ThinkPrinter.ThoughtIsRecorded | ds4_eval.c:2232-2271 | a thought between its tags and the answer behind it are recorded without the tags and with a newline between them, in style 1 as far as the thought goes and in style 0 from there on |

## Left out

- PlanCache.Planner.EnsureRoute: claims nothing about the registry when 2^64 or more changes lie between building a plan and reusing it, because the counter wraps.
- PlanCache.SortWorkersSorts: the library sort is modelled by an insertion sort; every theorem about the search holds for any order the comparison allows.
- KvRestore.LoadPayload: says nothing about what nodes hold after a load that failed; shards are installed before the trailing-bytes check (`ds4_distributed.c:5322-5365`).
- KvRestore.SaveAfterRestore: is about the bytes that a node took, and takes them to be saved as they were; `KvCaches.ShardWrittenAgain` says when caches that keep compressed rows as halves really save them so.
- DistSession.DistSession.Sync: when the prompt is already there no worker is contacted (`ds4_distributed.c:5523`), and nothing is claimed about workers; a coordinator that covers all layers alone has no hops and is not modelled here.
- DistSession.DistSession.PipelinedAttempt: an interleaving is a parameter of the call; one that is not a complete run of the pipeline counts as a failure.
- DistSession.DistSession.Rebuild: workers that join or leave during the replay itself only matter to the next call and are not modelled; whether a connection of a route is up, and what its workers hold, are parameters.
- PipelineProgress.PipelineNeverSticks: is about the three coordinator threads; when the workers' threads end too is the subject of `WorkersEndUnlessStranded`.
- Other connections: what they send are frames as coordinators build them, shards and clears, each one atomic step under the worker's session lock; frames whose position 0 does not go with the hash of the empty prefix are covered by `EvaluatedOnRightPrefix` and `LeftOverFrame`, but not by the theorems about whole calls.
- Forwarders: a hop's relay runs from the start of the model, where the code creates it at the first forward; until then it has nothing to pass on, and the model only allows one failure more: the relay may notice a lost downstream socket before anything was sent there.
- TraceBlocks.TraceRoundTrip: metadata lines are arbitrary lines without a block or case marker rather than the printer's own wording, and so are the prompts of a case that is only delimited; counted texts are shorter than 2^64 bytes and hold no NUL.
- Sockets: a socket is two FIFO channels of whole frames and a flag that says whether it is up; partial reads, name resolution, connection retries and socket options are left out.
- Descriptor numbers: connections are fresh identities; `dist_coordinator_forget_route_workers` closes a descriptor that a monitor thread closes again later, and nothing is claimed about reuse.
- Allocation failures, temporary files, error texts, timing, telemetry and progress reports.
- The worker registry's lock and its condition variables: each registry operation is one atomic step, as it is under the lock.
- The 8-bit activation codec (`ds4_distributed.c:879-923`): it rests on floating-point library calls; with 8-bit activations the wire function of `Prefill` stays abstract.
- Engine internals: graphs, sampling, speculative decoding; the model of a node's own layer payload only covers what the shard format fixes.
- Handshake frames and option checks: the checks of `ds4_distributed.c:4166-4250` appear as the predicate that registered workers satisfy.
- Grading and answer extraction, the evaluation driver and its case tables, the terminal interface, option parsing and the REPL: they have no crisp specification or would only add easy members.
- `dist_json_utf8_valid` and the dump writers of the coordinator.
