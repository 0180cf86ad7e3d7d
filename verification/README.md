# Host protocols of the streaming text-to-speech runtime

The runtime generates speech on the GPU and hands PCM to its caller through a mutex-protected
request, a bounded ring of chunks and leases. This project models the host code around the GPU
work, and the one kernel that decides on text progress, and proves what its callers rely on: which
streams a request accepts, what a consumer receives in every interleaving, how far text alignment can
wander, who owns which handle, when graph memory is accounted for, and that several pairs of
independent implementations agree.

Each stateful object appears twice: as a value with a total function for every operation
(`Request`, `Alignment`, `HandleTree`, `GraphAccounting`), and as a class whose methods run the
statements of the original and end in exactly the state and answer of that function. The table of
`HandleApi` holds the request objects of `RequestState` and calls their methods. Whole-run theorems
are proved about the functions, over every sequence of operations, failures included. What each
operation does is also stated without naming its function: exactly when it succeeds, what it then
changes, and what a refusal leaves.

| files | what they model |
|---|---|
| `Request`, `RequestState`, `RequestRuns`, `RequestGuarantees` | the streaming request: ring, leases, revision, cancellation, failure, and all its runs |
| `StreamMonitor`, `MonitorRefinement` | the smoke tool's consumer-side monitor, and the refinement between the two sides |
| `OutputCapacity`, `PinnedSlot`, `StartupDrain`, `AsyncPipeline`, `AtomicCounters` | the producer's wait for ring space, the single pinned PCM buffer, the startup drain, the batch slots, the lock-free counters |
| `Emission`, `PipelineRuns` | how the pipeline turns decoder diagnostics into chunks, and publishes them |
| `Alignment`, `AlignmentController`, `SofiaController`, `AlignmentKernel`, `AlignmentRuns` | the alignment state machine, its C++ reference, its vectorised Python form and the device kernel, and all their runs |
| `HandleTree`, `HandleApi`, `HandleTreeRuns`, `HandleAnswers`, `HandleStreams` | runtime, model, session, request and lease handles of the C boundary, what each call answers, and what callers receive through them |
| `GraphAccounting`, `GraphSession`, `GraphRuns`, `GraphAnswers`, `GraphCharges`, `GraphExposure` | CUDA-graph memory accounting across sessions that share one mutex |
| `GoldenCapture`, `TensorNames`, `EngineProfiles`, `DuplicateKeys`, `Utf8` | chunk reassembly, name tables, optimization profiles, duplicate-key detection, UTF-8 |

Findings. Where a promise does not hold on all inputs, the exact condition is proved:

- The producer checks text events against frames of 1024 samples, the monitor against decoder
  steps of 2048. The monitor accepts a run if and only if every delivered chunk conforms
  (`ProducerRefinesMonitor`); `HalfStepEventRejected` is a run that it rejects. The pipeline itself
  emits only step-aligned events (`SynthesisIsLegalStream`).
- `fail` accepts status and stage values that the monitor rejects, and messages that begin with
  NUL (`AcceptedFailureIsPublic`, `UndeclaredFailuresRejected`).
- Published PCM is not copied. A source comment says that a ring above eight frames would let the
  next decode overwrite a chunk still being read; the exact threshold is twelve frames
  (`GrantFreesBuffer`, `LargerRingSharesBuffer`), so the shipped ring of eight is safe.
- The device kernel runs one block of 256 threads, each of which lights at most the prior position
  of its own number, while texts of up to 512 tokens are admitted. Its prior equals the reference's
  if and only if no unmasked lit position lies at 256 or beyond (`KernelPriorExact`), and it covers
  the next search if and only if the search window ends by position 256 (`KernelCoverExact`).
  `LongTextUncovered` is a run, for every text of at least 260 tokens, that gets past it.
- A lease call that cannot store its metadata reports failure, but its chunk is gone; no other
  failing call loses a chunk (`ChunkLostExactly`). What callers receive and what is still queued
  make up the published stream if and only if no such call occurred (`StreamReachesCaller`); what
  they received is a prefix of it if and only if nothing was received after a dropped chunk
  (`ReceivedPrefix`).
- With no ignored terminal token the alignment never reports an end
  (`NothingIgnoredNeverFinishes`), and with sink threshold zero the prior covers the next search
  only where there is nothing to search or epsilon is 1.0 (`PriorCoverExact`,
  `ZeroThresholdUncovered`). Both concern the bare constructor: the manifest pins three ignored
  tokens and threshold four (src/manifest/manifest.cpp:2012 and 2047).
- Graph accounting arms its request scope before it locks the shared mutex. A scope is open without
  the mutex if and only if its session's last failed lock has not been followed by an abort, a
  settling launch or the session's end (`ExposedExactly`); `FailedLockNeedsAbort` is such a run of
  two sessions, and callers that abort after a failed lock always measure under the mutex
  (`AbortingRunsMeasureUnderMutex`).

## Model

| member | source | states |
|---|---|---|
| RequestState.LeaseIdSequence.Acquire | src/runtime/request_state.cpp:211-228 | Hands out the next identifier once, or reports exhaustion without moving. |
| RequestState.StreamingRequestState.constructor | src/runtime/request_state.cpp:230-244 | A new request is running, at revision 1, with an empty ring and no lease. |
| RequestState.StreamingRequestState.ValidateChunk | src/runtime/request_state.cpp:256-372 | The chain of checks reaches the declarative verdict: lifecycle first, then shape, ring space, progress, and the first offending event with its index. |
| RequestState.StreamingRequestState.PublishChunk | src/runtime/request_state.cpp:374-403 | A cancelled request drops the chunk, a rejected chunk changes nothing, an accepted one is queued last and advances every counter. |
| RequestState.StreamingRequestState.DiscardUnleased | src/runtime/request_state.cpp:405-415 | Discarding takes exactly the queued frames off the ring, and stops where the subtraction would underflow. |
| RequestState.StreamingRequestState.Cancel | src/runtime/request_state.cpp:431-448 | Cancellation is accepted on running and cancelled requests only, and empties the queue once. |
| RequestState.StreamingRequestState.CompleteCancellationAfterDrain | src/runtime/request_state.cpp:417-467 | Only an accepted cancellation can complete, and it becomes the CANCELLED terminal state with its fixed diagnostic. |
| RequestState.StreamingRequestState.FailRequest | src/runtime/request_state.cpp:469-495 | A declared failure of a running request becomes terminal; every other call is refused unchanged. |
| RequestState.StreamingRequestState.PollRevision | src/runtime/request_state.cpp:497-537 | A wait ends exactly when the revision has moved past the given one, with the snapshot whose meaning SnapshotTells gives. |
| RequestState.StreamingRequestState.AcquireAudio | src/runtime/request_state.cpp:539-580 | The oldest chunk moves from the queue to a lease under a fresh identifier, or nothing changes. |
| RequestState.StreamingRequestState.ReleaseAudio | src/runtime/request_state.cpp:582-602 | Releasing a live lease gives back exactly its frames; an unknown one is refused. |
| RequestRuns.VerdictMeansAdmissible | src/runtime/request_state.cpp:256-372 | Validation accepts a chunk if and only if the request runs, the chunk fits, and it is admissible at its place in the schedule. |
| RequestRuns.DiscardExact | src/runtime/request_state.cpp:405-415 | While the ring holds at least the queued frames, discarding never underflows and leaves exactly the other frames. |
| RequestRuns.StepInv | src/runtime/request_state.cpp:246-602 | Every operation of producer, consumer and canceller keeps the ring sum, the schedule, the published counters and first-in-first-out delivery. |
| RequestRuns.RunInv | src/runtime/request_state.cpp:246-602 | The same holds after any sequence of operations. |
| RequestRuns.NextLeaseFresh | src/runtime/request_state.cpp:539-580 | The next identifier is never live, so the reused-identifier failure cannot happen. |
| RequestGuarantees.RingConservation | src/runtime/request_state.cpp:246-602 | In every reachable state occupied frames are the queued plus the leased ones and fit the ring, no accounting failure is reachable, and an idle ring takes any chunk of 1 to 8 frames. |
| RequestGuarantees.QueueFrames | src/runtime/request_state.cpp:285-310 | All queued chunks but the last carry at least four frames, so the available-lease count always fits its field. |
| RequestGuarantees.VersionStamp | src/runtime/request_state.cpp:469-521 | Equal revisions mean equal states, counters never fall, and a terminal state with its diagnostic is immutable. |
| RequestGuarantees.CancellationSafety | src/runtime/request_state.cpp:374-467 | After an accepted cancellation, whatever follows: nothing is published or delivered, counters stand still, leases stay releasable, and the request never completes. |
| RequestGuarantees.CancellationAccepted | src/runtime/request_state.cpp:431-448 | Which requests accept a cancellation, that publication is closed at once, and that a second cancellation changes nothing. |
| RequestGuarantees.CancellationCompletes | src/runtime/request_state.cpp:457-467 | The worker's completion is accepted exactly on a running request whose cancellation was accepted, which it ends with its leases still counted; otherwise nothing changes. |
| RequestGuarantees.CancelledRunEnds | src/runtime/request_state.cpp:431-467 | Cancelled, then anything, then completed by its worker, a request is terminal for good: CANCELLED with its fixed diagnostic, unless it failed in between. |
| RequestGuarantees.FirstFailureKept | src/runtime/request_state.cpp:469-495 | Which failures are accepted, and that the first accepted one keeps status, stage and message in every continuation and publishes nothing more. |
| RequestGuarantees.SnapshotTells | src/runtime/request_state.cpp:497-516 | In every reachable state a snapshot's available audio is what was published and not delivered, nothing after a cancellation or failure; its text and sample counts are the stream's; it shows COMPLETED exactly on a whole stream; and a lease call succeeds exactly when it shows audio and an identifier is left. |
| RequestGuarantees.FreshSnapshot | src/runtime/request_state.cpp:230-244 | What a new request shows: revision 1, running, nothing available and nothing counted. |
| RequestGuarantees.RevisionWakes | src/runtime/request_state.cpp:523-537 | From any point of any run, a wait on a snapshot's revision is over exactly when the request has changed since. |
| RequestGuarantees.PublicationExact | src/runtime/request_state.cpp:374-403 | A chunk is published exactly when nobody cancelled, the stream stays legal with it, and the ring has room; any other call changes nothing. |
| RequestGuarantees.RefusalNamesFirstFault | src/runtime/request_state.cpp:256-372 | Which error each refused chunk gets, and that a reported event index is the first offending one. |
| RequestGuarantees.CanPublishExact | src/runtime/request_state.cpp:246-254 | Ring space is there exactly for 1 to the free frames, on a running request nobody has cancelled. |
| RequestGuarantees.ReleaseExact | src/runtime/request_state.cpp:582-602 | A live lease is given back once, with exactly its frames; afterwards, in every continuation, it is as unknown as one never handed out. |
| RequestGuarantees.EventsOnlyAdvance | src/runtime/request_state.cpp:333-372 | Over a whole stream every text event lies on a codec frame inside its own chunk, and every later one, in whichever chunk, has a later sample and more text. |
| RequestGuarantees.StreamSchedule | src/runtime/request_state.cpp:256-310 | Chunk k of every stream starts at its place of the 4-8-8 schedule, FIRST only at 0 and FINAL only at the end. |
| RequestGuarantees.DeliveredPrefix | src/runtime/request_state.cpp:374-580 | Delivered chunks are a contiguous prefix of the published ones under increasing identifiers, and all of them once a completed request is drained. |
| StreamMonitor.Monitor.ValidateLease | tools/runtime_smoke.cpp:973-1188 | The monitor accepts exactly the leases that meet the declarative geometry and progress rules, and then advances its books. |
| StreamMonitor.Monitor.CheckGeometry | tools/runtime_smoke.cpp:985-1086 | Identifier order, pointer presence, sizes, flags, schedule, frame limit and finite PCM. |
| StreamMonitor.Monitor.CheckProgress | tools/runtime_smoke.cpp:1088-1162 | Text progress advances strictly, on decoder steps or at the end of the FINAL lease, within the event-count bound. |
| StreamMonitor.Monitor.ValidateSnapshot | tools/runtime_smoke.cpp:836-971 | A snapshot is accepted exactly when its counters, diagnostic and relation to the previous one are in order. |
| MonitorRefinement.ProducerRefinesMonitor | tools/runtime_smoke.cpp:973-1188 | Over every run the monitor accepts the delivered leases if and only if every chunk conforms, and its books then equal the producer's. |
| MonitorRefinement.MonitorAcceptsExactly | tools/runtime_smoke.cpp:973-1188 | Whatever leases it is shown, the monitor accepts them all if and only if their identifiers rise, pointers are there exactly where data is, and their chunks form a legal stream that conforms; its books are then that stream's. |
| MonitorRefinement.SnapshotsAcceptedExactly | tools/runtime_smoke.cpp:836-971 | Whatever snapshots it is shown, it accepts them all if and only if each is in order by itself and follows every earlier one, not only its predecessor. |
| MonitorRefinement.AcceptedSnapshotMeans | tools/runtime_smoke.cpp:836-917 | What an accepted snapshot tells: consistent counters within their limits, and exactly the diagnostic of its phase. |
| MonitorRefinement.EventsFitSteps | tools/runtime_smoke.cpp:1112-1120 | Step-aligned strictly advancing events never exceed one per 2048 samples, so the monitor's count bound follows. |
| MonitorRefinement.HalfStepEventRejected | src/runtime/request_state.cpp:339-361 | A concrete published and delivered chunk that the monitor rejects. |
| MonitorRefinement.DrainedStreamMatchesSnapshot | tools/runtime_smoke.cpp:1618-1645 | After completion and a full drain the final snapshot is COMPLETED, shows no audio left, and equals the consumer's samples, frames and tokens. |
| MonitorRefinement.AllSnapshotsAccepted | tools/runtime_smoke.cpp:836-971 | For a monitor that starts with the request, over every run and every way of polling and waiting, all snapshots are accepted exactly when every observed state is within the frame limit and carries a public diagnostic. |
| MonitorRefinement.EverySnapshotAccepted | tools/runtime_smoke.cpp:836-971 | The same from the middle of a run, after any operations since the last accepted snapshot. |
| MonitorRefinement.AcceptedFailureIsPublic | src/runtime/request_state.cpp:469-495 | Which accepted failures the consumer can accept: declared status, declared stage, a message that survives as a C string. |
| MonitorRefinement.TerminalFailures | src/runtime/request_state.cpp:469-481 | The failures the monitor knows are exactly those `fail` lets through among the fifteen declared statuses, and `fail` lets through no others but undeclared ones. |
| MonitorRefinement.PublicMessageExact | src/api/magpie_tts_rt.cpp:1137-1145 | A consumer sees a message up to its first NUL or 511 characters, and nothing exactly of one that is empty or begins with NUL. |
| MonitorRefinement.UndeclaredFailuresRejected | src/runtime/request_state.cpp:469-495 | Two concrete failures the request accepts and the monitor rejects. |
| OutputCapacity.AwaitOutputCapacity | src/runtime/async_pipeline_contract.hpp:33-62 | The polling loop is where the step relation says after the states its callbacks found; ProducerReturns, FullRequestSleeps and GrantedSpaceStays say what that means. |
| OutputCapacity.LoopFollowsItsLooks | src/runtime/async_pipeline_contract.hpp:33-62 | Interleaved with any other operations, the producer is where its loop is after the states it has found. |
| OutputCapacity.NoLostWakeUp | src/runtime/async_pipeline_contract.hpp:33-62 | In every interleaving, a producer asleep although space or a cancellation is there has a newer revision pending. |
| OutputCapacity.SleepIsJustified | src/runtime/async_pipeline_contract.hpp:33-62 | Asleep on a current revision, a running request really is full and uncancelled. |
| OutputCapacity.ProducerReturns | src/runtime/async_pipeline_contract.hpp:33-62 | From wherever it stands, asleep included, the producer returns within five of its own looks once there is room or a cancellation, however its callers interleave: false after a cancellation, true without one. |
| OutputCapacity.FiveLooksEnough | src/runtime/async_pipeline_contract.hpp:44-61 | Undisturbed, five looks take it from any place to true if there is room and to false if it was cancelled. |
| OutputCapacity.FullRequestSleeps | src/runtime/async_pipeline_contract.hpp:44-60 | With neither there, five looks take it from its first poll into a wait on the current revision. |
| OutputCapacity.GrantedSpaceStays | src/runtime/request_state.cpp:311-316 | Granted space is still there at the next publication, whatever others did; a refusal means a cancellation. |
| PinnedSlot.GrantFreesBuffer | src/runtime/synthesis_pipeline.cpp:1250-1257 | With a ring below twelve frames nothing is queued or leased once eight frames are granted, so the next decode overwrites no chunk that can still be read. |
| PinnedSlot.LargerRingSharesBuffer | src/runtime/synthesis_pipeline.cpp:1250-1257 | With any ring of twelve frames or more the next decode is admitted while the first chunk is still queued. |
| StartupDrain.DrainComplete | src/runtime/startup_gate_drain.hpp:18-94 | The wrapper ends only after its producer, a drain error wins over a producer error, and otherwise every published chunk was acquired and released once, in order, leaving nothing behind. |
| StartupDrain.DrainFailsOnlyExhausted | src/runtime/startup_gate_drain.hpp:18-45 | The drain itself fails only when lease identifiers run out. |
| StartupDrain.DrainTerminates | src/runtime/startup_gate_drain.hpp:18-45 | Once the producer is done every step of the drain brings its end closer. |
| StartupDrain.StartupEnds | src/runtime/startup_gate_drain.hpp:18-94 | Every startup ends: whatever happened before, once the producer has ended, the drain's own steps finish the wrapper, with a drain error exactly if there was one or the identifiers do not reach through the queue, else the producer's error exactly if there is one. |
| StartupDrain.ThrowCancels | src/runtime/startup_gate_drain.hpp:60-94 | A drain that throws cancels the request it was draining and goes on to join the producer, and a drain error is then certain. |
| AsyncPipeline.BatchesConserved | src/runtime/async_pipeline_contract.hpp:66-117 | Over every call sequence each scheduled batch is in generation or has reached the codec, and each codec batch is in the codec or waited for. |
| AsyncPipeline.SlotsGoRound | src/runtime/async_pipeline_contract.hpp:66-117 | Over every call sequence each slot goes through its four stages in order, over and over; a call is let through exactly when its slot is at its stage, and all counters are those of the rounds made. |
| AsyncPipeline.PipelineNeverMisuses | src/runtime/synthesis_pipeline.cpp:319-367 | However many batches the pipeline makes and wherever it stops, none of its slot calls is refused, and a generation pending at the end can be settled. |
| AsyncPipeline.AsyncPipelineContract.ScheduleGenerationBatch | src/runtime/async_pipeline_contract.hpp:66-75 | A slot is scheduled only when unused or released; otherwise nothing changes. |
| AsyncPipeline.AsyncPipelineContract.MarkGenerationReady | src/runtime/async_pipeline_contract.hpp:77-84 | Only a pending generation becomes ready. |
| AsyncPipeline.AsyncPipelineContract.ScheduleCodecBatch | src/runtime/async_pipeline_contract.hpp:86-95 | Only a ready generation goes to the codec. |
| AsyncPipeline.AsyncPipelineContract.QueueReuseDependency | src/runtime/async_pipeline_contract.hpp:107-115 | Only a slot in the codec gets a reuse dependency. |
| AtomicCounters.LeaseIdentifiersUnique | src/runtime/request_state.cpp:211-228 | Under any interleaving of the exchange loops, spurious failures included, the identifiers handed out are strictly increasing and stop before the maximum. |
| AtomicCounters.InterleavedIsSequential | src/runtime/request_state.cpp:211-228 | After any interleaving the identifiers handed out, and the next one, are what that many calls one after the other hand out: no gap, no repetition. |
| AtomicCounters.ExchangeOrOvertaken | src/runtime/request_state.cpp:211-228 | A thread that loads and then exchanges without a spurious failure gets the value it loaded, unless it was the last or somebody else changed the counter in between. |
| AtomicCounters.ReservationsBounded | src/api/magpie_tts_rt.cpp:320-334 | Under any interleaving the bounded counter equals the reservations taken and not given back, and never exceeds its maximum. |
| AtomicCounters.ReservationsFresh | src/api/magpie_tts_rt.cpp:320-334 | From the start: the counter is the number of reservations taken less those given back, within the maximum. |
| Emission.AwaitBatch | src/runtime/synthesis_pipeline.cpp:779-885 | A batch is accepted when payload and decoder are in order, every step is valid, those after EOS included, and an exhausted context ended in EOS; it carries the steps up to EOS and the frames before it. Which fault is reported otherwise. |
| Emission.BuildEvents | src/runtime/synthesis_pipeline.cpp:1196-1247 | One event per step that plays audio and advances the text; a terminal prefix beyond its frames is an invariant failure. |
| Emission.EventsReachFurthest | src/runtime/synthesis_pipeline.cpp:1196-1247 | The progress after any number of steps is the furthest text position attended in a step that plays audio, counted as spoken, or what was committed before. |
| Emission.EventsAreAdvances | src/runtime/synthesis_pipeline.cpp:1196-1247 | The events are exactly one for each step that plays audio and gets further in the text than all before it, at the sample where its audio ends. |
| Emission.EmittedChunkAdmissible | src/runtime/synthesis_pipeline.cpp:1159-1275 | Every emitted chunk is admissible where it is emitted, with events on decoder steps or at the FINAL end. |
| Emission.SynthesisIsLegalStream | src/runtime/synthesis_pipeline.cpp:300-365 | The chunks of well-shaped batches, an initial one and then steady ones up to the first FINAL, form a legal stream whose events the monitor accepts. |
| Emission.SynthesisTellsText | src/runtime/synthesis_pipeline.cpp:300-365 | After any number of batches the committed text is the furthest that any step played so far has reached. |
| Emission.ChunkTellsText | src/runtime/synthesis_pipeline.cpp:1196-1270 | Each chunk carries its batch's PCM and the events of its batch's advances over everything before. |
| Emission.SynthesisNeverRejected | src/runtime/synthesis_pipeline.cpp:902-912 | Publishing the pipeline's next chunk can only fail for lack of ring space. |
| PipelineRuns.DecodedStreamLegal | src/runtime/synthesis_pipeline.cpp:300-365 | Whatever the decoder reports, as long as its two-step and four-step reports are accepted, the chunks form a legal stream with every event on a decoder step or at the FINAL end, and commit the text up to the furthest played position. |
| PipelineRuns.FirstChunkPublishes | src/runtime/synthesis_pipeline.cpp:319-325 | The first chunk is always accepted, though nothing waited for space. |
| PipelineRuns.GrantedChunkPublishes | src/runtime/synthesis_pipeline.cpp:902-912 | In every interleaving, once eight frames are granted the pipeline's next chunk is accepted, unless the request was cancelled or failed meanwhile. |
| AlignmentController.AlignmentControllerReference.constructor | src/runtime/alignment_controller.cpp:57-76 | A new controller stands at the initial position with all counters zero. |
| AlignmentController.AlignmentControllerReference.Advance | src/runtime/alignment_controller.cpp:78-185 | One step equals the step function; wrong length and non-finite scores change nothing, an overflowing counter is reported after the position moved. |
| AlignmentController.AlignmentControllerReference.Search | src/runtime/alignment_controller.cpp:93-129 | The attended position is the leftmost maximum of the search window, or the last position when it is empty. |
| AlignmentController.AlignmentControllerReference.BuildPrior | src/runtime/alignment_controller.cpp:140-178 | The prior is 1.0 exactly on unmasked lit positions of the conditional row, epsilon elsewhere. |
| SofiaController.SofiaAlignmentController.UpdateState | tools/export/alignment_controller.py:64-147 | The masked argmax and scatter form makes the same step as the step function. |
| SofiaController.SofiaAlignmentController.ScatterPrior | tools/export/alignment_controller.py:110-146 | The scattered and masked rows are the same prior. |
| AlignmentRuns.RunBoth | tools/export/alignment_controller.py:64-147 | Both controllers, over every text of at least four tokens and every score sequence, attend to the same positions with the same counters and priors. |
| AlignmentRuns.UnfinishedBounded | src/runtime/alignment_controller.cpp:93-138 | Whatever the scores, text is reported unfinished at most threshold times content length often, given an ignored terminal token. |
| AlignmentRuns.NothingIgnoredNeverFinishes | src/runtime/alignment_controller.cpp:180-184 | With no ignored token no step ever reports an end. |
| AlignmentRuns.AttentionMonotone | src/runtime/alignment_controller.cpp:93-138 | Attended positions never fall, no position short of the last is attended more often than the cap, and a finished text stays finished at the last position. |
| AlignmentRuns.PriorSupportsNextSearch | src/runtime/alignment_controller.cpp:140-178 | Every position the next step will search has conditional prior 1.0 in spite of the sink mask; everything at or below a sunk position and the unconditional row are epsilon. |
| AlignmentRuns.PriorIsOneStretch | src/runtime/alignment_controller.cpp:140-178 | The whole prior: 1.0 on one unbroken stretch from just behind the attended position to the lookahead, or on all of a short text, less what is sunk; epsilon elsewhere. |
| AlignmentRuns.ZeroThresholdMasksEverything | src/runtime/alignment_controller.cpp:166-178 | With threshold zero the whole prior is epsilon. |
| AlignmentRuns.PriorCoverExact | src/runtime/alignment_controller.cpp:140-178 | A step's prior covers the next search exactly under a positive threshold, an empty window or epsilon 1.0. |
| AlignmentRuns.ZeroThresholdUncovered | src/runtime/alignment_controller.cpp:166-178 | A concrete first step under threshold zero whose next window is not empty and not lit. |
| AlignmentKernel.DeviceController.Launch | src/runtime/alignment_kernel.cu:16-153 | A launch on finite scores makes the reference's step in place; unlaunchable contracts change nothing, non-finite scores and a full counter are reported. |
| AlignmentKernel.DeviceController.Decide | src/runtime/alignment_kernel.cu:26-107 | The first thread attends to the reference's position and finds the deepest sunk one. |
| AlignmentKernel.DeviceController.WritePrior | src/runtime/alignment_kernel.cu:109-153 | The block clears both rows and lights the unmasked positions numbered by its threads, and no others. |
| AlignmentKernel.KernelPriorExact | src/runtime/alignment_kernel.cu:123-153 | The device's prior is the reference's if and only if the last lit position is below 256 or masked, or epsilon is 1.0. |
| AlignmentKernel.KernelCoverExact | src/runtime/alignment_kernel.cu:123-153 | It covers the next search if and only if the window is empty or ends by 256, or epsilon is 1.0. |
| AlignmentKernel.LongTextUncovered | src/runtime/alignment_kernel.cu:9-11 | For every admitted text of at least 260 tokens, a run from the start that reaches an uncovered step. |
| HandleApi.HandleTable.ReserveBoundedCounter | src/api/magpie_tts_rt.cpp:320-334 | A slot is taken if and only if the counter is below its limit. |
| HandleApi.HandleTable.ReserveAndBuild | src/api/magpie_tts_rt.cpp:848-1073 | A reservation whose building fails is given back: the handles are as before. |
| HandleApi.HandleTable.LoadModel | src/api/magpie_tts_rt.cpp:577-616 | A loaded model is counted at its runtime; a failed load leaves the tree as it was. |
| HandleApi.HandleTable.CreateSession | src/api/magpie_tts_rt.cpp:848-1073 | Whatever fails after the reservation, the slot is given back and the tree is as before; success adds one counted session. |
| HandleApi.HandleTable.Destroy | src/api/magpie_tts_rt.cpp:704-737 | An owner with live children is busy; otherwise the handle goes and its owner counts one less. |
| HandleApi.HandleTable.FinishStart | src/api/magpie_tts_rt.cpp:1389-1477 | Early failures reserve nothing, late ones give the slot back, success adds a counted running request. |
| HandleApi.HandleTable.DestroyRequest | src/api/magpie_tts_rt.cpp:1632-1674 | Only a terminal request without leases or metadata is destroyed, after its worker ended. |
| HandleApi.HandleTable.AcquireAudio | src/api/magpie_tts_rt.cpp:1676-1813 | Metadata and lease appear together; a failed store releases the lease, an exhausted or reused identifier poisons the session. |
| HandleApi.HandleTable.ReleaseAudio | src/api/magpie_tts_rt.cpp:1815-1867 | Metadata and lease disappear together; an identifier without metadata is refused. |
| HandleApi.HandleTable.Cancel | src/api/magpie_tts_rt.cpp:1604-1630 | Only a running or cancelled request is cancelled, through its own object; no other handle notices. |
| HandleApi.HandleTable.FailRequestWorker | src/api/magpie_tts_rt.cpp:1170-1188 | The poison flag is set before the failure is recorded, and a rejected failure poisons too. |
| HandleTreeRuns.TreeConsistent | src/api/magpie_tts_rt.cpp:848-1867 | In every run through every failure: counters equal live children, no handle outlives its owner, metadata are exactly the live leases, no lease identifier is reused or shared. |
| HandleTreeRuns.StepInv | src/api/magpie_tts_rt.cpp:437-1867 | Each call and each worker step keeps all of that. |
| HandleTreeRuns.DestroyOnlyChildless | src/api/magpie_tts_rt.cpp:1076-1120 | A destroy is busy if and only if something is owned, whatever else would fail; otherwise it succeeds unless CUDA fails, and removes that one handle. |
| HandleTreeRuns.NoStartOnPoisonedSession | src/api/magpie_tts_rt.cpp:1380-1436 | A start past its poison check succeeds only on an idle session, which is then not poisoned, whatever workers did in between. |
| HandleTreeRuns.PoisonedSessionStaysDead | src/api/magpie_tts_rt.cpp:1380-1387 | A poisoned session that lost its request never owns one again in any continuation. |
| HandleAnswers.LoadAnswers | src/api/magpie_tts_rt.cpp:577-602 | A runtime is created and a model loaded unless something outside fails: one new counted handle and nothing else, or no change. |
| HandleAnswers.CreateSessionAnswers | src/api/magpie_tts_rt.cpp:848-1073 | A session is created exactly when the model owns fewer than it may and nothing fails; it is busy exactly when it owns as many. |
| HandleAnswers.ModelWithinItsLimit | src/api/magpie_tts_rt.cpp:848-1073 | In every continuation a loaded model never owns more sessions than it was loaded for. |
| HandleAnswers.CheckStartAnswers | src/api/magpie_tts_rt.cpp:1380-1387 | A start gets past its check exactly on a session that is not poisoned. |
| HandleAnswers.FinishStartAnswers | src/api/magpie_tts_rt.cpp:1389-1477 | It then succeeds exactly on an idle session if tokens and building are in order, with a fresh running request. |
| HandleAnswers.CancelAnswers | src/api/magpie_tts_rt.cpp:1604-1630 | A cancellation succeeds exactly on running and cancelled requests, empties a running one's queue, keeps its leases, and concerns no other handle. |
| HandleAnswers.DestroyRequestAnswers | src/api/magpie_tts_rt.cpp:1632-1674 | A request is destroyed exactly when it is over, no lease is out and its worker has ended; its session is then idle. |
| HandleAnswers.CancelledRequestGoes | src/api/magpie_tts_rt.cpp:1604-1674 | A cancelled request whose leases are back is destroyed with success once its worker has completed the cancellation and ended. |
| HandleAnswers.AcquireAnswers | src/api/magpie_tts_rt.cpp:1676-1813 | All answers of a lease call, and that only used-up identifiers poison the session. |
| HandleAnswers.PoisonedExactly | src/api/magpie_tts_rt.cpp:1170-1188 | Over every run a session is poisoned exactly when a worker said so, a failure could not be recorded as asked, or identifiers ran out. |
| HandleTreeRuns.AudioCallAnswers | src/api/magpie_tts_rt.cpp:1676-1867 | The internal-error and reused-identifier answers never occur: what acquire and release answer in each reachable state. |
| HandleTreeRuns.LeaseAllOrNothing | src/api/magpie_tts_rt.cpp:1676-1813 | On success exactly one new identifier joins both metadata and leases, for the front chunk; on any other answer neither changes. |
| HandleTreeRuns.ChunkLostExactly | src/api/magpie_tts_rt.cpp:1706-1813 | A failing lease call takes a chunk off the queue if and only if only its metadata failed. |
| HandleTreeRuns.FailedMetadataDropsChunk | src/api/magpie_tts_rt.cpp:1706-1772 | Such a chunk is in neither queue nor lease any more, and its ring frames are free. |
| HandleStreams.RequestLivesItsOwnRun | src/api/magpie_tts_rt.cpp:1294-1867 | Every request in every run of the tree lives a run of its own over the shared lease sequence, so every guarantee of request runs holds at the C boundary. |
| HandleStreams.StreamReachesCaller | src/api/magpie_tts_rt.cpp:1676-1813 | While a request is neither cancelled nor failed, received and queued chunks make up the published stream if and only if no lease call of the run failed on its metadata. |
| HandleStreams.ReceivedPrefix | src/api/magpie_tts_rt.cpp:1676-1813 | Received chunks are a contiguous prefix of the published ones if and only if nothing was received after a dropped chunk. |
| GraphAccounting.Growth | src/runtime/cuda_graph_memory_accounting.hpp:20-46 | The charge covers the drop in free memory and the growth of all four graph-memory figures. |
| GraphAccounting.GrowthIsLeast | src/runtime/cuda_graph_memory_accounting.hpp:20-46 | It is the least charge that does. |
| GraphAccounting.FitsBudget | src/runtime/cuda_graph_memory_accounting.hpp:52-59 | The guarded subtraction admits exactly the sums within the limit. |
| GraphSession.MainDecoderCudaGraphSet.RecordEagerWarmup | src/runtime/main_decoder_cuda_graph.cpp:43-65 | One warm-up per direction, by a present context that is not the other direction's. |
| GraphSession.MainDecoderCudaGraphSet.Capture | src/runtime/main_decoder_cuda_graph.cpp:67-85 | Only a warmed direction is captured, in the context that warmed it, once. |
| GraphSession.MainDecoderCudaGraphSet.ResetChecked | src/runtime/main_decoder_cuda_graph.cpp:102-108 | Graphs are destroyed in order up to the first failure; warm-ups and identities go only if all succeed. |
| GraphSession.SessionResources.BeginCudaGraphMemoryAccounting | src/runtime/session_resources.cpp:647-659 | Startup accounting begins once, under the mutex; a failed query leaves the mutex owned. |
| GraphSession.SessionResources.BeginMainDecoderRequest | src/runtime/session_resources.cpp:520-532 | A request begins only with its accounting scope closed and drops the previous request's graphs. |
| GraphSession.SessionResources.CaptureNanoCodecGraph | src/runtime/session_resources.cpp:687-737 | Codec graphs are captured inside startup accounting, each in a context of its own. |
| GraphSession.SessionResources.CaptureMainDecoderGraph | src/runtime/session_resources.cpp:542-578 | The first capture of a request opens a scope, inside startup's or under its own lock. |
| GraphSession.SessionResources.LaunchMainDecoderGraph | src/runtime/session_resources.cpp:580-627 | The launch that finds both graphs ready measures them, checks the budget and closes the scope. |
| GraphSession.SessionResources.AbortMainDecoderRequest | src/runtime/session_resources.cpp:629-645 | Aborting an open scope drops the graphs and frees the mutex if it was owned. |
| GraphSession.SessionResources.FinalizeCudaGraphMemoryAccounting | src/runtime/session_resources.cpp:739-783 | Startup is accounted only with every graph ready and the total within the limit. |
| GraphRuns.NeverSelfLocks | src/runtime/session_resources.cpp:542-659 | Over every call sequence, failures included, no session locks the mutex it holds, and one that waits waits for another session. |
| GraphRuns.ReadyGraphsOwnTheirContexts | src/runtime/main_decoder_cuda_graph.cpp:43-108 | A ready Main Decoder graph has a warmed context distinct from the reverse one; codec graphs never share one. |
| GraphRuns.AccountedWithinBudget | src/runtime/session_resources.cpp:580-783 | An accounted session is within its limit, and every graph captured since the last measurement still has its scope open. |
| GraphCharges.SettlingExact | src/runtime/session_resources.cpp:580-627 | A launch closes a request's scope exactly when it measures and the growth it reads fits beside the explicit memory; it is then charged for at least that growth, and over budget changes nothing. |
| GraphCharges.FinalizingExact | src/runtime/session_resources.cpp:739-783 | Startup ends exactly when every graph is ready, no request scope is open and the measured growth fits, which is then the whole charge. |
| GraphCharges.ChargedForGreatestGrowth | src/runtime/session_resources.cpp:580-783 | Over every run an accounted session is charged the greatest growth it was ever measured with, all measured from the reading its accounting began with, and each of them fitted the budget. |
| GraphAnswers.NothingBeforeStartup | src/runtime/session_resources.cpp:542-783 | Until startup begins every capture, launch and end of startup is refused. |
| GraphAnswers.BeginAnswers | src/runtime/session_resources.cpp:647-659 | When startup begins, what each failure leaves, and that a failing reading keeps the mutex for good. |
| GraphAnswers.CaptureLocalAnswers | src/runtime/session_resources.cpp:661-685 | The Local AR graph is captured once, inside startup, and stays captured if its upload fails. |
| GraphAnswers.CaptureCodecAnswers | src/runtime/session_resources.cpp:687-737 | A codec graph is captured once, inside startup, in a present context no other codec graph has. |
| GraphAnswers.BeginRequestAnswers | src/runtime/session_resources.cpp:520-532 | A request begins without the graphs of the last one, unless its scope is open or a destruction fails, and what is left then. |
| GraphAnswers.WarmUpAnswers | src/runtime/session_resources.cpp:534-540 | A direction is warmed up once, by its own context, never the reverse one's. |
| GraphAnswers.CaptureMainAnswers | src/runtime/session_resources.cpp:542-578 | When a direction is captured, when that opens a scope and takes the mutex, and that both stay whatever fails later. |
| GraphAnswers.LaunchMainAnswers | src/runtime/session_resources.cpp:580-627 | Only ready graphs are launched; which launch closes which scope, and every answer. |
| GraphAnswers.AbortAnswers | src/runtime/session_resources.cpp:629-645 | An abort closes an open scope with its graphs and mutex, and does nothing without one. |
| GraphAnswers.FinalizeAnswers | src/runtime/session_resources.cpp:739-783 | When startup ends, and that a refused or failing end leaves it open to be tried again. |
| GraphExposure.CallExposure | src/runtime/session_resources.cpp:542-645 | One call leaves a scope open without the mutex exactly when it failed to lock for a capture, or the scope was so before and the call neither aborts nor settles it. |
| GraphExposure.ExposedExactly | src/runtime/session_resources.cpp:561-568 | Over every run: a scope is open without the mutex if and only if its session's last failed lock has not been followed by an abort, a settling launch or the session's end. |
| GraphExposure.OneOpenScope | src/runtime/session_resources.cpp:542-783 | Two sessions have open scopes at once only if one owes an abort; every other open scope is held with the mutex, which one session owns at most. |
| GraphExposure.MeasurementsUnderMutex | src/runtime/session_resources.cpp:598-627 | Over every run a request's measurement is made under the mutex if and only if its session owes no abort; exactly otherwise the unlock finds the mutex unowned. |
| GraphExposure.AbortingRunsMeasureUnderMutex | src/runtime/synthesis_pipeline.cpp:279-291 | Runs that abort after each failed lock measure under the mutex throughout. |
| GraphExposure.FailedLockNeedsAbort | src/runtime/session_resources.cpp:561-568 | A run of two started sessions: a failed lock without abort leads to a capture with both scopes open. |
| GraphExposure.AbortedLockWaits | src/runtime/session_resources.cpp:629-645 | In the same run with the abort in its place the capture waits. |
| GoldenCapture.StartupGoldenCapture.RecordChunk | src/runtime/startup_golden.cpp:608-657 | A chunk is accepted exactly when its dimensions fit and its PCM is finite, and then extends every codebook by its own row. |
| GoldenCapture.StartupGoldenCapture.FinishCapture | src/runtime/startup_golden.cpp:659-687 | An empty or inconsistent capture has no result; otherwise the codebooks are joined in order. |
| GoldenCapture.SoundHasResult | src/runtime/startup_golden.cpp:659-687 | After any calls, refused ones included, the inconsistency is never there: a capture has a result exactly when some chunk was accepted, one code per codebook and frame, with finite PCM. |
| GoldenCapture.CaptureInChunks | src/runtime/startup_golden.cpp:608-687 | For any code matrix and any split into positive chunks, every chunk is accepted and the result is the codebook-major matrix, the whole PCM, and the codes of each chunk in chunk order, one per cell. |
| TensorNames.CheckNames | src/manifest/manifest.cpp:1144-1160 | The checks accept exactly the manifests without a repeated tensor name, across inputs and outputs. |
| TensorNames.TensorAddressSet.Add | src/runtime/engine_execution.cpp:247-270 | Bound names stay distinct and non-empty, addresses non-null. |
| TensorNames.TensorAddressSet.Prepare | src/runtime/engine_execution.cpp:293-318 | With equal counts, every positional entry is the named lookup, or the table is refused. |
| TensorNames.ResolvesMeansBound | src/runtime/engine_execution.cpp:293-318 | A prepared table holds, in the manifest's order, exactly the addresses bound to its names. |
| TensorNames.PreparedMeansSameNames | src/runtime/engine_execution.cpp:293-318 | Equal counts and resolvable names hold exactly when the bound names are the manifest's: no strangers. |
| TensorNames.ValidateIoContract | src/runtime/model_loader.cpp:436-515 | An engine is accepted when counts agree, names are distinct and each tensor is the declared one. |
| TensorNames.IoContractIsBijection | src/runtime/model_loader.cpp:436-515 | That holds exactly when the engine reports each declared tensor once and nothing else. |
| EngineProfiles.ValidateShapeRanges | src/manifest/manifest.cpp:1296-1379 | Shape ranges are accepted when their number is that of the dynamic inputs and each fits its input. |
| EngineProfiles.FittingRange | src/manifest/manifest.cpp:1356-1379 | A shape range fits exactly when all three shapes are ones the dynamic input may take. |
| EngineProfiles.CountValues | src/manifest/manifest.cpp:1403-1418 | The guarded multiplication yields the volume of exactly the positive shapes whose volume fits 64 bits. |
| EngineProfiles.ValidateValueRanges | src/manifest/manifest.cpp:1316-1427 | Value ranges are accepted when their number is that of the shape inputs and each has its input's value count. |
| EngineProfiles.ProfileIsBijection | src/manifest/manifest.cpp:1296-1427 | Among fitting ranges both count checks hold exactly when each dynamic input has its shape range, each shape input its value range, and nothing else has one. |
| DuplicateKeys.TableChecker | src/manifest/manifest.cpp:4362-4385 | The depth-indexed callback computes the table verdict. |
| DuplicateKeys.StackChecker | tools/runtime_benchmark.cpp:420-447 | The stack callback computes the stack verdict. |
| DuplicateKeys.TableMatchesStack | tools/runtime_benchmark.cpp:420-447 | On every nested stream, complete or cut short, both give the same verdict and name the same key. |
| DuplicateKeys.CheckersMeanRepeatedKey | src/manifest/manifest.cpp:4362-4385 | On every document both name the first key, in reading order, that repeats one of its own object, at any depth, and accept exactly when there is none. |
| Utf8.RoundTrip | src/api/magpie_tts_rt.cpp:167-213 | Every sequence of Unicode scalar values decodes from its encoding (section 3 of RFC 3629). |
| Utf8.DecodesExactlyEncodings | src/api/magpie_tts_rt.cpp:167-213 | A text decodes under the syntax of section 4 of RFC 3629 exactly when it is an encoding. |
| Utf8.IsValidUtf8 | src/api/magpie_tts_rt.cpp:167-213 | The path validator accepts exactly the decodable texts. |
| Utf8.ContainsJapanese | tools/runtime_benchmark.cpp:532-581 | The text scanner throws exactly on undecodable texts and otherwise says whether some code point is in its ranges. |
| Utf8.DecodeBoth | tools/runtime_benchmark.cpp:532-581 | Both accept the same texts, the encodings of scalar sequences, and the flag is that of the encoded sequence. |

## Left out

- StreamMonitor.Monitor.ValidateLease: headers, reserved fields, unknown flags, pointer alignment
  and the sample format of a lease, which the request does not vary, are not checked.
- StreamMonitor.Monitor.CheckGeometry: as for ValidateLease.
- StreamMonitor.Monitor.CheckProgress: event headers, reserved fields and pointer alignment.
- StreamMonitor.Monitor.ValidateSnapshot: header, reserved fields and a missing terminator.
- SofiaController.SofiaAlignmentController.UpdateState: dtype, device and the second score row, which
  the update does not read, are no part of the argument.
- AlignmentKernel.DeviceController.Launch: what the state becomes after a launch on a non-finite
  score is not stated; the step is reported invalid.
- Header sizes, ABI versions, reserved fields, alignment of pointers and the sample-rate fields of
  public structures: finite literal checks.
- The end of the 64-bit revision and sample counters: the code throws after mutation there; the
  model's counters are unbounded.
- Host allocation failures, except where lease metadata cannot be stored.
- Condition-variable timing and fairness. A wait may end at any time.
- The startup drain, the two exchange loops and the wait for another session's mutex are step
  relations rather than imperative loops, because other threads act between their steps.
  The wait for ring space has both forms.
- HandleApi.HandleTable.Destroy: runtimes, models and sessions share one method; the
  synchronization that precedes a session's destruction is one of its failures.
- RuntimeCreate and model loading: the loading itself is a success or failure choice; the 32-bit
  wrap of the unbounded live-model counter is not modelled.
- CUDA, TensorRT and mutex calls: success or failure choices of each call.
- LaunchMainDecoderGraph: launches of the Local AR and NanoCodec graphs change no accounting state.
- AlignmentRuns.RunBoth: scores are reals, so BF16 rounding is not modelled, and the argmax is taken to return
  the first of equal maxima.
- FinishCapture: captured sequences are compared instead of their SHA-256 digests.
- DuplicateKeys: the parser's depth convention is taken as given, and syntax errors only cut the
  event stream short.
- EngineProfiles: storage sizes and the resolution of dynamic dimensions are not modelled; which of
  several wrong ranges is reported is not either.
- AsyncPipelineContract: the host-wait and overlap counters, which only count calls.
- Validation of prepared token identifiers, diagnostic strings, enum names, the bundle, receipt and
  benchmark statistics code: they would only add easy members.
