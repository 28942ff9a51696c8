# Decoder control: a verified model

This project models the stateful cores that sit between the dsd-neo decoder and its
frontends, and proves what they keep over whole runs.

- **The command queue** (`Commands`, `Results`, `KeyCommands`, `Ring`, `QueueSpec`,
  `AppCommandQueue`, `CommandRuns`, `DrainRounds`, `SessionGenerations`, `DecryptionRequests`,
  `OneTimeInit`). A 128-slot ring between any number of
  producers and the decoder thread. `CommandQueue` is the ring as a class over an array; each
  method is one critical section and is proved equal to an operation on a plain list.
  `CommandRuns` interleaves those critical sections with the moves the decoder makes between
  them and proves session isolation, exactly-once results and the meaning of coalescing;
  `DrainRounds` ties the drain to it, `SessionGenerations` counts sessions, and
  `DecryptionRequests` follows a decryption from the submitter's bytes to its result.
- **The channel map** (`ScanState`, `ChannelCycle`, `ChannelMapImport`). The manual cycle over
  the scan list is a fair circular search; importing a map replaces the live one wholesale or
  leaves it alone, with every heap block owned or released exactly once.
- **The engine lifecycle** (`EngineLifecycle`, `EngineHistory`, `RunStatus`). Init, configure,
  run, stop and destroy as atomic steps of any number of threads: lifetime safety, no stop lost
  although stop takes no lock, and every flag and record tied to the calls that led to it.
  `LogPump` is the byte machine that frames redirected output.
- **The session phase** (`SessionTracker`, `SessionHistory`, `TrackerPromises`, `DecoderHost`,
  `HostPromises`, `RunsOnScreen`). The tracker class, method by method, and theorems about every
  sequence of polls, starts and dismissals; `RunsOnScreen` joins them to the engine: what a run
  leaves on record is what the screen shows.
- **The P25 views** (`NewestFirst`, `P25Views`). Stable newest-first selection in place.

`dafny verify dfyconfig.toml` checks everything.

## How to read it

A class or method follows the source's own steps; a function beside it says what the state
becomes; lemmas say what that means. Code that cannot be seen (the tuner, the handlers, the CSV
importer, the Android service, shutdown requests raised inside the engine) is a parameter or a
nondeterministic step, so no result depends on it.

Where a thread model is used, a step is one critical section or one atomic access. Records that
only the proofs need (what was admitted, published, evicted; which options are installed; which
heap blocks are live) are part of the modelled state and influence no step.

Assumptions stated by the source and used here: lifecycle edges run on the decoder thread
between drains; stops are rejected while the host is configuring. The second is needed for every
stop to be honoured, as `EngineLifecycle.StopDuringConfigureIsLost` shows. Of the service it
is used that its record carries its own session id and, under that id, the reason the engine's
record has at some moment since the run returned.

## What turned out not to hold

Each entry names the condition under which the code does meet the property, and the theorem that
proves it in both directions.

- Coalescing can lose a setting. Validation happens at the drain, after coalescing, so a
  rejected payload that overwrote a valid pending setter takes it along. An overwrite is harmless
  exactly under `CommandRuns.Harmless`, evaluated over everything the session has run or still
  has to run (`CommandRuns.OverwriteHarmlessExactlyWhen`), and
  `CommandRuns.CoalescingPreservesMeaning` asks for nothing but that of each overwrite of the
  session, and that nothing overflowed. `CommandRuns.RejectedOverwriteLosesASetter` is a run
  that loses a setting.
- A run's result is retained until the next configure, but not against a rejected call of run,
  which writes its own failure under the same session. A failed result survives it as failed; a
  completed or stopped one does not (`EngineLifecycle.ReasonSurvivesExactlyWhen`; an instance is
  `EngineLifecycle.ACompletedRunCanEndUpFailed`).
- A status poll that returns no record is read as an idle service. From the first record of a
  session on, the phase moves back exactly at the first record after a lost one whose service is
  not idle (`SessionHistory.PhaseMovesBackExactlyWhen`). A lost poll can do worse: during a start
  it latches a failure, and a run that later completes is shown as Failed. A completed or
  cancelled run shows Idle exactly under `SessionHistory.NormalEndShowsIdleExactlyWhen`.
- A start whose own status read fails records session 0 as known, so an older session can be
  announced as initialized again: exactly when an accepted start's record shows an older id
  (`DecoderHost.ReannouncedExactlyAfterOlderStart`). And a session that is there already at the
  first poll is announced exactly when that poll lost its record and a later one says initialized
  (`DecoderHost.PresentSessionIsAnnouncedExactlyWhen`).
- A configure that fails while converting its arguments returns before it clears the configured
  flag. It is exactly then that runnable options of another session can be left under the new
  session's record (`EngineLifecycle.ForeignOptionsExactlyAfterFailedArguments`; an
  instance is `EngineLifecycle.FailedArgumentsLeaveForeignOptions`).
- A stop that overlaps configure can be lost, and one that is honoured can go unrecorded. The
  latch is set exactly when a stop stored it after configure's last clearing
  (`EngineLifecycle.LatchIsSetExactlyWhen`), and a run is recorded as cancelled exactly then
  (`EngineLifecycle.CancelledIsRecordedExactlyWhen`). Whether the run ends is another matter: the
  decode loop is stopped exactly when the exit flag was raised after its last reset
  (`EngineLifecycle.DecodingIsStoppedExactlyWhen`). A stop with both stores before the clearing is
  lost (`EngineLifecycle.StopDuringConfigureIsLost`); one that latches before the clearing and
  raises after the engine's entry ends the run, which with code 0 is recorded as completed
  (`EngineLifecycle.StopAcrossConfigureEndsTheRunAsCompleted`).
- A log line is recorded up to its first NUL byte, because the record is made from a C string.
  Framing equals the split for all streams with that rule written out
  (`LogPump.RecordedWholeExactlyWhen`).

## Model

| member | source | states |
|---|---|---|
| `Commands.Stored` | upstream/dsd-neo/src/app_control/app_command_queue.c:313-331 | a slot takes at most its capacity, is zero past the live bytes, is marked truncated exactly when bytes were left out, and a cut string still ends in zero |
| `Commands.StoredKeepsTheFront` | upstream/dsd-neo/src/app_control/app_command_queue.c:313-331 | a slot keeps the front of what it is given, as much as fits, but for the byte that ends a cut text |
| `Commands.SubmissionIsAcceptedExactlyWhen` | upstream/dsd-neo/src/app_control/app_command_queue.c:3161-3181 | what the drain accepts in terms of what was submitted: actions bare, settings of four bytes, texts of one, the rest of their smallest size, and nothing but a text cut |
| `Commands.CoalescibleSettersOweNoResult` | upstream/dsd-neo/src/app_control/app_command_queue.c:264-283 | no command that owes a retained result, and no string or action, can be overwritten in place |
| `Commands.DecodeEncoded` | upstream/dsd-neo/src/app_control/app_command_queue.c:160-171 | an integer field survives the payload encoding |
| `Ring.AppendExtends` | upstream/dsd-neo/src/app_control/app_command_queue.c:230-238 | writing the slot at tail and stepping tail appends one element to the list the ring stands for, wrap-around included |
| `Ring.TakeShrinks` | upstream/dsd-neo/src/app_control/app_command_queue.c:5181-5187 | erasing the slot at head and stepping head drops the first element of that list |
| `Ring.ReplaceLast` | upstream/dsd-neo/src/app_control/app_command_queue.c:304-311 | the slot before tail is the last element of that list, and overwriting it replaces that element alone |
| `QueueSpec.OperationsKeepWellformed` | upstream/dsd-neo/src/app_control/app_command_queue.c:132-139 | every operation keeps at most 127 well-stored commands, none while the session is closed; the reported generation is 0 exactly then |
| `QueueSpec.StatusTellsWhatHappened` | upstream/dsd-neo/src/app_control/app_command_queue.c:2764-2798 | rejected, coalesced and queued each exactly when, and what each says of the list and of the results published for the one evicted |
| `QueueSpec.DisposalsReportFailure` | upstream/dsd-neo/src/app_control/app_command_queue.c:194-213 | after discarding any commands the retained results say not done and cancelled where any was owed, and are as they were where none was |
| `QueueSpec.UndrainedQueueHoldsNewest` | upstream/dsd-neo/src/app_control/app_command_queue.c:2764-2798 | with no drain the queue holds exactly the newest 127 entries of the coalesced stream |
| `QueueSpec.DisposalSequences` | upstream/dsd-neo/src/app_control/app_command_queue.c:200-205 | discarding commands advances each result sequence once per command that owes that result |
| `Results.SequenceAdvances` | upstream/dsd-neo/src/app_control/app_command_queue.c:178-182 | the n-th sequence number is 1 + (n-1) mod (2^64-1): it never becomes 0 again |
| `Results.ExportResultIdentifiesItsRequest` | upstream/dsd-neo/src/app_control/app_command_queue.c:155-184 | an export result names the context, generation and path of the request it answers; a path survives exactly when it fits |
| `AppCommandQueue.CommandQueue.constructor` | upstream/dsd-neo/src/app_control/app_command_queue.c:98-108 | the queue starts empty, closed, with every slot zero |
| `AppCommandQueue.CommandQueue.SessionGeneration` | upstream/dsd-neo/src/app_control/app_command_queue.c:132-139 | the generation while open, 0 exactly while closed |
| `AppCommandQueue.CommandQueue.PublishExport` | upstream/dsd-neo/src/app_control/app_command_queue.c:155-184 | publishes for an export command only, and publishes what the list specification says |
| `AppCommandQueue.CommandQueue.TakeHead` | upstream/dsd-neo/src/app_control/app_command_queue.c:5181-5187 | yields the oldest command; its slot is erased and every slot outside head..tail stays zero |
| `AppCommandQueue.CommandQueue.DiscardHead` | upstream/dsd-neo/src/app_control/app_command_queue.c:200-205 | discards the oldest command, publishing the failed export or the cancelled decryption it owes |
| `AppCommandQueue.CommandQueue.SessionSetOpen` | upstream/dsd-neo/src/app_control/app_command_queue.c:194-213 | a session edge discards everything pending with results published in order, and steps the generation past 0 on opening |
| `AppCommandQueue.CommandQueue.FindPendingTail` | upstream/dsd-neo/src/app_control/app_command_queue.c:304-311 | finds a command only at the tail, and exactly when its id matches |
| `AppCommandQueue.CommandQueue.StorePayload` | upstream/dsd-neo/src/app_control/app_command_queue.c:313-331 | the slot holds exactly the new command: nothing of a longer earlier payload is left |
| `AppCommandQueue.CommandQueue.Append` | upstream/dsd-neo/src/app_control/app_command_queue.c:2794-2796 | appends to the list and keeps the unused slots zero |
| `AppCommandQueue.CommandQueue.ReplaceTail` | upstream/dsd-neo/src/app_control/app_command_queue.c:2772-2779 | replaces the newest pending command and nothing else |
| `AppCommandQueue.CommandQueue.Coalesce` | upstream/dsd-neo/src/app_control/app_command_queue.c:2772-2779 | overwrites exactly when the id is coalescible and already at the tail |
| `AppCommandQueue.CommandQueue.Enqueue` | upstream/dsd-neo/src/app_control/app_command_queue.c:2780-2796 | append, then drop the first beyond 127, publishing for the one dropped |
| `AppCommandQueue.CommandQueue.Submit` | upstream/dsd-neo/src/app_control/app_command_queue.c:2764-2798 | the ring after a submission is the list after a submission; the status says rejected, coalesced or queued accordingly |
| `AppCommandQueue.CommandQueue.Pop` | upstream/dsd-neo/src/app_control/app_command_queue.c:5178-5195 | one critical section of the drain pops the first command of the list, or finds none |
| `AppCommandQueue.CommandQueue.RunOrReject` | upstream/dsd-neo/src/app_control/app_command_queue.c:5196-5205 | a popped command is run or rejected as the list specification says, both results are published for it, and the ring is not touched |
| `AppCommandQueue.CommandQueue.Drain` | upstream/dsd-neo/src/app_control/app_command_queue.c:5174-5232 | runs or rejects every pending command, oldest first, publishes once for each, counts them, and leaves the queue empty |
| `DrainRounds.DrainIsRounds` | upstream/dsd-neo/src/app_control/app_command_queue.c:5174-5232 | a drain is one round of take, run and both publications for each pending command: same decoder state, same retained results, and the state is that of running the accepted commands, oldest first |
| `DrainRounds.NewestResultIsRetained` | upstream/dsd-neo/src/app_control/app_command_queue.c:5196-5205 | the retained results answer the newest command that owes one: success exactly if accepted and completed, the handler's decryption status or invalid |
| `AppCommandQueue.CommandQueue.StorageCleared` | upstream/dsd-neo/src/app_control/app_command_queue.c:5238-5251 | the storage audit always succeeds: in every reachable state the slots outside head..tail are zero |
| `AppCommandQueue.CommandQueue.TailPaddingCleared` | upstream/dsd-neo/src/app_control/app_command_queue.c:5253-5261 | the padding audit always succeeds: no byte past a live payload is nonzero |
| `CommandRuns.NextKeepsSound` | upstream/dsd-neo/src/app_control/app_command_queue.c:2764-2798 | every critical section of every thread keeps the queue well formed |
| `CommandRuns.SubmitMovesCopies` | upstream/dsd-neo/src/app_control/app_command_queue.c:2764-2798 | a submission adds its own copy and removes at most one: superseded at the tail or evicted at the head |
| `CommandRuns.SessionsAreIsolated` | upstream/dsd-neo/src/app_control/app_command_queue.c:132-139 | over every interleaving: closed means empty with nothing in flight and generation 0; every copy accepted since the last edge is pending, held, drained, evicted or superseded, once; a decryption reported applied carried the generation it was applied under |
| `SessionGenerations.GenerationCountsOpenings` | upstream/dsd-neo/src/app_control/app_command_queue.c:206-211 | over every interleaving the generation is the one of the number of sessions opened so far |
| `SessionGenerations.GenerationInClosedForm` | upstream/dsd-neo/src/app_control/app_command_queue.c:206-211 | after n openings that is 1 + (n-1) mod (2^64-1), and 0 before the first |
| `SessionGenerations.SessionsAreToldApart` | upstream/dsd-neo/src/app_control/app_command_queue.c:132-139 | two open sessions fewer than 2^64-1 openings apart report different generations |
| `SessionGenerations.OldCommandsAreNeverApplied` | upstream/dsd-neo/src/app_control/app_command_queue.c:132-139 | over every interleaving, while a later session is open nothing that carries an earlier session's generation is reported as applied |
| `SessionGenerations.OldCommandsAreStale` | upstream/dsd-neo/src/app_control/key_commands.c:222-225 | a well-formed command of an earlier session that the drain holds is judged stale, whatever its surroundings |
| `CommandRuns.ResultsArePublishedExactlyOnce` | upstream/dsd-neo/src/app_control/app_command_queue.c:155-213 | over every interleaving, copy for copy: admitted exports equal pending plus unpublished in flight plus published, the same for decryption commands, and the retained sequences count the publications |
| `CommandRuns.ExportSequenceCounts` | upstream/dsd-neo/src/app_control/app_command_queue.c:178-183 | after N publications the export sequence is 1 + (N-1) mod (2^64-1) and the result is that of the last one |
| `CommandRuns.KeySequenceCounts` | upstream/dsd-neo/src/app_control/key_commands.c:50-72 | the same for the decryption result |
| `CommandRuns.CoalescingPreservesMeaning` | upstream/dsd-neo/src/app_control/app_command_queue.c:264-331 | over every interleaving the decoder state is that of the commands run since the session edge, in order; and as long as the session saw no overflow and no harmful overwrite, that state plus what is left to run gives the state of applying every accepted submission in order, superseded ones included |
| `CommandRuns.OverwriteHarmlessExactlyWhen` | upstream/dsd-neo/src/app_control/app_command_queue.c:2772-2779 | for any line of commands run and still to run, an overwrite of its last one has the effect of running both, for every lawful handler family and starting state, if and only if the newer payload is valid, or the older is not, or it repeats the newest valid command before it |
| `CommandRuns.RejectedOverwriteLosesASetter` | upstream/dsd-neo/src/app_control/app_command_queue.c:2772-2779 | a run of the queue in which the condition fails: a valid gain is overwritten by an empty one and never takes effect |
| `CommandRuns.SubmitMovesOwedCopies` | upstream/dsd-neo/src/app_control/app_command_queue.c:264-283 | of the commands that owe a result a submission takes away only the one it evicts |
| `KeyCommands.PayloadTextTerminated` | upstream/dsd-neo/src/app_control/key_commands.c:74-89 | accepts exactly the payloads whose six text fields all hold a terminator |
| `KeyCommands.ValidPayload` | upstream/dsd-neo/src/app_control/key_commands.c:91-106 | accepts exactly the payloads that meet the declarative rule, profile characters and force range included |
| `KeyCommands.ApplyDecryption` | upstream/dsd-neo/src/app_control/key_commands.c:209-259 | the status decided, check by check, in the order of the handler |
| `KeyCommands.AppliedOnlyInItsOwnSession` | upstream/dsd-neo/src/app_control/key_commands.c:211-229 | applied implies a fully valid payload that carried the generation reported when it ran, and no shutdown |
| `KeyCommands.StaleExactlyWhen` | upstream/dsd-neo/src/app_control/key_commands.c:222-225 | stale is reported exactly for an accepted payload of another session, for a target that is no longer live, or when the target itself refuses as stale |
| `KeyCommands.CancelledExactlyWhen` | upstream/dsd-neo/src/app_control/key_commands.c:226-249 | cancelled is reported exactly for an accepted payload of the current session that meets a shutdown at entry, or after preparation and before applying |
| `DecryptionRequests.RequestIsReadBack` | upstream/dsd-neo/src/app_control/key_commands.c:209-217 | every field of a submitted request is read back by the handler as it was filled in |
| `DecryptionRequests.KeyResultIdentifiesItsRequest` | upstream/dsd-neo/src/app_control/key_commands.c:50-72 | a decryption result names the id, session and scope of the request it answers, with its status, an unknown one as invalid |
| `DecryptionRequests.ShortRequestsAreAnswered` | upstream/dsd-neo/src/app_control/key_commands.c:55-66 | a payload too short for its ids is answered without them, one too short for its scope as one for the defaults |
| `DecryptionRequests.MalformedIsRejected` | upstream/dsd-neo/src/app_control/key_commands.c:91-106 | the payload check in terms of the request's fields, texts and profile characters |
| `DecryptionRequests.StatusExactlyWhen` | upstream/dsd-neo/src/app_control/key_commands.c:209-259 | each of the seven statuses exactly in the cases named, target, frame, key epoch, keys and map included, in terms of the submitted request |
| `KeyCommands.DecryptionResults.Publish` | upstream/dsd-neo/src/app_control/key_commands.c:50-72 | replaces the retained result for a decryption command only, with the next sequence number |
| `KeyCommands.DecryptionResults.Get` | upstream/dsd-neo/src/app_control/key_commands.c:39-48 | reports a result exactly once something has been published |
| `OneTimeInit.InitializedOnceBeforeUse` | upstream/dsd-neo/src/app_control/app_command_queue.c:113-130 | for any number of threads and every interleaving: initialized at most once, exactly once before any thread locks, one holder at a time |
| `OneTimeInit.StepKeepsInvariant` | upstream/dsd-neo/src/app_control/key_commands.c:25-37 | both copies of the handshake keep the invariant at every atomic step |
| `OneTimeInit.WaitersAreReleased` | upstream/dsd-neo/src/app_control/app_command_queue.c:127-129 | while a thread waits and the flag is not yet 2, the elected thread exists and at most two of its moves release every waiter |
| `OneTimeInit.EveryThreadGetsIn` | upstream/dsd-neo/src/app_control/app_command_queue.c:113-130 | once announced nobody is kept out: with the mutex free a thread is inside after at most three moves of its own |
| `EngineLifecycle.StepKeepsLock` | upstream/dsd-neo/android/dsdneo_jni.cpp:467-475 | the main lock is held exactly by the thread inside configure, never while a run is active |
| `EngineLifecycle.StepKeepsRun` | upstream/dsd-neo/android/dsdneo_jni.cpp:515-530 | at most one active run; what it captured is live and unchanged, at every step of every thread |
| `EngineLifecycle.StepKeepsStop` | upstream/dsd-neo/android/dsdneo_jni.cpp:394-408 | the latch and exit-flag invariant survives every step of every thread |
| `EngineLifecycle.StepKeepsResult` | upstream/dsd-neo/android/dsdneo_jni.cpp:539-550 | a collected result stays on record until the run gives up its slot |
| `EngineLifecycle.ActiveRunKeepsWhatItCaptured` | upstream/dsd-neo/android/dsdneo_jni.cpp:440-459 | in every interleaving of init, configure, run and destroy the active run's objects are neither freed nor reconfigured, its session record is not restarted, and it is the only run |
| `EngineLifecycle.NoLostStop` | upstream/dsd-neo/android/dsdneo_jni.cpp:583-601 | for any number of stoppers and every interleaving: in the decode loop a latched stop means the exit flag is up or a stopper is between its two stores, and a raised flag ends the loop at its next move |
| `EngineLifecycle.LatchHoldsThroughoutARun` | upstream/dsd-neo/android/dsdneo_jni.cpp:95-105 | a latched stop stays latched as long as the run is active |
| `EngineHistory.CallsAreAcceptedExactlyWhen` | upstream/dsd-neo/android/dsdneo_jni.cpp:467-475 | in every interleaving configure, run and stop are accepted exactly when the past allows: nobody configuring or running, an engine made, options installed; stop whenever there is an engine |
| `EngineHistory.EnginesAreNotLeaked` | upstream/dsd-neo/android/dsdneo_jni.cpp:604-623 | in every interleaving there is one live engine object between a successful init and the next accepted destroy, and none otherwise |
| `EngineHistory.DecodingIsInitialized` | upstream/dsd-neo/android/dsdneo_jni.cpp:394-408 | in every interleaving, past the start hook's first look the session is marked initialized or a stop is latched; a run decoding with no stop latched is marked |
| `EngineHistory.InitializedExactlyWhen` | upstream/dsd-neo/android/dsdneo_jni.cpp:394-408 | in every interleaving the record says initialized if and only if this session's hook read the latch clear and is past the marking |
| `EngineHistory.NothingEndsBeforeTheEnd` | upstream/dsd-neo/android/dsdneo_jni.cpp:477-481 | in every interleaving, as long as a run is going on its record says nothing of an end |
| `EngineHistory.RewritesAreCounted` | upstream/dsd-neo/android/dsdneo_jni.cpp:488-492 | the configuration version counts how often the options were rewritten |
| `EngineHistory.ResultIsRecordedInFull` | upstream/dsd-neo/android/dsdneo_jni.cpp:538-544 | in every interleaving collecting a run writes code, device error, input failure and reason, and nothing else; the reason is cancelled exactly if a stop was stored since configure's clearing |
| `EngineHistory.LeavingKeepsTheCode` | upstream/dsd-neo/android/dsdneo_jni.cpp:537-544 | a run leaves with the code the engine returned, from wherever it returned |
| `EngineHistory.ConfigureIsRecorded` | upstream/dsd-neo/android/dsdneo_jni.cpp:467-512 | a whole configure call: options are installed exactly when the bootstrap goes on; one that neither goes on nor exits is on record as failed; nothing of the old record is left |
| `EngineLifecycle.RunResultIsRetained` | upstream/dsd-neo/android/dsdneo_jni.cpp:539-550 | in every interleaving a collected result stays on record, with its session and code, across cleanup and until the next configure, except that a rejected call of run overwrites it with its own failure |
| `EngineLifecycle.ReasonSurvivesExactlyWhen` | upstream/dsd-neo/android/dsdneo_jni.cpp:515-530 | until the next configure the reason survives if and only if the run failed anyway or no call of run was rejected |
| `EngineLifecycle.DecodingIsStoppedExactlyWhen` | upstream/dsd-neo/android/dsdneo_jni.cpp:583-601 | in every interleaving a decode loop that does not end by itself ends at its next move if and only if the exit flag was raised, by a stop, the start hook or the engine, after its last reset |
| `EngineLifecycle.CancelledIsRecordedExactlyWhen` | upstream/dsd-neo/android/dsdneo_jni.cpp:539-544 | in every interleaving a run is recorded as cancelled if and only if a stop stored the latch after configure's last clearing, however the engine was left |
| `EngineLifecycle.LatchIsSetExactlyWhen` | upstream/dsd-neo/android/dsdneo_jni.cpp:484-489 | over any moves of any threads, from any state: the latch is set at the end if and only if a stop stored it after the last clearing, or it was set at the start and never cleared |
| `EngineLifecycle.LatchIsWipedExactlyByConfigure` | upstream/dsd-neo/android/dsdneo_jni.cpp:484-489 | a latched stop is wiped by exactly one move of any thread: the one with which configure clears the latch |
| `EngineLifecycle.StopDuringConfigureIsLost` | upstream/dsd-neo/android/dsdneo_jni.cpp:484-489 | a stop whose two stores precede configure's clearing is lost: from any state in which configure has begun, whatever was stored, its rest and the run that follows decode with neither flag set |
| `EngineLifecycle.StopAcrossConfigureEndsTheRunAsCompleted` | upstream/dsd-neo/android/dsdneo_jni.cpp:539-544 | a stop whose latch was cleared by configure but whose raise comes after the engine's entry ends the run, and with code 0 the run is recorded as completed |
| `EngineLifecycle.ACompletedRunCanEndUpFailed` | upstream/dsd-neo/android/dsdneo_jni.cpp:515-530 | an instance from any initial state: a completed run, called again without a configure, reads as failed under its own session |
| `EngineLifecycle.FailedArgumentsLeaveForeignOptions` | upstream/dsd-neo/android/dsdneo_jni.cpp:479-501 | an instance from any initial state: after a second configure with bad arguments a call of run runs the first session's options under the second session's record |
| `EngineLifecycle.ForeignOptionsExactlyAfterFailedArguments` | upstream/dsd-neo/android/dsdneo_jni.cpp:479-501 | from a rested state, a configure call leaves runnable options of another session behind if and only if its arguments could not be converted and options of another session were installed |
| `RunsOnScreen.ShortFailuresSurface` | upstream/dsd-neo/android/dsdneo_jni.cpp:539-544 | from run to screen: the result of a run that ended with a nonzero code and no stop, in any interleaving and read at any moments before the next configure, shows Failed at the first idle poll of its session and at every later one until a start, a dismissal or a newer session |
| `LogPump.Pump` | upstream/dsd-neo/android/dsdneo_jni.cpp:114-163 | for every stream and every way reads chunk, interrupt and end it, the records are the frames of the stream |
| `LogPump.PumpChunk` | upstream/dsd-neo/android/dsdneo_jni.cpp:130-153 | the byte loop computes the fold of one-byte steps |
| `LogPump.MachineFrames` | upstream/dsd-neo/android/dsdneo_jni.cpp:114-163 | that fold equals splitting at line breaks: nonempty pieces in order, a marker for each terminated piece of 1024 bytes or more, nothing for an unterminated one |
| `LogPump.SplitThenJoin` | upstream/dsd-neo/android/dsdneo_jni.cpp:132-133 | the split loses nothing: break-free pieces that rejoin to the stream |
| `LogPump.JoinThenSplit` | upstream/dsd-neo/android/dsdneo_jni.cpp:132-133 | the split is the only one: any break-free pieces joined by breaks split into themselves |
| `LogPump.LinesComeBack` | upstream/dsd-neo/android/dsdneo_jni.cpp:138-142 | round trip: newline-terminated short lines without breaks or NULs come back as they were |
| `LogPump.RecordedWholeExactlyWhen` | upstream/dsd-neo/android/dsdneo_jni.cpp:138-142 | a piece is recorded whole if and only if it is nonempty, below the limit and free of NULs |
| `LogPump.OverlongPiecesLeaveMarkers` | upstream/dsd-neo/android/dsdneo_jni.cpp:133-137 | as many markers as terminated over-long pieces |
| `LogPump.NoFragmentIsRecorded` | upstream/dsd-neo/android/dsdneo_jni.cpp:144-152 | no text record is a fragment of an over-long line |
| `LogPump.StreamGrows` | upstream/dsd-neo/android/dsdneo_jni.cpp:114-163 | a read adds its bytes to the stream, an interruption nothing |
| `LogPump.NothingIsReadAfterTheEnd` | upstream/dsd-neo/android/dsdneo_jni.cpp:114-163 | what comes after the end of the descriptor is not read |
| `LogPump.EveryPieceLeavesItsRecord` | upstream/dsd-neo/android/dsdneo_jni.cpp:130-153 | an empty piece leaves nothing, a short one exactly its front up to a NUL byte, a long one a marker if it was ended |
| `LogPump.RecordsFollowThePieces` | upstream/dsd-neo/android/dsdneo_jni.cpp:130-153 | the records are those of the pieces in the order written |
| `RunStatus.RunStatus.Begin` | upstream/dsd-neo/android/run_status.h:26-30 | a new session's record starts with nothing of the old one |
| `RunStatus.RunStatus.MarkInitialized` | upstream/dsd-neo/android/run_status.h:32-35 | sets the initialized fact and nothing else |
| `RunStatus.RunStatus.Finish` | upstream/dsd-neo/android/run_status.h:37-42 | cancelled wins over the code; zero is completed, nonzero failed |
| `RunStatus.RunStatus.Collect` | upstream/dsd-neo/android/run_status.h:48-56 | the terminal result with the device error and the input failure of the run |
| `SessionTracker.SessionPhaseTracker.NoteStartRequested` | upstream/dsd-neo/android/session_state_map.h:66-97 | refused without a trace unless the service is idle; otherwise the whole new state |
| `SessionTracker.SessionPhaseTracker.NoteStartFailed` | upstream/dsd-neo/android/session_state_map.h:140-147 | the whole new state |
| `SessionTracker.SessionPhaseTracker.IdlePhase` | upstream/dsd-neo/android/session_state_map.h:227-239 | the three readings of an idle poll |
| `SessionTracker.SessionPhaseTracker.LatchFailure` | upstream/dsd-neo/android/session_state_map.h:241-248 | every field but the phase |
| `SessionTracker.SessionPhaseTracker.UpdateService` | upstream/dsd-neo/android/session_state_map.h:154-180 | one poll without a record |
| `SessionTracker.SessionPhaseTracker.TerminalPhase` | upstream/dsd-neo/android/session_state_map.h:205-217 | a terminal reason shows Stopping until the service is idle |
| `SessionTracker.SessionPhaseTracker.Update` | upstream/dsd-neo/android/session_state_map.h:99-132 | one poll with a record: adopted, ignored, awaited, stale, current or newer |
| `SessionTracker.SessionPhaseTracker.AcknowledgeFailure` | upstream/dsd-neo/android/session_state_map.h:182-191 | a dismissal is accepted exactly for a shown failure with an idle service, and adopts that session |
| `SessionHistory.StartGraceIsExact` | upstream/dsd-neo/android/session_state_map.h:66-84 | while polls show no newer session, polls 1 to 7 after a start report Starting and every later one Failed, whatever else they say |
| `SessionHistory.ReachableTrackersAreConsistent` | upstream/dsd-neo/android/session_state_map.h:227-248 | in every reachable state positive grace implies Starting, attempting, not failed, never seen running |
| `TrackerPromises.StartIsRefusedExactlyWhen` | upstream/dsd-neo/android/session_state_map.h:86-99 | a start is refused exactly while the service names a state other than idle, and then nothing changes |
| `TrackerPromises.FailedHandoverStaysFailed` | upstream/dsd-neo/android/session_state_map.h:140-147 | a failed hand-over shows Failed over every sequence of events up to an accepted start, an accepted dismissal or a newer session |
| `TrackerPromises.NewSessionIsReadAfresh` | upstream/dsd-neo/android/session_state_map.h:119-131 | the phase shown for the first record of a newer session, case by case, whatever failed before |
| `TrackerPromises.StaleRecordsChangeNothing` | upstream/dsd-neo/android/session_state_map.h:116-118 | a record older than the session followed changes nothing |
| `TrackerPromises.AdoptedSessionShowsItsService` | upstream/dsd-neo/android/session_state_map.h:109-111 | a record of the adopted session counts for its service alone |
| `TrackerPromises.FirstRecordIsAdoptedExactlyWhen` | upstream/dsd-neo/android/session_state_map.h:101-108 | the first record is adopted exactly when its service is idle or unnamed |
| `TrackerPromises.ASessionMetBusyIsHeard` | upstream/dsd-neo/android/session_state_map.h:100-132 | a session met while busy is heard to its end: its failure shows at each idle record |
| `TrackerPromises.DismissalLasts` | upstream/dsd-neo/android/session_state_map.h:183-191 | a dismissal is accepted exactly of a shown failure with a confirmed idle service, and the failure does not come back whatever the dismissed session's records say |
| `SessionHistory.FailedRecordsSurface` | upstream/dsd-neo/android/session_state_map.h:119-132 | a tracker that listens for a session whose records say failed shows Failed at every idle poll of it from the first on, and once it has read one, at every lost poll |
| `SessionHistory.QuarantineBegins` | upstream/dsd-neo/android/session_state_map.h:79-117 | adoption, dismissal and an accepted start each close the door to results up to that session |
| `SessionHistory.OldReasonsCannotLeak` | upstream/dsd-neo/android/session_state_map.h:182-191 | two poll sequences that differ only in old sessions' reasons leave identical trackers |
| `SessionHistory.SessionAdvances` | upstream/dsd-neo/android/session_state_map.h:154-180 | how the tracker stands after each poll of an orderly session, lost polls included |
| `SessionHistory.PhasesOnlyMoveForward` | upstream/dsd-neo/android/session_state_map.h:99-132 | over an orderly session without lost polls the phase never moves back, and Idle or Failed appears only on an idle poll |
| `SessionHistory.PhaseMovesBackExactlyWhen` | upstream/dsd-neo/android/session_state_map.h:154-180 | with polls lost anywhere after the first record, the phase moves back at a poll if and only if it is the first record after a lost one and its service is not idle |
| `SessionHistory.LostPollThenRecord` | upstream/dsd-neo/android/session_state_map.h:227-239 | one lost poll and any next record: the lost poll never moves the phase back, the record does if and only if at most one tick of grace was left and its service is not idle |
| `SessionHistory.ALostRecordMovesThePhaseBack` | upstream/dsd-neo/android/session_state_map.h:154-180 | an instance: Running, Idle, Running |
| `SessionHistory.NormalEndShowsIdleExactlyWhen` | upstream/dsd-neo/android/session_state_map.h:205-239 | a completed or cancelled run shows Idle if and only if no poll was quiet (lost, or idle without a result) right after busy records of which none said the engine runs, and none used up the grace period; otherwise Failed |
| `SessionHistory.ALostRecordFailsACompletedRun` | upstream/dsd-neo/android/session_state_map.h:233-239 | an instance: a record lost while starting makes a run that later completes show Failed |
| `DecoderHost.DecoderHostAndroid.SetSessionPhase` | upstream/dsd-neo/android/decoder_host_android_lifecycle.cpp:90-111 | phase, failure text and signal: a host reason wins, then the reason shown, then the service's, then the default; no signal when nothing changed |
| `DecoderHost.DecoderHostAndroid.ApplyLifecycleStatus` | upstream/dsd-neo/android/decoder_host_android_lifecycle.cpp:113-158 | one poll of the host: baseline, adoption, tracker, initialized signal, published phase |
| `DecoderHost.DecoderHostAndroid.Start` | upstream/dsd-neo/android/decoder_host_android.cpp:313-350 | primes first, refuses while the service is busy, otherwise starts the attempt and reports a hand-over failure |
| `DecoderHost.DecoderHostAndroid.AcknowledgeFailure` | upstream/dsd-neo/android/decoder_host_android_lifecycle.cpp:160-171 | an accepted dismissal adopts the session and publishes Idle |
| `DecoderHost.EventAnnounces` | upstream/dsd-neo/android/decoder_host_android_lifecycle.cpp:148-151 | what each event announces and which session id it leaves as the newest known |
| `DecoderHost.InitializedIsAnnouncedOnce` | upstream/dsd-neo/android/decoder_host_android_lifecycle.cpp:113-158 | over every history that begins with a poll, lost records anywhere, in which no accepted start falls back to an older id, the initialized signals have strictly increasing ids, all newer than the id at the first poll |
| `DecoderHost.PresentSessionIsAnnouncedExactlyWhen` | upstream/dsd-neo/android/decoder_host_android_lifecycle.cpp:132-151 | over polls of one session, some possibly lost, that session, present from the first poll on, is announced if and only if the first poll was lost and some poll says initialized |
| `DecoderHost.ReannouncedExactlyAfterOlderStart` | upstream/dsd-neo/android/decoder_host_android.cpp:322-330 | after an accepted start a known session can be announced again if and only if the start's own record showed an older id, as a lost record does |
| `DecoderHost.FailuresAreExplained` | upstream/dsd-neo/android/decoder_host_android_lifecycle.cpp:90-111 | in every history the phase shown is the tracker's, and a failure always has a text |
| `HostPromises.TextGoesWithPhase` | upstream/dsd-neo/android/decoder_host_android_lifecycle.cpp:90-111 | a failure shows the first that says something of reason, text shown, service's text, default; any other phase the reason alone; signalled once and exactly on a change |
| `HostPromises.PollShows` | upstream/dsd-neo/android/decoder_host_android_lifecycle.cpp:113-158 | one poll: the tracker's phase, and the record's error exactly after the first poll and for a session other than the adopted one |
| `HostPromises.StartShows` | upstream/dsd-neo/android/decoder_host_android.cpp:313-350 | a refused start says that the old session is still stopping and changes nothing else; an accepted one shows Starting without a text, or Failed with the reason |
| `HostPromises.FailedHandoverStaysOnScreen` | upstream/dsd-neo/android/decoder_host_android.cpp:313-350 | a failed hand-over is on screen as failed, with a text, over every history up to an accepted start, an accepted dismissal or a newer session |
| `HostPromises.HandoverTextStays` | upstream/dsd-neo/android/decoder_host_android.cpp:313-350 | and its text stays as long as polls tell no error |
| `HostPromises.DismissedFailureStaysGone` | upstream/dsd-neo/android/decoder_host_android_lifecycle.cpp:160-171 | after a dismissal the host shows Idle and no text, whatever error and reason the dismissed session's records go on carrying |
| `HostPromises.AnOldFailureIsNotShown` | upstream/dsd-neo/android/decoder_host_android_lifecycle.cpp:113-158 | a session that was over before the first poll is never shown, failed or not |
| `ChannelCycle.Search` | upstream/dsd-neo/src/app_control/app_command_queue.c:2313-2326 | the loop finds the first row, going round from the cursor, that is nonzero, not avoided and unlike the row before it |
| `ChannelCycle.Cycle` | upstream/dsd-neo/src/app_control/app_command_queue.c:2302-2350 | only the cursor moves: past the row tuned, by one row when there is nothing to tune, not at all when the tuner refuses |
| `ChannelCycle.TargetIsAtRank` | upstream/dsd-neo/src/app_control/app_command_queue.c:2313-2326 | the row found is the one the cursor's place in the circle of eligible rows says |
| `ChannelCycle.AcceptedTunesWalkTheCircle` | upstream/dsd-neo/src/app_control/app_command_queue.c:2302-2350 | round robin whatever the tuner answers: accepted tunes walk the eligible rows in circular order, none skipped, none repeated |
| `ChannelCycle.EachEligibleRowOnce` | upstream/dsd-neo/src/app_control/app_command_queue.c:2302-2350 | k consecutive accepted cycles tune each of the k eligible rows exactly once |
| `ChannelCycle.CursorStaysInRange` | upstream/dsd-neo/src/app_control/app_command_queue.c:2328-2343 | the cursor stays within 0..count, and a refused tune leaves it alone |
| `ChannelCycle.CycleDoesExactly` | upstream/dsd-neo/src/app_control/app_command_queue.c:2302-2350 | a cycle fails exactly when there is a row worth tuning and the tuner refuses it, tunes exactly the next such row otherwise, and leaves the cursor accordingly |
| `ChannelCycle.TunedExactlyWhenWorthIt` | upstream/dsd-neo/src/app_control/app_command_queue.c:2313-2326 | over one turn a row is tuned exactly if it is used, not avoided and no repetition |
| `ChannelMapImport.GrownCapacity` | upstream/dsd-neo/src/core/util/dsd_state_trunk_lcn.c:34-45 | enough, never less than before, doubled at most past the need, and its byte size never exceeds the largest size |
| `ChannelMapImport.Reserve` | upstream/dsd-neo/src/core/util/dsd_state_trunk_lcn.c:47-72 | room exactly when it can be had; the list is untouched; a moved tail keeps its content and the old block is released |
| `ChannelMapImport.KeysFree` | upstream/dsd-neo/src/core/util/dsd_state_trunk_lcn.c:265-277 | releases each row's entries and the array, each once |
| `ChannelMapImport.ListFree` | upstream/dsd-neo/src/core/util/dsd_state_trunk_lcn.c:409-424 | releases every block of the list, each once, and forgets them all |
| `ChannelMapImport.ModesMove` | upstream/dsd-neo/src/core/util/dsd_state_trunk_lcn.c:532-546 | the old modes are released, the new ones change hands |
| `ChannelMapImport.Install` | upstream/dsd-neo/src/app_control/menu_services.c:369-401 | what cannot fail: map, list, names, keys and modes become the imported ones, the session starts over, old blocks but the tail are released |
| `ChannelMapImport.Adopt` | upstream/dsd-neo/src/app_control/menu_services.c:354-403 | succeeds exactly when the imported list has its tail and there is room; then the live map shows the imported one, else both are unchanged; every block is owned exactly once afterwards |
| `ChannelMapImport.SameList` | upstream/dsd-neo/src/app_control/menu_services.c:372-376 | equal embedded parts and equal tails, as far as the count reaches, make equal lists on either side of the boundary |
| `ChannelMapImport.AdoptOrDiscard` | upstream/dsd-neo/src/app_control/menu_services.c:425-445 | the throwaway state ends with nothing, and every block of both maps is live in the one map or released once |
| `ChannelMapImport.AcceptedExactlyWhen` | upstream/dsd-neo/src/app_control/menu_services.c:354-445 | an importer's error, an empty table or a long list without its tail is refused; a list with room is taken; one that needs more exactly as memory allows, up to the doubling |
| `ChannelMapImport.ImportForgetsTheSession` | upstream/dsd-neo/src/app_control/menu_services.c:376-401 | a replaced map remembers nothing of the old session: no row avoided, nothing trusted, scan, visits and cursor from the start |
| `ChannelMapImport.ImportChannelMap` | upstream/dsd-neo/src/app_control/menu_services.c:405-451 | all or nothing: success exactly under the stated guards with the file's map and path in place; any failure leaves map and path as they were |
| `ChannelMapImport.ImportRestartsTheHunt` | upstream/dsd-neo/src/app_control/menu_services.c:390-398 | after an import the next accepted channel cycle tunes the first eligible row of the new list, whatever was avoided before |
| `NewestFirst.Insert` | upstream/dsd-neo/src/app_control/p25_network.c:9-20 | the in-place shift is the insertion behind the last entry that is at least as new |
| `NewestFirst.RankedIsNewestFirst` | upstream/dsd-neo/src/app_control/p25_network.c:9-20 | inserting the eligible rows one by one gives the list ordered newest first with ties in table order, holding exactly the eligible rows |
| `NewestFirst.NewestFirstIsUnique` | upstream/dsd-neo/src/app_control/p25_network.c:9-20 | that list is the only one |
| `NewestFirst.CutLosesOnlyTheOldest` | upstream/dsd-neo/src/app_control/p25_network.c:49-51 | an eligible row missing from the output means the output is full of newer ones |
| `P25Views.IsCandidate` | upstream/dsd-neo/src/app_control/p25_network.c:22-31 | membership in the candidate list when its count is in range, false otherwise |
| `P25Views.Neighbors` | upstream/dsd-neo/src/app_control/p25_network.c:33-75 | the output is the first capacity rows of that list, field by field, and nothing beyond is written; null arguments or no room give zero |
| `P25Views.Patches` | upstream/dsd-neo/src/app_control/p25_network.c:77-112 | the same for patches: active, with a group, and not past their lifetime unless undated; member lists capped at 8 and zero-filled |
| `P25Views.Affiliations` | upstream/dsd-neo/src/app_control/p25_network.c:115-141 | the same for both affiliation tables |
| `P25Views.NeighborsShown` | upstream/dsd-neo/src/app_control/p25_network.c:33-75 | the rows shown are rows in use with a frequency, each once, newest first, and one missing means a full view of no older ones |
| `P25Views.NeighborFields` | upstream/dsd-neo/src/app_control/p25_network.c:52-73 | field by field what a shown neighbour says, candidate mark and flag text included |
| `P25Views.PatchesShown` | upstream/dsd-neo/src/app_control/p25_network.c:77-98 | the same for active patches with a group, out after twenty seconds unless undated |
| `P25Views.PatchFields` | upstream/dsd-neo/src/app_control/p25_network.c:99-111 | counts capped at eight, so many members copied, zeros behind |
| `P25Views.AffiliationsShown` | upstream/dsd-neo/src/app_control/p25_network.c:115-141 | the same for both affiliation tables |

## Left out

- The command handlers behind the drain: any family of handlers is allowed, as a function of decoder state and command.
- AppCommandQueue.CommandQueue.Drain: no producer runs between two of its iterations, and no snapshot is published after a command; submissions in between are covered by `CommandRuns`, which interleaves them with the single pops.
- The overflow counter and the once-per-burst warning gate of the queue: they feed a log line only.
- The sizes of the platform structures in the payload table, which are a parameter of `Commands.Layout`; the two sizes the results depend on are fixed. Integers in payloads are little-endian.
- Null option, state and command pointers of the queue's own entry points: the drain passes its own command and the decoder's state.
- The order in which results are published: an eviction can publish for a younger command while an older one is in flight, so results are counted copy by copy, not sequenced.
- Key material, map files and the target hook behind a decryption command: their outcomes are inputs of `KeyCommands.ApplyDecryption`; a collection without files counts as prepared.
- DecoderHost.DecoderHostAndroid.ApplyLifecycleStatus: other fields of the lifecycle status (device error, input failure, status text, the running flag) are not modelled: they are shown to the user and feed no other decision.
- JNI and Java glue, argument conversion, environment setup and sink selection in the engine lifecycle: an argument failure is an outcome of the configure step.
- SessionTracker.Service: a service name is kept up to the comparisons made with it.
- The start note without a session id, which no code path of the host uses.
- The conversion of a log record from UTF-8, which happens after framing.
- ChannelCycle.Cycle: an accepted tune also resets call tracking, applies the row's keys and marks the sync time; only the cursor and the tune request are modelled.
- ChannelMapImport.ListFree: the saved baseline and the active scan keys, and the flag that says they are set, which the same routine releases and clears, are not part of the modelled state.
- ChannelMapImport.Install: leaving the typed scan and restoring the global keys before the copy is not modelled.
- ChannelMapImport.Adopt: heap blocks are values with an address and a content, so the copies into the embedded array and the tail replace content as a whole; what is said of `ChannelMapImport.Install` applies.
- ChannelMapImport.ModesMove: the channel modes and all they own count as one block, released by their own cleanup; the group and map scopes that are left before the move are not modelled.
- The importer's reading of the CSV file, and the name, avoid and key setters it uses.
- `svc_clear_channel_map`, which repeats the reset and release steps without the replacement.
- The typed channel scanner and the other readers of the scan cursor.
- The rendering of P25 site flags, which is a parameter of `P25Views.Neighbors`.
- Call views, signal metrics, range scanning, configuration hot restart, the desktop host and the user interfaces.
