# Verified models of the daemon's ordering-sensitive parts

The repository is a daemon that connects chats to coding agents. Its delicate logic sits in small pieces whose
correctness depends on the order of promise reactions, on how calls interleave, or on how a stream is cut into
chunks. This project models those pieces in Dafny and proves what callers rely on.

Each stateful piece is written twice. Pure step functions on a datatype say what one uninterrupted stretch of the
code does (from an entry or an `await` to the next one), and a class with the source's fields runs the same stretch
imperatively; every method's contract equates its new `View()` with the step function. The theorems are about every
run of those steps, in any interleaving the event loop or the environment allows.

| file | models |
|---|---|
| `KeyedFifo.dfy` | the abstract machine: one first-come-first-served queue per key |
| `PromiseLoop.dfy` | promise tails over the first-in-first-out queue of promise jobs (ECMA-262, sections 9.5 and 27.2) |
| `ConversationExecutor.dfy`, `BridgeScheduler.dfy`, `WakeLocks.dfy`, `AsyncMutex.dfy` | the four schedulers built on promise tails |
| `DebouncedStateStore.dfy` | coalesced saves: pending state, resolvers, timer, in-flight write, flush loops |
| `LogRotation.dfy`, `PerfLogWriter.dfy` | numbered-file rotation, and the append chain that gives up |
| `RetentionPass.dfy`, `InterleavedPass.dfy` | retention passes that stop at an error, and passes with writes between their awaits |
| `RawConfig.dfy`, `ConfigStore.dfy` | path access to a JSON document whose arrays are addressed by `id`, and locked patches of the file |
| `RawConfigPlaces.dfy` | what a path addresses, without walking it: when each operation succeeds and what it leaves alone |
| `Options.dfy`, `Sequences.dfy` | shared vocabulary |
| `Text.dfy`, `ProgressLines.dfy`, `StderrLines.dfy` | UTF-16 strings, and the two stream parsers |
| `ProgressSummaries.dfy` | the text of a summary, and reports that read back as written |
| `CommandTokenizer.dfy`, `CommandBodies.dfy` | the command tokenizer, and the free-text bodies of `/later` and `/delegate` |
| `CommandWords.dfy` | command lines as words of bare characters and quoted texts: the tokenizer's answer for every input |
| `ControlTurns.dfy`, `DaemonStart.dfy`, `WatchRegistry.dfy` | the turn, start and watcher protocols |
| `LaterTime.dfy` | the time part of `/later` |

How the schedulers are modelled: a task's tail promise is known by the task's number, and its reactions (start of the
next task, `finally`) are jobs in one queue that is served in order. `Wiring` records the four ways the source chains
them. Whatever the tasks do, and whether they resolve or reject, each scheduler's runs are shown to be runs of
`KeyedFifo`. `cleanupState` in the executor deletes by conversation id without comparing records; it is safe only
because the `finally` job of a task is always served before the next task of that key starts, and the proof uses that
order (`ConversationExecutor.CleanupIsSafe`).

## Where the code is weaker than its comments suggest

- An `onError` callback that throws makes the write cycle's promise reject, and a state saved meanwhile stays pending
  with nothing left to write it (`DebouncedStateStore.ThrowingOnErrorStrands`, `NeverStrandedExactlyWhen`).
- Unsetting the `id` of an array entry whose id is repeated later makes the path address the later entry, so the value
  is still there (`RawConfig.UnsetThenGetIn`, `UnsetOfRepeatedIdReadsOn`). The rollback of `/config set` never unsets
  such a path, it unsets only keys of `transport` (src/commands/handlers/config-handler.ts:88-97); only a direct caller
  of `unsetRawValue` reaches it.
- `[PROGRESS]` in the middle of a line is reported or not depending on where the stream was cut; the exact condition
  for chunk independence is that every line is steady (`ProgressLines.ChunkIndependentExactlyWhen`,
  `SteadyLineExactlyWhen`, `MidLinePrefixDependsOnChunks`).
- `turnKey` joins chat key and alias with a space, so different pairs can share a turn; a pair has its key to itself
  exactly when neither part contains a space (`ControlTurns.KeyIsUniqueExactlyWhen`, `CollidingTurnIsRefused`).
- When the pid file cannot be written after a successful spawn, the starter removes it although the daemon is alive,
  and the next start spawns a second one; with no failed pid write there is never more than one
  (`DaemonStart.LostPidAllowsSecondDaemon`, `AtMostOneDaemonExactlyWhen`).
- A retention pass that stops at an error is sure to keep a suffix of the log only when readdir listed the numbered
  files from the highest down, which it does not promise. For every other order, and every size limit, there is a run
  of writes after which the stopped pass loses bytes from the middle; with two generations, three one-byte lines do
  (`RetentionPass.StoppedPassKeepsSuffixExactlyWhen`, `AscendingLosesSuffix`, `StoppedPassLosesMiddleLine`).
- A rotation while a retention pass is on can put a newer file under a number about to be removed. A run without equal
  lines keeps a suffix at all times exactly when every `rm` found nothing numbered above the file it took
  (`InterleavedPass.RunKeepsSuffixExactlyWhen`). All runs do so exactly when readdir lists from the highest number down
  and no rotation comes between readdir and the end of the pass, or when at most one generation is kept; no rotation
  between a name's `stat` and its `rm` is not enough (`InterleavedPass.DisciplineIsSafeExactlyWhen`). The daemon awaits
  the pass at start-up (src/main.ts:184,195).
- Watch ids are random and not checked. An id that repeats while its earlier watch is still running can hand that watch's
  result to the later watcher, and one that repeats while the earlier record is still held overwrites it; an id that
  repeats after both are done is harmless (`WatchRegistry.ResultsAreOwnExactlyWhen`, `FatesAreKeptExactlyWhen`,
  `RepeatedIdMixesResults`, `RepeatedIdAfterServing`).

## Model

| member | source | states |
|---|---|---|
| KeyedFifo.QueueDropsHead | src/orchestration/async-mutex.ts:4-17 | removing a finished head leaves the rest of its key's queue unchanged and in order |
| KeyedFifo.StepIsQueueStep | src/orchestration/async-mutex.ts:4-17 | submitting appends to one key's queue, only a head starts, finishing removes that head, and no other queue changes |
| PromiseLoop.SubmitKeepsInv | src/runtime/conversation-executor.ts:57-65 | chaining a task behind the latest tail of its key keeps the job-queue invariant |
| PromiseLoop.RunHeadKeepsInv | src/runtime/conversation-executor.ts:59-62 | serving the next promise job keeps the invariant, and a start job always reaches a task that was waiting |
| PromiseLoop.FinishKeepsInv | src/bridge/bridge-request-scheduler.ts:21-25 | settling a task, resolved or rejected, keeps the invariant |
| PromiseLoop.SubmitRefines | src/runtime/conversation-executor.ts:57-63 | submitting to a promise tail is submitting to the key's queue |
| PromiseLoop.RunHeadRefines | src/runtime/conversation-executor.ts:59-70 | serving a promise job starts the head of one queue or changes nothing in the queues |
| PromiseLoop.FinishRefines | src/bridge/bridge-request-scheduler.ts:21-32 | settling a task, in either outcome, removes it from the head of its queue |
| PromiseLoop.AbsKeepsInv | src/bridge/bridge-request-scheduler.ts:18-25 | the queues read off the promise chains satisfy the queue machine's invariant: at most one running task per key, the oldest unfinished |
| PromiseLoop.StepMovesQueues | src/runtime/conversation-executor.ts:57-70 | a step of a promise chain moves every key's queue as the queue machine does |
| PromiseLoop.StartsExactlyWhen | src/runtime/conversation-executor.ts:57-63 | chaining a task queues its start at once exactly when every earlier task of its key has settled its tail, and queues nothing otherwise |
| PromiseLoop.TasksKeepTheirOwn | src/runtime/conversation-executor.ts:59-70 | in every run a submitted task keeps its key, a started one stays started, and a settled one keeps the outcome it settled with |
| PromiseLoop.IdleIsAllClosed | src/bridge/bridge-request-scheduler.ts:21-32 | with no job queued and no task running every submitted task has run, settled and cleaned up: a rejection blocks nobody |
| PromiseLoop.StepsUseUpWork | src/bridge/bridge-request-scheduler.ts:21-32 | every job and every settled task uses up work, so runs without new submissions come to an end |
| ConversationExecutor.CleanupIsSafe | src/runtime/conversation-executor.ts:32-36 | the record held by a finally closure is the one stored under the conversation id, and it is deleted only when all its work is finished |
| ConversationExecutor.GateIsGood | src/runtime/conversation-executor.ts:57-63 | the stored tail is the latest unfinished task of the key; with no stored tail every earlier task of the key is finished |
| ConversationExecutor.RunKeepsInv | src/runtime/conversation-executor.ts:45-63 | run() in either lane keeps the books exact: a record for a conversation and a tail for a key exactly while they have unfinished work |
| ConversationExecutor.RunReactionKeepsInv | src/runtime/conversation-executor.ts:51-54 | finally reactions, dropping tails and records, keep the books exact |
| ConversationExecutor.TaskSettlesKeepsInv | src/runtime/conversation-executor.ts:59-62 | a task that settles, in either outcome, keeps the books exact |
| ConversationExecutor.EveryRunFollowsQueues | src/runtime/conversation-executor.ts:38-71 | every run of both lanes is a run of the per-key queues, across records dropped and created again: each step appends to one key's queue, starts its head, removes its running head, or changes no queue |
| ConversationExecutor.NormalTasksRunInOrder | src/runtime/conversation-executor.ts:57-70 | a normal task starts only after all earlier tasks of its conversation and session key have settled; unfinished work always has its record |
| ConversationExecutor.CallStartsExactlyWhen | src/runtime/conversation-executor.ts:47-63 | a call adds one task under the key its arguments name, `__chat__` when no session is given; it starts at once on the control lane, and on the normal lane exactly when no earlier task of that conversation and session is unsettled |
| ConversationExecutor.NormalCallsRunInOrder | src/runtime/conversation-executor.ts:57-62 | in every run, of two normal calls with one conversation and session the later one starts only after the earlier one has settled |
| ConversationExecutor.ControlCallsNeverWait | src/runtime/conversation-executor.ts:47-51 | in every run, a control call has started or its start is queued, whatever else its conversation does |
| ConversationExecutor.OutcomeIsOwn | src/runtime/conversation-executor.ts:59-65 | in every run a task keeps the outcome it settled with, resolved or rejected |
| ConversationExecutor.RestLeavesNothing | src/runtime/conversation-executor.ts:24-36 | at rest every task has run and settled and no record is left |
| ConversationExecutor.Executor.Submit | src/runtime/conversation-executor.ts:39-71 | run() refines the specified step and keeps the invariant |
| ConversationExecutor.Executor.RunNext | src/runtime/conversation-executor.ts:51-54 | serving one job refines the specified step and keeps the invariant |
| ConversationExecutor.Executor.Settle | src/runtime/conversation-executor.ts:59-62 | settling a running task refines the specified step and keeps the invariant |
| BridgeScheduler.EveryRunFollowsQueues | src/bridge/bridge-request-scheduler.ts:13-42 | every run of the normal lane is a run of the per-session queues: each step appends to one key's queue, starts its head, removes its running head, or changes no queue |
| BridgeScheduler.RequestsRunInOrder | src/bridge/bridge-request-scheduler.ts:18-32 | requests of a session never overlap and start in order, an entry exists while they are unfinished, at rest all have run and no entry is left |
| BridgeScheduler.Scheduler.Submit | src/bridge/bridge-request-scheduler.ts:18-27 | run() on the normal lane refines the specified step and keeps the invariant |
| BridgeScheduler.Scheduler.RunNext | src/bridge/bridge-request-scheduler.ts:27-32 | serving one job, including the finally that may delete the entry, refines the specified step |
| WakeLocks.GateIsGood | src/main.ts:324-330 | the stored lock is the latest unfinished wake-up of the session |
| WakeLocks.EveryRunFollowsQueues | src/main.ts:322-337 | every run of wakeCoordinator is a run of the per-session queues: each step appends to one key's queue, starts its head, removes its running head, or changes no queue |
| WakeLocks.WakesRunInOrder | src/main.ts:322-337 | wake-ups of one session run once each, in order, without overlap, holding a lock entry; at rest no entry is left, rejected or not |
| WakeLocks.Locks.WakeCoordinator | src/main.ts:323-337 | queueing a wake-up refines the specified step and keeps the invariant |
| WakeLocks.Locks.RunNext | src/main.ts:331-335 | serving one job, including the compare-and-delete, refines the specified step |
| AsyncMutex.EveryRunFollowsQueue | src/orchestration/async-mutex.ts:4-17 | every run of the mutex is a run of one queue: each step appends to one key's queue, starts its head, removes its running head, or changes no queue |
| AsyncMutex.MutualExclusion | src/orchestration/async-mutex.ts:11-16 | at most one critical section is open, and they open in call order |
| AsyncMutex.Mutex.Run | src/orchestration/async-mutex.ts:4-11 | run() up to its await refines the specified step |
| DebouncedStateStore.EveryRunKeepsInv | src/state/debounced-state-store.ts:24-95 | every run keeps the bookkeeping invariant of saves, cycles and flush loops |
| DebouncedStateStore.NeverStrandedExactlyWhen | src/state/debounced-state-store.ts:35-63 | in every run a pending state has a timer, a write, a due continuation or a flush loop, exactly when onError does not throw |
| DebouncedStateStore.ThrowingOnErrorStrands | src/state/debounced-state-store.ts:78-94 | a concrete run that strands a pending state when onError throws |
| DebouncedStateStore.WritesAreSerial | src/state/debounced-state-store.ts:65-88 | delegate writes never overlap and their save numbers strictly increase |
| DebouncedStateStore.SettledMeansWritten | src/state/debounced-state-store.ts:78-85 | a resolved save was covered by a successful write that began after it, with its state or a newer one; a rejected one by a failed write |
| DebouncedStateStore.SettledForGood | src/state/debounced-state-store.ts:78-85 | a settled save keeps its outcome, so each settles at most once |
| DebouncedStateStore.SaveIsPending | src/state/debounced-state-store.ts:24-33 | an accepted save becomes the pending state and the last resolver, with a timer armed or a write under way; a refused one changes nothing |
| DebouncedStateStore.StoreRecordsItsCalls | src/state/debounced-state-store.ts:24-52 | in every run the accepted saves are exactly those before any dispose(), the calls to flush() and dispose() are recorded as made, and the writes ended as the delegate said, in order |
| DebouncedStateStore.WriteSettlesItsSaves | src/state/debounced-state-store.ts:80-85 | a write settles exactly the saves it took along, with its outcome, and no other |
| DebouncedStateStore.FlushMeansSettled | src/state/debounced-state-store.ts:35-52 | in every run a flush() or dispose() that returned has seen every save accepted before it settled |
| DebouncedStateStore.FlushFailsExactlyWhen | src/state/debounced-state-store.ts:41-46 | a flush() rejects exactly when the write it awaited failed and onError threw |
| DebouncedStateStore.DisposedIsFlushed | src/state/debounced-state-store.ts:49-52 | after dispose() returns every accepted save is settled and the last write carried the last accepted state |
| DebouncedStateStore.InternalStepUsesFuel | src/state/debounced-state-store.ts:35-47 | every step the store takes on its own decreases a measure, so flush() ends once saves stop |
| DebouncedStateStore.RestIsFlushed | src/state/debounced-state-store.ts:35-47 | when no step is left nothing is pending, all flush() calls have returned and all saves are settled |
| DebouncedStateStore.Store.SaveState | src/state/debounced-state-store.ts:24-33 | save() refines the specified step, keeps the invariant, and is refused exactly when disposed |
| DebouncedStateStore.Store.OnDelegateSettled | src/state/debounced-state-store.ts:80-85 | the resolver loop settles exactly the write's saves, with the write's outcome |
| DebouncedStateStore.Store.FlushLoop | src/state/debounced-state-store.ts:36-46 | the while loop up to its next await equals one specified turn |
| DebouncedStateStore.Store.StartFlush | src/state/debounced-state-store.ts:35-52 | flush() or dispose() entered, keeping the invariant |
| DebouncedStateStore.Store.ResumeFlush | src/state/debounced-state-store.ts:41-46 | a flush loop resumed after its await, or failed with the cycle it awaited |
| LogRotation.ShiftDropsOldest | src/logging/rotating-file-writer.ts:32-44 | dropping the oldest generation and moving up those from any number on loses that generation and nothing else |
| LogRotation.RotationDropsOldest | src/logging/rotating-file-writer.ts:19-44 | a rotation, complete or cut off after any remove or rename, leaves the contents as they were or without the oldest generation, in the same order |
| LogRotation.CleanedKeepsSuffix | src/logging/rotating-file-writer.ts:66-86 | with modification times in order, a completed retention pass leaves a suffix |
| LogRotation.RotatesExactlyWhen | src/logging/rotating-file-writer.ts:10-30 | a rotation is due exactly when the live file is there, has bytes, and would grow over the limit; otherwise nothing changes |
| LogRotation.OthersAreUntouched | src/logging/rotating-file-writer.ts:66-86 | a completed pass removes exactly the numbered files from before the cutoff; an append touches the live file only |
| LogRotation.AppendKeepsBound | src/logging/rotating-file-writer.ts:19-25 | after rotate-then-append every file is at most the larger of maxSizeBytes and the longest line |
| LogRotation.StepKeepsInv | src/logging/rotating-file-writer.ts:4-87 | every step, cut off or not, keeps the suffix and the bound; a retention pass cut off only when it went from the highest number down |
| LogRotation.FilesHoldASuffix | src/logging/rotating-file-writer.ts:4-45 | in every run from an empty directory the files, highest number first, hold a suffix of the appended stream within the bound |
| LogRotation.NothingLostEarly | src/logging/rotating-file-writer.ts:19-44 | without retention passes the files hold the whole stream until there were more rotations, complete or not, than generations |
| LogRotation.LogDirectory.RotateIfNeeded | src/logging/rotating-file-writer.ts:4-45 | the loop of renames yields the specified shift of all generations |
| LogRotation.LogDirectory.CleanupExpired | src/logging/rotating-file-writer.ts:66-86 | the loop removes exactly the expired numbered files among the names it got through |
| RetentionPass.StoppedPassKeepsSuffixExactlyWhen | src/logging/rotating-file-writer.ts:56-86 | whatever a run of rotations, appends and passes has written, a pass over these names stopped after any of them leaves a suffix of the lines, and of the bytes, exactly when the names go from the highest number down |
| RetentionPass.AscendingLosesSuffix | src/logging/rotating-file-writer.ts:66-86 | for every other order of names within the number of generations, a run after which a pass stopped between the two names leaves bytes that are no suffix of those written |
| RetentionPass.StoppedPassLosesMiddleLine | src/logging/rotating-file-writer.ts:66-86 | with two generations and one-byte files, a pass that read number 1 first and stopped leaves the first and the third of three lines |
| RetentionPass.GrowingIsReachable | src/logging/rotating-file-writer.ts:19-44 | for every choice of numbers within the generations some run, with rotations cut off where a number is missing, leaves exactly those files |
| InterleavedPass.RunKeepsSuffixExactlyWhen | src/logging/rotating-file-writer.ts:4-86 | in a run without equal lines, with writes between the awaits of a pass, the files read as a suffix at all times exactly when every rm found no file numbered above the one it took |
| InterleavedPass.DisciplineIsSafeExactlyWhen | src/logging/rotating-file-writer.ts:47-86 | all runs keep a suffix at all times exactly when readdir lists from the highest number down and no rotation comes between it and the pass's end, or at most one generation is kept |
| InterleavedPass.OrderlyTakesTop | src/logging/rotating-file-writer.ts:71-85 | in such a pass the file an rm takes has the highest number there is |
| InterleavedPass.StatCondemnsExactlyWhen | src/logging/rotating-file-writer.ts:71-83 | a stat lets exactly a numbered file from before the cutoff be removed |
| InterleavedPass.CutFromMiddleShows | src/logging/rotating-file-writer.ts:83-85 | removing a file below a kept one leaves no suffix of a stream without equal lines |
| PerfLogWriter.LogHoldsWrittenLines | src/perf/perf-log-writer.ts:69-104 | the log received the accepted lines in order with only failed or skipped ones left out, and its files hold a suffix of that |
| PerfLogWriter.OffExactlyWhenThresholdFailed | src/perf/perf-log-writer.ts:86-103 | the writer is off exactly when some threshold writes in a row failed; it notified exactly once and skips every later batch |
| PerfLogWriter.OffIsFinal | src/perf/perf-log-writer.ts:79-103 | in a run, once off the writer stays off, and its files, notices and accepted lines are those of that moment ever after |
| PerfLogWriter.FlushWaitsForEarlierLines | src/perf/perf-log-writer.ts:50-53 | a flush() that returned has seen every line accepted before it written, failed or skipped |
| PerfLogWriter.FlushWaitsForLinesMeanwhile | src/perf/perf-log-writer.ts:50-53 | a flush() that returned has also seen every line accepted until its first wait was over |
| PerfLogWriter.WriterRecordsItsCalls | src/perf/perf-log-writer.ts:45-49 | in every run the accepted lines are exactly those enqueued while the writer was on, in order, and each batch has the fate of its file operations |
| PerfLogWriter.Writer.DrainBatch | src/perf/perf-log-writer.ts:79-104 | drainBatch() rotates, appends and counts failures as specified |
| RawConfig.SetThenGetIn | src/config/config-store.ts:191-203 | after a set that succeeds, get returns the value, exactly when the written path stays addressable |
| RawConfig.SetThenGet | src/config/config-store.ts:175-203 | set then get returns the value for every path whose templates carry their id and whose last key is not `id` |
| RawConfig.GoodPathSticks | src/config/config-store.ts:262-274 | such paths stay addressable in every document |
| RawConfig.SetKeepsDivergingReads | src/config/config-store.ts:191-203 | a set changes no read at a diverging path, unless it runs through an array entry the set created |
| RawConfig.ThroughCreatedIsMissing | src/config/config-store.ts:265-274 | before the set such a path had no value |
| RawConfig.SetKeepsPresentReads | src/config/config-store.ts:191-203 | a value that could be read survives a set at any diverging path |
| RawConfig.UnsetThenGetIn | src/config/config-store.ts:205-218 | after unset the path is absent, except exactly when it removed an id that a later entry repeats |
| RawConfig.UnsetOfRepeatedIdReadsOn | src/config/config-store.ts:205-218 | a concrete document with two channels of one id, where the id is still read after it was unset |
| RawConfig.UnsetKeepsDivergingReads | src/config/config-store.ts:205-218 | unset changes no read at a diverging path |
| RawConfig.UnsetOfMissing | src/config/config-store.ts:209-212 | unset of an absent value leaves the document as it was |
| RawConfig.RestoreIsExact | src/config/config-store.ts:175-218 | capture, set, restore gives back the original document exactly when the parents already existed |
| RawConfigPlaces.GetAnswersExactlyWhen | src/config/config-store.ts:175-189 | a read finds exactly the addressed value; it refuses exactly a path that does not end in a key or meets an unsafe one |
| RawConfigPlaces.SetSucceedsExactlyWhen | src/config/config-store.ts:191-203 | a set succeeds exactly when the path ends in a safe key and every container on the way has the right kind, a missing one counting as empty and a missing entry as its template; it then changes that place and nothing else |
| RawConfigPlaces.SetInFailsAtKey | src/config/config-store.ts:243-262 | the error at an object key: unsafe, no object, or a value that is no container; otherwise the inner one |
| RawConfigPlaces.SetInFailsAtEntry | src/config/config-store.ts:264-277 | the error at an array entry: no array, or no such entry and no template; otherwise the inner one |
| RawConfigPlaces.UnsetAnswersExactlyWhen | src/config/config-store.ts:205-218 | an unset is refused exactly when a read is, leaves a document without the value alone, and otherwise takes out that value and nothing else |
| RawConfig.ReadRawConfigValue | src/config/config-store.ts:175-189 | the loop over the segments reads what the recursive definition reads |
| RawConfig.SetRawConfigValue | src/config/config-store.ts:191-203 | the loop that creates containers on demand yields the recursive definition's document or error |
| RawConfig.UnsetRawConfigValue | src/config/config-store.ts:205-218 | the loop yields the recursive definition's document or error |
| ConfigStore.InterleavingsAreSerial | src/config/config-store.ts:125-141 | any interleaving of patches leaves the file as applying them in lock order does |
| ConfigStore.FailedPatchKeepsFile | src/config/config-store.ts:133-138 | the file changes only when a patch succeeds; a call that throws leaves it exactly as it was |
| ConfigStore.PatchWritesExactlyWhen | src/config/config-store.ts:125-141 | a patch writes exactly when the file is missing or holds an object, the mutation succeeds, and validation accepts the outcome with empty required sections filled in; it writes the outcome without them |
| ConfigStore.FileIsTheWritesInTurn | src/config/config-store.ts:122-141 | in every run the file is what its writes make of it one by one, each patching what the ones before it left |
| ConfigStore.WriteHappensExactlyWhen | src/config/config-store.ts:132-138 | a call writes exactly when its patch of the file as it is and the write itself succeed |
| ConfigStore.PatchKeepsReadable | src/config/config-store.ts:132-138 | a later successful patch at a diverging path keeps an earlier value readable |
| ConfigStore.NoLostUpdates | src/config/config-store.ts:122-141 | successful patches at pairwise diverging paths can all be read back at the end |
| ConfigStore.Store.PatchRaw | src/config/config-store.ts:125-141 | read, patch, validate and write as one specified patch of the file |
| ConfigStore.Store.GetRawValue | src/config/config-store.ts:143-168 | reading a value from the file without changing it |
| ProgressLines.Sanitize | src/orchestration/progress-line-parser.ts:68-76 | a summary is never longer than 500 code units |
| ProgressLines.SanitizeIsIdempotent | src/orchestration/progress-line-parser.ts:68-76 | a summary has no control characters and no white space at its ends, and sanitizing it again changes nothing |
| ProgressSummaries.SanitizeOfPlain | src/orchestration/progress-line-parser.ts:68-76 | a text without control characters and without white space at its ends is its own summary up to 500 code units; a longer one is cut to 497 and three dots |
| ProgressSummaries.SanitizeIgnores | src/orchestration/progress-line-parser.ts:69-71 | control characters anywhere and white space at the ends play no part in a summary |
| ProgressSummaries.ExtractsExactlyWhen | src/orchestration/progress-line-parser.ts:47-54 | a line has a summary exactly when it starts with `[PROGRESS]` and the rest is not blank; a CR at its end does not count |
| ProgressSummaries.PendingIsKeptExactlyWhen | src/orchestration/progress-line-parser.ts:38-65 | an unfinished line is kept exactly when it may still be a progress line and has at most 4096 code units |
| ProgressSummaries.ReportsReadBack | src/orchestration/progress-line-parser.ts:18-45 | reports written one to a line are read back as they were, however the stream is cut |
| ProgressLines.Fed | src/orchestration/progress-line-parser.ts:18-36 | what stays pending after a feed has no line feed and at most 4096 code units |
| ProgressLines.ChunkIndependentExactlyWhen | src/orchestration/progress-line-parser.ts:18-45 | every cutting of a text into chunks gives the same summaries, exactly when forgetting a hopeless line start changes no line's summary |
| ProgressLines.SteadyLineExactlyWhen | src/orchestration/progress-line-parser.ts:47-65 | that condition by occurrences of the prefix: an over-long progress line has nothing to say, and neither has any prefix after a hopeless start |
| ProgressLines.MidLinePrefixDependsOnChunks | src/orchestration/progress-line-parser.ts:56-65 | a text with the prefix inside a line gives different summaries for two cuttings |
| ProgressLines.CleanTextGivesWholeLines | src/orchestration/progress-line-parser.ts:18-66 | with the prefix only at line starts and progress lines of at most 4096, every cutting gives exactly the summaries of the whole lines |
| ProgressLines.WholeLinesExactlyWhen | src/orchestration/progress-line-parser.ts:18-66 | every cutting gives the summaries of the whole lines, exactly when all lines are steady and what one feed delivers is already those |
| ProgressLines.DeliversWholeLinesExactlyWhen | src/orchestration/progress-line-parser.ts:56-65 | the second condition: an unterminated last line over 4096 has no summary |
| ProgressLines.WholeLinesSurvive | src/orchestration/progress-line-parser.ts:18-66 | without the line-start condition, but with progress lines of at most 4096, the whole lines' summaries are still a subsequence of the output |
| ProgressLines.ProgressLineBuffer.Feed | src/orchestration/progress-line-parser.ts:18-36 | the loop over line feeds gives the specified summaries and pending text |
| StderrLines.NotesIgnoreChunks | src/bridge/bridge-runtime.ts:677-698 | the notes are the right-trimmed non-blank pieces between CR and LF characters of the whole stream, in order, however it was cut |
| StderrLines.BreakSeparates | src/bridge/bridge-runtime.ts:281-286 | the reference: any CR or LF separates the pieces of a text |
| StderrLines.SplitThenPieces | src/bridge/bridge-runtime.ts:681-688 | reporting the complete pieces and keeping the tail loses and repeats nothing, even inside a CRLF |
| StderrLines.NoteIsTheText | src/bridge/bridge-runtime.ts:281-286 | the note of a line is the line without the white space at its end; a blank line has none |
| StderrLines.PrintedLinesAreReported | src/bridge/bridge-runtime.ts:677-698 | lines printed with any of the three separators are reported as printed, however the stream is cut |
| StderrLines.Capture.OnData | src/bridge/bridge-runtime.ts:677-689 | one chunk: stderr grows by it, the complete lines are reported, the tail is kept |
| CommandTokenizer.TokenizeCommand | src/commands/parse-command.ts:692-738 | the loop over code points equals the scan over code units, offsets included |
| CommandTokenizer.RetokenizeFromToken | src/commands/parse-command.ts:692-738 | from any token's start the input tokenizes to the remaining tokens with shifted offsets |
| CommandTokenizer.TokensAreOrdered | src/commands/parse-command.ts:681-690 | tokens are not empty and their starts strictly increase inside the input |
| CommandTokenizer.TokenizeUndoesQuoting | src/commands/parse-command.ts:673-738 | quoted values joined by spaces tokenize to exactly those values, at the offsets of their opening quotes |
| CommandWords.TokensAreTheWords | src/commands/parse-command.ts:673-738 | a line of words between white space, made of bare characters and texts in the five pairs of quotes, tokenizes to the words without the quotes, at their offsets; the last quote may stay open |
| CommandWords.EveryInputIsALine | src/commands/parse-command.ts:692-738 | every input is such a line |
| CommandTokenizer.ScanPair | src/commands/parse-command.ts:699-701 | a surrogate pair advances the offset by two and is copied whole |
| CommandBodies.TailRetokenizes | src/commands/parse-command.ts:86-87 | rawTail is a verbatim suffix that tokenizes to the remaining parts, and is blank exactly past the last token |
| CommandBodies.LaterTailsMatchTokens | src/commands/parse-command.ts:313-324 | each `/later` tail re-tokenizes to the matching suffix of its tokens |
| CommandBodies.LaterAnswersExactlyWhen | src/commands/parse-command.ts:313-324 | `/later` alone is help, with `list` or with `cancel` and an id it is that, and otherwise a request with all the words after it |
| CommandBodies.DelegateIsVerbatim | src/commands/parse-command.ts:792-837 | a delegation is read exactly when a part after the flag pairs starts a body; role and group are the last given, the task is that verbatim suffix |
| CommandBodies.ParseDelegateRequest | src/commands/parse-command.ts:792-837 | the flag loop yields the specified request or none |
| ControlTurns.TurnsAlternate | src/control/control-service.ts:211-288 | per chat key and alias, started and finished alternate with all other events in between from the same call |
| ControlTurns.OneTurnPerKey | src/control/control-service.ts:209-223 | at most one call per key is in flight, the stored controller is its own, and the entry is gone when it has returned |
| ControlTurns.ReturnedCallsAreWhole | src/control/control-service.ts:237-287 | a returned call emitted one whole turn with its own result, or nothing |
| ControlTurns.CancelledExactlyWhenAskedFor | src/control/control-service.ts:276-283 | a failed turn is reported as cancelled exactly when cancelTurn hit its call before |
| ControlTurns.KeyIsUniqueExactlyWhen | src/control/control-service.ts:317-319 | a pair shares its turn key with no other pair exactly when neither part contains a space |
| ControlTurns.SpaceFreeChatKeysDoNotCollide | src/control/control-service.ts:317-319 | chat keys without spaces never share a turn key |
| ControlTurns.CollidingTurnIsRefused | src/control/control-service.ts:212-215 | in every run, while a call is in flight a call of any pair with the same key is refused, and cancelling that pair aborts the call in flight |
| ControlTurns.CollidingPairs | src/control/control-service.ts:317-319 | two concrete pairs with one key |
| ControlTurns.CallIsTakenExactlyWhen | src/control/control-service.ts:211-217 | a call is taken exactly when none with its key is in flight, and then holds the key; cancelling aborts exactly the call in flight under the key |
| ControlTurns.StepEmits | src/control/control-service.ts:225-284 | each step emits the event of its kind in its call's name, or none |
| ControlTurns.StepMoves | src/control/control-service.ts:218-288 | each step moves its own call only, and the key is released exactly when the call returns |
| ControlTurns.StepKeepsInv | src/control/control-service.ts:209-297 | every step keeps the map, the traces and each call's events consistent |
| ControlTurns.ControlService.ChatSettled | src/control/control-service.ts:264-284 | emits the last chunk and turn-finished, or the failed turn-finished with the controller's state |
| DaemonStart.AtMostOneDaemon | src/daemon/daemon-controller.ts:98-138 | however starts interleave, at most one daemon is alive beyond those whose pid could not be written |
| DaemonStart.OneWinner | src/daemon/daemon-controller.ts:98-138 | while no pid write fails, every ended call but the spawner's was refused, failed, or reported that daemon as running |
| DaemonStart.SomebodyWins | src/daemon/daemon-controller.ts:113-137 | when all calls have ended and no file operation or spawn failed, exactly one daemon is alive |
| DaemonStart.DecisionExactlyWhen | src/daemon/daemon-controller.ts:74-107 | a call reports a running daemon exactly when the pid is alive with a status, refuses exactly when it is alive without one, and otherwise goes on |
| DaemonStart.ClaimExactlyWhen | src/daemon/daemon-controller.ts:168-182 | a call gets the pid file exactly when there is none, and is refused otherwise |
| DaemonStart.PollExactlyWhen | src/daemon/daemon-controller.ts:189-216 | a waiting call has started exactly when the status names its daemon or it was told to stop waiting for a live one, and fails exactly on a dead one without that |
| DaemonStart.AtMostOneDaemonExactlyWhen | src/daemon/daemon-controller.ts:98-138 | at most one daemon is alive in every run, whatever else throws, exactly when no pid write fails |
| DaemonStart.LostPidAllowsSecondDaemon | src/daemon/daemon-controller.ts:121-128 | a run in which the pid file of a live daemon is removed after a failed pid write, and a second daemon starts |
| DaemonStart.StepKeepsInv | src/daemon/daemon-controller.ts:74-138 | every step, including the file operations that throw, keeps one owner of the pid file and distinct daemons |
| DaemonStart.DaemonController.DecideStart | src/daemon/daemon-controller.ts:76-107 | the rest of getStatus and the early exits of start |
| WatchRegistry.CappedAndOneShot | src/mcp/xacpx-mcp-server.ts:190-201 | the registry stays within its cap, and each settled result is held or handed out at most once over both fetch paths |
| WatchRegistry.RegisterKeepsNewest | src/mcp/xacpx-mcp-server.ts:529-542 | registering drops only the oldest entry, only when full, and never the new one |
| WatchRegistry.CreateHoldsTheNewest | src/mcp/xacpx-mcp-server.ts:529-542 | registering holds a record without a result for the new watch, of at most 256, and drops none below that |
| WatchRegistry.SettleReachesItsRecord | src/mcp/xacpx-mcp-server.ts:338-362 | a watch that settles gives its result to the record under its id and to no other |
| WatchRegistry.FetchAnswersExactlyWhen | src/mcp/xacpx-mcp-server.ts:190-201 | a fetch hands out the result held under the id and drops that record, or changes nothing |
| WatchRegistry.CreatePlaces | src/mcp/xacpx-mcp-server.ts:529-542 | conservation: registering places one more watcher among registered, served and evicted ones, and loses only the owner of a record still held under its id |
| WatchRegistry.FatesAreKeptExactlyWhen | src/mcp/xacpx-mcp-server.ts:529-542 | in a run every watcher is always registered, served or evicted, one of these and once, exactly when none was registered over a record still held under its id |
| WatchRegistry.CreateKeepsOwnExactlyWhen | src/mcp/xacpx-mcp-server.ts:338-358 | registering keeps every result its own watch's exactly when no watch under that id is still running |
| WatchRegistry.ResultsAreOwnExactlyWhen | src/mcp/xacpx-mcp-server.ts:333-380 | in a run every result held or handed out is its own watch's, and stays so whichever watch settles next, exactly when none was registered under the id of a watch still running |
| WatchRegistry.EvictedInCreationOrder | src/mcp/xacpx-mcp-server.ts:535-541 | where no held record was overwritten, evictions follow creation order, and at least 256 watchers came after each evicted one |
| WatchRegistry.WatcherFate | src/mcp/xacpx-mcp-server.ts:318-381 | a watcher is never two of registered, served and evicted; it is one of them where no held record was overwritten, what it was served was taken under its id, and is its own result where no running watch was overlapped |
| WatchRegistry.GoneStaysGone | src/mcp/xacpx-mcp-server.ts:338-362 | a consumed or evicted watcher never reappears when its watch settles |
| WatchRegistry.RepeatedIdMixesResults | src/mcp/xacpx-mcp-server.ts:333-358 | two running watches under one id: the second watcher is handed the first one's result and the second result is dropped |
| WatchRegistry.RepeatedIdAfterServing | src/mcp/xacpx-mcp-server.ts:190-201 | an id used again after its watch was served: each watcher gets its own result |
| WatchRegistry.WatchTasks.RegisterWatchTask | src/mcp/xacpx-mcp-server.ts:529-542 | the eviction loop yields the specified registry |
| LaterTime.WeekdayIsTheNextOne | src/scheduled/parse-later-time.ts:97-108 | the least instant strictly after now on that weekday at that clock time, within seven days |
| LaterTime.WeekdayRequestIsAccepted | src/scheduled/parse-later-time.ts:97-141 | a weekday request is never out of range: it runs then, unless it is under ten seconds away or has no message |
| LaterTime.AcceptedIsInWindow | src/scheduled/parse-later-time.ts:126-141 | every accepted parse is 10 seconds to 7 days ahead and has a message |
| LaterTime.DayRequestIsOnTheDay | src/scheduled/parse-later-time.ts:76-95 | a day request is on that local day at that time; today's is rejected as past exactly when it is not ahead |
| LaterTime.AcceptedDayIsTheDayNamed | src/scheduled/parse-later-time.ts:76-95 | an accepted "at" or "today" runs later today, an accepted "tomorrow" on the next local day, at the clock time |
| LaterTime.ClockReadsBack | src/scheduled/parse-later-time.ts:113-120 | every clock time reads back from its two-digit form, and from a one-digit hour |
| LaterTime.DurationReadsBack | src/scheduled/parse-later-time.ts:55-73 | a decimal amount with a unit reads as that many minutes, hours or days, and any other unit as none |
| LaterTime.DurationReadsExactly | src/scheduled/parse-later-time.ts:36-73 | a delay is read exactly from digits and one of the unit words, as amount times unit |
| LaterTime.ClockReadsExactly | src/scheduled/parse-later-time.ts:113-120 | a clock time is read exactly from one or two digits, a colon and two digits, within the day |
| LaterTime.WeekdayIsInTheTable | src/scheduled/parse-later-time.ts:18-26 | the weekday words and their days |
| LaterTime.DayWordIsInTheTable | src/scheduled/parse-later-time.ts:32-35 | the day words and their distance |
| LaterTime.DelayIsAnswered | src/scheduled/parse-later-time.ts:50-63 | a relative request runs that many milliseconds from now, if it leaves a message and is ten seconds to seven days ahead |
| LaterTime.DayIsAnswered | src/scheduled/parse-later-time.ts:76-95 | a request for today, tomorrow or the day after is answered by the one instant at that time on that day, and today's is past when not ahead |
| LaterTime.UnrecognizedExactlyWhen | src/scheduled/parse-later-time.ts:38-48 | the time is unrecognized exactly when the request has none of the forms |

## Left out

- Heap identity of promises, records and controllers: they are known by number, so aliasing between JavaScript objects is captured only as equality of numbers.
- `RawConfig`: a document is a value and the in-place change of a nested container is a rebuilt document; sharing between containers, key order and prototype-chain lookups are not modelled.
- `ConfigStore`: the file lock is taken to give mutual exclusion, and `parseConfig` is any accept-or-reject predicate on documents.
- `BridgeScheduler`: the control lane, which runs each request at once and keeps no books.
- `LogRotation`: writes that append only part of their data, and files changed by other processes.
- `LogRotation`, `PerfLogWriter`: a retention pass is one step of their runs; `InterleavedPass` cuts it at its awaits, with one pass at a time and each rotate-then-append as one step.
- `PerfLogWriter`: an `onPermanentFailure` callback that throws.
- `DebouncedStateStore`: a delegate that calls back into the store before its `save` returns.
- `ProgressLines`: `segmentComplete: true`, which depends on segment boundaries on purpose, and `stripProgressLines`.
- `StderrLines`: standard output, the timeout kill, and the `--verbose` retry, which starts a new capture.
- `CommandBodies`: all other commands; the command word is taken to be `/later` or `/delegate` already.
- `ControlTurns`: the texts carried by events and results; the agent is taken to call back only while `chat` is pending.
- `DaemonStart`: stop, crashes, stale pid files and the startup deadline's clock (a timeout may come at any poll); pid file reads and writes are atomic. A status file that cannot be parsed counts as missing.
- `LaterTime`: time zones with daylight saving, dates outside the range of `Date`, and letters beyond ASCII in `toLowerCase`.
- Orchestration, scheduled tasks, sessions, quota, rendering, localisation, command-line plumbing, plugins and channel adapters.
