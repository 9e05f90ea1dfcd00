# QuantClaw gateway: verified models

This project models the stateful and algorithmic kernels of the QuantClaw gateway in Dafny and proves what
they keep. `dafny verify dfyconfig.toml` checks all of it.

| file | what it models |
|---|---|
| `SessionLane.dfy`, `QueueSummary.dfy` | one session's queue: activation, overflow policies, summaries that are printed and parsed again |
| `CommandQueue.dfy`, `QueueEvents.dfy` | the queue of all sessions as a class, as functions on its value, and what each step does told from the lane before it |
| `QueueRuns.dfy`, `QueueFates.dfy`, `QueueOrigins.dfy`, `SummaryRuns.dfy`, `QueueWitnesses.dfy` | the queue as a step system over every interleaving |
| `Glob.dfy` | the allowlist matcher with one remembered star |
| `RateLimiter.dfy` | the sliding-window limiter, over whole runs |
| `AgentTurn.dfy`, `AgentAnswers.dfy`, `DagTurns.dfy` | the agent's turn loop in both forms, the DAG log it writes, and evolve runs attached by racing threads |
| `ToolResult.dfy`, `ContextPruner.dfy` | shortening tool results one at a time, and pruning them out of a conversation |
| `Transcript.dfy`, `OutputCapture.dfy`, `LineServer.dfy` | single-pass text handling against plain split, join and cut |
| `MemorySearch.dfy`, `VectorIndex.dfy`, `TokenChunks.dfy` | postings against naive scoring, wide lanes against plain sums, greedy chunking |
| `ConfigPath.dfy`, `SessionKey.dfy` | dot paths into the configuration tree, session keys and their normal form |
| `Text.dfy` | searching, decimal numbers, lines |

Conventions. Source files that change things step by step are methods and classes here; a method is proved
against a function of its inputs or of the old state, and the theorems are lemmas about that function; for the main
ones some of these tell the result in full, in the terms of the source (`...Event`, `...Reads`, `...At`, `...Exact`). A critical
section is one atomic step. Clock readings are integer ticks, and clock readings, fresh ids, the iteration order
of hash tables, the network, the model provider, the tools, JSON parsing and file reading are parameters. Byte
strings are `string`. Floating point is `real`; square root and the term weight are parameter functions.

A command counts as being at work from the dispatcher pass that takes it until the last critical section of
its worker; the thread itself is started just after the pass.

## Where the code does less than its documentation says

Each of these is a theorem, with the exact condition under which the promise holds.

- `src/gateway/command_queue.cppm:88` and `:183` promise serialization per session. An interrupt or an abort
  clears the lane while its worker still runs, and the next message is dispatched beside it
  (`QueueRuns.AbortThenSubmitOverlaps`, a run in `QueueWitnesses.OverlapHappens`). A run is serialized exactly when
  no event interrupts an active lane (`QueueRuns.SerializedRun`).
- A lane exceeds its cap when a message steers it while it is full and active, or when its cap is set below what
  waits: exactly then, over every run (`QueueRuns.CapOverRuns`, a run in `QueueWitnesses.CapExceeded`).
- `src/gateway/command_queue.cppm:29` has an interrupt start with the new message. A command that already waited
  is kept and runs first, unless the cap pushes it out (`QueueRuns.InterruptIsNext`, a run in
  `QueueWitnesses.InterruptRunsOlderFirst`).
- `src/gateway/command_queue.cpp:554` means to discard everything behind a followup, and `:551` to keep the last of
  it. A single command behind it stays, and of two or more none does (`QueueRuns.FollowupLeaves`); the one that stays
  is handed over later (`QueueFates.BehindFollowup`, a run in `QueueWitnesses.FollowupKeepsOne`).
- `src/gateway/command_queue.cppm:26` and the comment at `src/gateway/command_queue.cpp:375` promise that a steering
  message reaches the running context. It is handed to a worker only by a pass that finds the lane inactive
  (`QueueFates.HandedOverWhenInactive`), and nothing changes a worker once it is started
  (`QueueFates.WorkersAsStarted`).
- The allowlist matcher consumes a `*` of the pattern that faces a `*` of the text as an ordinary character, so
  `git *` refuses `git *x` (`Glob.GitStarRefused`); it never accepts what it should not.
- The burst limit needs a window of a second or more (`RateLimiting.BurstExact`).
- RetryAfter answers 0 to a caller that was refused by the burst limit, and at the very tick at which the oldest
  entry expires, though Allow refuses then (`RateLimiting.RetryAfterZero`, both in `RateLimiting.ZeroHappens`).
- A first message that looks like a summary is believed (`QueueSummary.SummaryExact`).
- A path that ends in a dot is set and read at different places (`ConfigPath.GetAfterSet`).
- A session key that ends in a colon has a handle for one session and its messages in another, because a
  normalized key is normalized again (`SessionKeys.TwoSessions`, exactly when in `SessionKeys.StableExactly`).
- The two forms of line truncation differ on text that ends in a newline (`ToolResult.AgreesWithSoftPrune`).
- Turns of one agent loop share its stop flag, and every turn that starts lowers it (`src/core/agent_loop.cpp:407`).
  A streamed turn that left its loop tells its caller and the log different things exactly when the flag changes
  between the two readings (`AgentTurn.DifferExactly`), and ProcessMessage throws that the iterations are exhausted
  with some left exactly when the flag is up at the head of the loop and down behind it
  (`AgentTurn.ExhaustedTooEarly`); `AgentTurn.DifferHappens` has surroundings for each.
- A turn stays open in the DAG log, and throws in both forms, exactly when an exception comes before its loop, at the
  head of a round, or out of the handler of another exception (`AgentTurn.ProcessMessage`,
  `AgentTurn.ProcessMessageStream`, surroundings in `AgentTurn.UncaughtHappens`).
- config.get keeps answering a few paths from the running process, whatever was set or unset on disk
  (`ConfigPath.GetAfterSet`, `ConfigPath.GetAfterUnset`).

## Model

| member | source | states |
|---|---|---|
| SessionLanes.SessionLane.TryActivate | src/gateway/command_queue.cpp:110-126 | activates exactly when something waits, nothing is active and the debounce time of the front command has passed; otherwise changes nothing |
| SessionLanes.SessionLane.CompleteActive | src/gateway/command_queue.cpp:128-135 | frees the lane and returns what it ran as complete |
| SessionLanes.SessionLane.ApplyCapOverflow | src/gateway/command_queue.cpp:137-206 | the in-place loop keeps and gives up what `Overflow` says, ids in the order given up, and touches nothing else |
| SessionLanes.DropOldestKeeps | src/gateway/command_queue.cpp:188-192 | drop-oldest leaves exactly the newest `cap` and gives up the others oldest first |
| SessionLanes.RejectKeeps | src/gateway/command_queue.cpp:193-197 | reject leaves exactly the oldest `cap` and gives up the others newest first |
| SessionLanes.SummarizeKeeps | src/gateway/command_queue.cpp:141-187 | summarize folds the oldest messages into the first entry, which keeps its identity, leaves the newest `cap` - 1 as they are, and gives up the folded ids in order |
| SessionLanes.OverflowCounts | src/gateway/command_queue.cpp:137-206 | under every policy with cap >= 1 the loop leaves min(size, cap) and kept plus dropped is the old size |
| SessionLanes.SummarizedHead | src/gateway/command_queue.cpp:141-187 | one overflow of a lane with plain messages: the head is the header with the count of folded messages and a snippet of each |
| SummaryRuns.SummaryOverRuns | src/gateway/command_queue.cpp:137-416 | over every run that only adds to a summarizing lane, whatever other sessions do: the lane shows all messages submitted to it while they fit, and otherwise the last cap - 1 behind one text folded from all before them |
| SummaryRuns.SummaryReads | src/gateway/command_queue.cpp:137-416 | so after n submissions, n above the cap c, the head is the header with n - c + 1 and that many snippets in order, and the last c - 1 messages are as sent |
| SummaryRuns.CondensedNext | src/gateway/command_queue.cpp:141-187 | merging the two oldest texts of what is shown is folding one more message into the summary |
| SessionLanes.SessionLane.DrainPendingAsSteeringText | src/gateway/command_queue.cpp:208-219 | empties the lane and returns its messages as one text |
| SessionLanes.SessionLane.CancelPending | src/gateway/command_queue.cpp:221-229 | answers true exactly when the id waits, and then removes its first occurrence only |
| SessionLanes.SessionLane.InterruptActive | src/gateway/command_queue.cpp:231-242 | clears what is active, keeps the newest waiting command only |
| QueueSummary.ReadBack | src/gateway/command_queue.cpp:148-180 | the parser inverts the printer: content always, count exactly when it fits an int |
| QueueSummary.MergeWrites | src/gateway/command_queue.cpp:148-181 | both texts of a merge, written out: what follows a plain first message, and what follows a summary of n |
| QueueSummary.FoldedAlways | src/gateway/command_queue.cpp:141-187 | merging a list of messages one after the other, whatever the first one is: the first message as the parser reads it, then a snippet of every later message in order, under a count that has grown by one for each |
| QueueSummary.FoldedTwice | src/gateway/command_queue.cpp:141-187 | overflows add up: folding into a text folded before is folding all at once |
| QueueSummary.SummaryExact | src/gateway/command_queue.cpp:141-187 | the head is header, true count and snippets of all folded messages exactly when the first message is read as one message and its own snippet |
| QueueSummary.FoldedIsSummary | src/gateway/command_queue.cpp:141-187 | which is so for every first message that does not start like a header |
| QueueSummary.HeaderLikeFirstMessage | src/gateway/command_queue.cpp:148-180 | first messages for which it fails: one is lost, one has its number believed |
| CommandQueues.CommandQueue.Submit | src/gateway/command_queue.cpp:337-416 | the whole new state and the dropped ids are the step `Submitted`, of which `QueueEvents.SubmitEvent` says what it does: lane made on demand, mode taken from the lane, interrupt, steer without cap, cap and index clean-up otherwise |
| QueueEvents.LaneFound | src/gateway/command_queue.cpp:323-335 | a session without a lane gets an empty one with mode, debounce time, cap and policy of the configuration of the moment |
| QueueEvents.SubmittedAs | src/gateway/command_queue.cpp:344-362 | the command that is queued carries what was submitted, and the mode of its lane exactly when it asked for collect |
| QueueEvents.SubmitEvent | src/gateway/command_queue.cpp:364-404 | the lane after a submission, in terms of the lane before: an interrupt frees it and leaves the newest that waited, the command goes behind what waits, and beyond the cap the policy leaves the newest, the oldest, or the newest behind one text; only a message that steers an active lane is exempt |
| QueueEvents.SubmitElsewhere | src/gateway/command_queue.cpp:337-416 | a submission changes no other lane, no worker and no count |
| QueueOrigins.SubmitIndex | src/gateway/command_queue.cpp:393-404 | after a submission the index holds the new id and the old ones, but for exactly those that were offered a place in the lane and did not get one |
| QueueEvents.ConfiguredInterrupt | src/gateway/command_queue.cpp:359-371 | a message that asks for no mode interrupts the active run of a session that is configured to interrupt, and its worker goes on |
| QueueFates.ActiveLaneGivesNothing | src/gateway/command_queue.cpp:521-541 | while a lane is active no event hands anything that waits there, steering message or not, to a worker |
| QueueFates.HandedOverWhenInactive | src/gateway/command_queue.cpp:373-391 | in every run a submitted message reaches a worker only later, by a pass, and only when its session's lane is inactive |
| QueueFates.WorkersAsStarted | src/gateway/command_queue.cpp:492-632 | in every run each worker is one that was there before, unchanged, or one that a pass started since: nothing gets into a command at work |
| CommandQueues.CommandQueue.Cancel | src/gateway/command_queue.cpp:418-428 | the whole new state and the answer, for known, stale and unknown ids |
| CommandQueues.CommandQueue.AbortSession | src/gateway/command_queue.cpp:430-443 | the whole new state and the answer |
| CommandQueues.CommandQueue.ConfigureSession | src/gateway/command_queue.cpp:445-457 | the whole new state |
| QueueEvents.AbortEvent | src/gateway/command_queue.cpp:430-443 | an abort frees the lane and leaves the newest command that waits; workers and all else stay |
| QueueEvents.ConfigureEvent | src/gateway/command_queue.cpp:445-457 | the mode is always set, a number unless it is negative, a policy when one is named; all else stays |
| CommandQueues.CommandQueue.DispatchFrom | src/gateway/command_queue.cpp:532-565 | one lane of the walk is the step `DispatchLane`: what is dispatched with which text, what it takes along, what is thrown away (`QueueEvents.PassEvent` tells each) |
| CommandQueues.CommandQueue.EraseIdleLanes | src/gateway/command_queue.cpp:574-581 | exactly the lanes with nothing active and nothing waiting go |
| CommandQueues.CommandQueue.DispatcherPass | src/gateway/command_queue.cpp:507-593 | for every iteration order of the lane table, the loop with its early exit does what the recursive walk does, and the new workers are what it collected; `QueueEvents.PassEvent` says what that means for each lane |
| QueueEvents.DueIsReady | src/gateway/command_queue.cpp:110-126 | a lane is dispatched from when it is inactive and its oldest command has waited the debounce time, told in clock ticks |
| QueueEvents.PassEvent | src/gateway/command_queue.cpp:507-593 | lane by lane in every reachable state: a lane that is due gets exactly one new worker, with its front command and, in collect mode, the texts of all others joined by blank lines, and is left as its mode says, unless no room is left at the end of the pass; of the other lanes the idle ones go and the rest stay |
| QueueEvents.BatchTexts | src/gateway/command_queue.cpp:543-549 | the collected text of every dispatch is its batch from the first message that is not empty, joined by blank lines |
| CommandQueues.CommandQueue.CompleteCommand | src/gateway/command_queue.cpp:621-628 | the whole new state after a worker's last critical section |
| QueueEvents.CompleteEvent | src/gateway/command_queue.cpp:621-628 | a completion takes away its own worker, frees the lane of its session whatever that runs by then, and changes nothing else |
| QueueOrigins.WaitingWasSubmitted | src/gateway/command_queue.cpp:337-632 | in every run every waiting command carries the id, session, connection, request and time of its own submission, the mode that asked for or its lane had at that moment, and its text or a summary |
| QueueOrigins.WorkerWasSubmitted | src/gateway/command_queue.cpp:337-632 | so does every command that is active or at work |
| QueueRuns.InvNext | src/gateway/command_queue.cpp:323-632 | every step keeps: count = workers, every waiting command indexed under its own lane's session, every active lane has a worker, ids in a lane distinct |
| QueueRuns.RunsKeepInv | src/gateway/command_queue.cpp:323-632 | so it holds after every legal run, whatever the interleaving |
| QueueRuns.CancelExact | src/gateway/command_queue.cpp:418-428 | in every reachable state Cancel answers true exactly when the command waits somewhere, removes it and nothing else, despite stale index entries |
| QueueRuns.NextBounded | src/gateway/command_queue.cpp:521-581 | no step takes the active count past the limit |
| QueueRuns.RunsStayBounded | src/gateway/command_queue.cpp:492-632 | in every run the workers never outnumber the largest max_concurrent configured |
| QueueRuns.SerializedStep | src/gateway/command_queue.cpp:337-443 | one step keeps serialization if and only if it does not interrupt an active lane |
| QueueRuns.SerializedRun | src/gateway/command_queue.cpp:337-632 | a run has at most one worker per session, with the lane active exactly while it works, at every moment if and only if no event interrupts an active lane |
| QueueRuns.AbortThenSubmitOverlaps | src/gateway/command_queue.cpp:430-443 | from any reachable state: abort an active session, submit to it, and a pass that reaches it while there is room and the message is due puts a second worker of the session beside the first |
| QueueWitnesses.OverlapHappens | src/gateway/command_queue.cpp:364-371 | a legal run from the start after which two messages of one session are at work |
| QueueRuns.CapKept | src/gateway/command_queue.cpp:364-404 | a submission leaves a lane within its cap if and only if it does not steer a lane that is active and full |
| QueueRuns.CapOverRuns | src/gateway/command_queue.cpp:337-593 | a lane is within its cap at every moment of a run if and only if no event steers it while it is active and full or sets its cap below what waits, for caps of at least one |
| QueueWitnesses.CapExceeded | src/gateway/command_queue.cpp:373-391 | a legal run from the start after which two commands wait in a lane with a cap of one |
| QueueRuns.InterruptIsNext | src/gateway/command_queue.cpp:364-404 | exactly when an interrupting message is the next its session runs, by what waited, the cap and the policy |
| QueueWitnesses.InterruptRunsOlderFirst | src/gateway/command_queue.cpp:231-242 | a legal run in which an older command is handed over before the interrupting one |
| QueueRuns.FollowupLeaves | src/gateway/command_queue.cpp:551-559 | the step: a dispatched followup leaves the lane empty unless exactly one command waited behind it, and then that one stays |
| QueueFates.BehindFollowup | src/gateway/command_queue.cpp:521-581 | over every run: no pass takes or discards the one command behind a followup together with it; later it is handed over by a pass that finds the lane inactive, or given up in a named way, or waits still |
| QueueFates.FateFrom | src/gateway/command_queue.cpp:323-632 | from any moment at which a command waits, it waits on, is handed over at some later event, or is lost at one that gives it up |
| QueueWitnesses.FollowupKeepsOne | src/gateway/command_queue.cpp:551-559 | a legal run in which a followup is handed over, and after it the command behind it |
| QueueRuns.CollectRunsInOrder | src/gateway/command_queue.cpp:337-581 | for a session in collect mode, batches executed so far followed by what waits equal what was submitted, in order, across passes and lane erasures |
| QueueOrigins.CollectedTexts | src/gateway/command_queue.cpp:337-593 | under the same conditions, of the texts that stand in the workers: message and collected text of one worker after the other, followed by the texts that wait, are the submitted texts in order |
| QueueRuns.CollectRunsOnce | src/gateway/command_queue.cpp:337-581 | what was executed is a prefix of what was submitted, no message twice |
| QueueFates.StepFates | src/gateway/command_queue.cpp:337-632 | one step: nothing starts to wait but a new submission, and what is handed to workers was waiting, is distinct and waits no more |
| QueueFates.NothingRunsTwice | src/gateway/command_queue.cpp:323-632 | in every run, in every mode and under every policy, interrupt and abort, no command reaches a worker twice, none that was not submitted, and none still waits afterwards |
| QueueFates.GoneForGood | src/gateway/command_queue.cpp:323-632 | a submitted command that has left its lane never waits and is never handed to a worker again, however the run goes on |
| QueueFates.CancelledNeverRuns | src/gateway/command_queue.cpp:418-428 | a cancellation that answers true is final: the command has not run and never will |
| QueueFates.EveryFate | src/gateway/command_queue.cpp:323-632 | nothing is lost silently: every submitted command still waits, was handed to a worker, or stopped waiting at an event that gave it up by a cap, an interrupt, a cancellation, an abort or a followup |
| QueueFates.WalkTakes | src/gateway/command_queue.cpp:521-581 | a dispatcher pass hands out distinct waiting commands, each out of one lane |
| QueueRuns.SteeringTextIs | src/gateway/command_queue.cpp:208-219 | the text of a batch is its messages with blank lines between, leading empty ones left out |
| Glob.GlobMatch | src/security/exec_approval.cpp:79-106 | the loop with one remembered star terminates and decides the recursive meaning `Decides` for every pattern and text |
| Glob.MatchesReads | src/security/exec_approval.cpp:79-106 | the promised meaning, piece by piece: a piece without stars fits character by character, a star stands for any text |
| Glob.LastStarIsEnough | src/security/exec_approval.cpp:79-106 | once the segment since the last star fits, nothing is lost by forgetting earlier stars |
| Glob.DecidesIsSound | src/security/exec_approval.cpp:79-106 | whatever is accepted has the promised glob meaning |
| Glob.MatchesIsDecided | src/security/exec_approval.cpp:79-106 | everything with that meaning is accepted when text or pattern has no star |
| Glob.ExactForText | src/security/exec_approval.cpp:79-106 | a text is judged rightly by all patterns if and only if it has no star |
| Glob.ExactForPattern | src/security/exec_approval.cpp:79-106 | a pattern judges all texts rightly if and only if it has no star |
| Glob.GitStarRefused | src/security/exec_approval.cpp:79-106 | a pattern and a command that should match and is refused |
| Glob.ExecAllowlist.Accepts | src/security/exec_approval.cpp:60-66 | accepted commands have the meaning of some pattern; star-free commands are accepted exactly when they have |
| RateLimiting.RateLimiter.Allow | src/security/rate_limiter.cpp:16-45 | the answer and the new deques, with the backward burst scan counting the acceptances of the last second |
| RateLimiting.RateLimiter.Remaining | src/security/rate_limiter.cpp:47-58 | what is left of the limit after purging, never negative |
| RateLimiting.RateLimiter.RetryAfter | src/security/rate_limiter.cpp:60-82 | the answer and the purged deque, wherever the source does not read the front of an empty one |
| RateLimiting.RateLimiter.Prune | src/security/rate_limiter.cpp:94-105 | every deque purged, the empty ones gone, in whatever order the table is walked |
| RateLimiting.PurgeFilters | src/security/rate_limiter.cpp:112-119 | on a sorted deque, dropping leading old entries keeps exactly the entries not older than the cutoff |
| RateLimiting.DequesTrackAccepted | src/security/rate_limiter.cpp:16-119 | in every run each deque, purged at any later time, is exactly the accepted times still in the window, in order |
| RateLimiting.AnswersExact | src/security/rate_limiter.cpp:16-105 | in every run Allow, Remaining and Prune are fixed by the times accepted before: a call is admitted if and only if fewer than max_requests lie in its window and, under a burst limit, fewer than burst_max of them in the last second; Remaining is the difference; Prune keeps exactly the keys with one in the window |
| RateLimiting.RunsStayBounded | src/security/rate_limiter.cpp:16-119 | in every run each deque is sorted, not ahead of the clock and no longer than max_requests |
| RateLimiting.WindowBound | src/security/rate_limiter.cpp:16-45 | every closed interval of window_seconds holds at most max_requests acceptances |
| RateLimiting.BurstBound | src/security/rate_limiter.cpp:28-41 | with a window of a second or more every closed second holds at most burst_max acceptances |
| RateLimiting.BurstExact | src/security/rate_limiter.cpp:28-41 | the exact configurations for which every run respects the burst limit |
| RateLimiting.RetryAfterIsLeast | src/security/rate_limiter.cpp:60-82 | a positive answer r is the least whole number of seconds: after q seconds the window has room if and only if q >= r |
| RateLimiting.RetryAfterInRuns | src/security/rate_limiter.cpp:16-82 | the same over runs: as long as nothing is accepted for the key, whatever else is asked |
| RateLimiting.RetryAfterAdmits | src/security/rate_limiter.cpp:16-82 | from two seconds on all of Allow, burst check included, follows a positive answer: it admits after q seconds if and only if q >= r |
| RateLimiting.RetryAfterZero | src/security/rate_limiter.cpp:60-82 | the answer is 0 after a refusal if and only if the limit is nothing, or the oldest entry expires at this tick, or the burst limit refused |
| RateLimiting.ZeroHappens | src/security/rate_limiter.cpp:60-82 | the last two after one accepted call |
| TokenChunks.ChunkByMaxTokens | src/core/multi_stage_compaction.cpp:61-95 | non-empty contiguous chunks that concatenate to the input, each a singleton or within the limit, and no such partition has fewer |
| TokenChunks.FullIsAhead | src/core/multi_stage_compaction.cpp:61-95 | why greedy is optimal: chunks without room stay ahead of any other partition |
| TokenChunks.SplitByTokenShare | src/core/multi_stage_compaction.cpp:24-59 | at most `parts` chunks that concatenate to the input, each cut as soon as it reaches the share |
| TokenChunks.ShareReads | src/core/multi_stage_compaction.cpp:31-32 | the share is the greatest whole number that fits `parts` times, and at least one |
| TokenChunks.CutIsUnique | src/core/multi_stage_compaction.cpp:24-59 | only one split of a list obeys that rule |
| TokenChunks.EstimateTokens | src/core/context_pruner.cpp:11-27 | the estimate is the sum over the messages |
| TokenChunks.EstimateReads | src/core/context_pruner.cpp:11-20 | a message weighs a quarter of its characters, rounded down: role, texts, results and serialized inputs |
| Transcript.TailLines | src/session/session_manager.cpp:152-205 | reading backward in chunks returns exactly the last k lines of a full split |
| Transcript.TailEnough | src/session/session_manager.cpp:152-205 | why stopping early is safe: with more newlines than lines wanted the unread part and the first partial line do not matter |
| Transcript.GetHistory | src/session/session_manager.cpp:386-456 | the widening window terminates with exactly the last k messages of the full scan |
| Transcript.RecordsOfLine | src/session/session_manager.cpp:386-456 | a line gives its message once, or nothing when it is empty or malformed |
| Text.LinesOfLine | src/session/session_manager.cpp:152-205 | lines are split at each newline, and one at the end starts no line |
| Transcript.WindowEnough | src/session/session_manager.cpp:418-452 | a window with enough messages, or past the whole file, holds the last k |
| ToolResult.ScanLines | src/core/agent_loop.cpp:78-106 | the circular buffer's slot at the end holds the start of the keep-th line from the end, and the head ends at the keep-th line |
| ToolResult.TruncateToolResult | src/core/agent_loop.cpp:67-132 | the single pass returns first lines, marker with the omitted count, last lines; or the byte fallback; or the text itself |
| ToolResult.FallbackConserves | src/core/agent_loop.cpp:107-119 | in the byte fallback the input is a kept head and a kept tail of half the limit each and an omitted middle, and the number printed is the size of the middle |
| ToolResult.TruncatedConserves | src/core/agent_loop.cpp:78-131 | cut at lines, the input is a head of keep lines, a middle and a tail of keep lines, each cut behind a newline, and the number printed is the number of lines of the middle |
| ToolResult.ShortKept | src/core/agent_loop.cpp:67-76 | a text within the limit comes back as it is |
| ToolResult.SoftPrune | src/core/context_pruner.cpp:149-178 | the split-and-join form returns the same shape over its own lines |
| ToolResult.SoftConserves | src/core/context_pruner.cpp:149-178 | the same account of soft_prune, once a newline at the end of the input is set aside |
| ToolResult.FewLinesKept | src/core/context_pruner.cpp:157-161 | a text of at most twice keep lines comes back as it is |
| ToolResult.NothingKept | src/core/context_pruner.cpp:163-177 | asked to keep nothing it leaves the note alone; a negative number is counted among the omitted lines |
| ToolResult.AgreesWithSoftPrune | src/core/agent_loop.cpp:67-132 | on text long enough to be cut at lines the two forms agree if and only if it does not end in a newline |
| ContextPruning.Prune | src/core/context_pruner.cpp:29-147 | the index thresholds decide what counting the later assistant messages decides; `ContextPruning.ResultAt` says what that makes of each result |
| ContextPruning.ResultAt | src/core/context_pruner.cpp:54-146 | what becomes of every result, by the number of assistant messages in all and behind it: recent ones and those up to the first user message stay; else old ones become the note, longer ones than allowed are cut at lines, the rest stay |
| ContextPruning.RestKept | src/core/context_pruner.cpp:92-146 | messages keep their number, place and role, and all blocks but results are as they were |
| ContextPruning.Threshold | src/core/context_pruner.cpp:62-90 | a message lies before the k-th assistant index from the end if and only if k assistant messages follow it |
| ContextPruning.PruneKeepsPairing | src/core/context_pruner.cpp:92-146 | pruning keeps the pairing of tool calls and results, in both directions |
| ContextPruning.RecentKept | src/core/context_pruner.cpp:68-111 | from the protect_recent-th last assistant message on, the history comes back word for word |
| ContextPruning.BootstrapKept | src/core/context_pruner.cpp:54-111 | and so does everything up to the first user message |
| ContextPruning.EffectiveTightens | src/core/context_pruner.cpp:34-52 | being over budget never loosens options that are not below the floors |
| ContextPruning.EffectiveScales | src/core/context_pruner.cpp:34-52 | by how much: three numbers are scaled by budget over tokens and rounded down, with floors of 200, 1 and 3; within the budget nothing changes |
| ContextPruning.NoBudgetKept | src/core/context_pruner.cpp:34-40 | without a window, or with no budget left of it, nothing changes |
| ContextPruning.WeighedReads | src/core/context_pruner.cpp:11-20 | what a block of each kind adds to the estimate that is held against the budget |
| ContextPruning.OverBudgetPrunesMore | src/core/context_pruner.cpp:34-146 | so every result is treated at least as hard then |
| AgentTurn.HandleProviderError | src/core/agent_loop.cpp:292-352 | goes on exactly when nothing in it throws and an overflow retry is left, or another provider is named, or the error is retryable and a retry is left; counts and logs accordingly |
| AgentAnswers.TriedAgain | src/core/agent_loop.cpp:292-352 | which failed calls are tried again, by counting: an overflow while fewer than three came before, another error when a provider is named, or when it is retryable and fewer than four went before without one |
| AgentTurn.CallsBounded | src/core/agent_loop.cpp:401-882 | however the provider fails: at most max_iterations + 3 + 4 + switches provider calls, when the resolver names another provider at most `switches` times |
| AgentTurn.OneCourse | src/core/agent_loop.cpp:401-882 | the surroundings leave a turn no choice how many calls it makes |
| AgentTurn.RunTools | src/core/agent_loop.cpp:467-525 | each call gets its own result, shortened, at its own position; errors become text |
| AgentTurn.RunToolsStream | src/core/agent_loop.cpp:724-786 | the same for the streaming form |
| AgentTurn.DialogueIsPaired | src/core/agent_loop.cpp:401-882 | whatever providers and tools do, every tool call is answered at the same position under the same id in the next message, and no result stands anywhere else |
| AgentAnswers.DialogueAt | src/core/agent_loop.cpp:455-525 | the two messages of every answer that uses tools, block by block: what was said, each call with id, name and arguments, and at the same place what came of it, shortened, in the wording of either form |
| AgentTurn.ProcessMessage | src/core/agent_loop.cpp:401-602 | exactly which provider calls are made, which nodes are logged, and what is returned or thrown; a final answer comes back as the last message, a stopped turn ends in its note; the DAG turn is ended, once and last, if and only if it is prepared and no exception leaves the loop uncaught, and otherwise it stays open and throws |
| AgentTurn.RunLoop | src/core/agent_loop.cpp:437-574 | the loop of both forms: it makes the calls of the one course there is, and tells whether a call ended the turn and whether an exception left it |
| AgentTurn.UncaughtHappens | src/core/agent_loop.cpp:552-574 | surroundings in which the handler of a failed call fails in turn, for every kind of error |
| AgentTurn.ProcessMessageStream | src/core/agent_loop.cpp:604-882 | the same for the streaming form, which returns whenever the turn is ended: with the answer, or its reasoning when it has no content, or the note that goes with the way it left its loop |
| AgentAnswers.NodesCounted | src/core/agent_loop.cpp:401-882 | a turn logs one node for every provider call, one for every tool it runs, and one for each of the first three overflows |
| AgentAnswers.RoundCounted | src/core/agent_loop.cpp:438-574 | what one round adds to the log, by kind of node, for either form and every outcome |
| AgentAnswers.TraceShown | src/core/agent_loop.cpp:401-525 | the nodes of a first round with two tools, in order |
| AgentAnswers.WhyItStops | src/core/agent_loop.cpp:437-438 | every call was made with iterations left and the flag down, and calling stops for the answer, for used up iterations or for the flag |
| AgentAnswers.LogAgrees | src/core/agent_loop.cpp:527-601 | the last node and the status of an ended turn agree: always in ProcessMessage, in the streaming form if and only if the last call ended the turn or the flag reads alike for both |
| AgentTurn.DifferExactly | src/core/agent_loop.cpp:864-881 | a streamed turn that left its loop is noted and logged differently if and only if the stop flag reads differently for the note and for the status, up or down |
| AgentTurn.ExhaustedTooEarly | src/core/agent_loop.cpp:437-601 | ProcessMessage leaves its loop with iterations left and still throws that they are exhausted if and only if the flag was up at the head of the loop and down behind it |
| AgentTurn.DifferHappens | src/core/agent_loop.cpp:576-601 | surroundings for a flag that goes up, one that goes down, and one that goes down right behind the loop |
| DagTurns.DagRuntime.BeginTurn | src/core/dag_runtime.cpp:148-165 | the run and its first node are logged and the session's latest run is set |
| DagTurns.DagRuntime.EmitNode | src/core/dag_runtime.cpp:167-184 | a node and an edge from the last one, or nothing for an empty turn |
| DagTurns.EvolveRuntime.AttachPublish | src/core/evolve_runtime.cpp:998-1006 | the thread that comes first publishes its turn, the other ends the one it began |
| DagTurns.EvolveRuntime.DetachTake | src/core/evolve_runtime.cpp:1014-1025 | the turn leaves the table for the thread that took it |
| DagTurns.EvolveRuntime.RouteEvent | src/core/evolve_runtime.cpp:945-953 | a node goes to the turn in the table and advances its last node, all in one section |
| DagTurns.InvNext | src/core/evolve_runtime.cpp:945-1034 | every step of every thread keeps: each held turn is an open chain, no turn is held twice, every other turn is over, node ids are unique |
| DagTurns.TurnsAreChains | src/core/evolve_runtime.cpp:945-1034 | under every interleaving the open turns are exactly those in the table or in the hands of one thread; each turn is one chain, ended at most once, with nothing after its end |
| MemorySearch.MemorySearch.RebuildIndex | src/core/memory_search.cpp:402-414 | the postings are those of the entries for every term |
| MemorySearch.PostingsListExactly | src/core/memory_search.cpp:402-414 | a term's postings list exactly the entries that hold it, once each, ascending, with the right frequency |
| MemorySearch.MemorySearch.GatherScores | src/core/memory_search.cpp:128-149 | scores gathered from postings equal the naive score of every entry |
| MemorySearch.ScoreReads | src/core/memory_search.cpp:128-149 | a score is the sum over the words of the query of the weight for the number of entries that hold the word, its number in this one and the length |
| MemorySearch.MemorySearch.Search | src/core/memory_search.cpp:112-180 | the results are the top k of naively scoring every entry, by score descending then place ascending |
| MemorySearch.AnswerReads | src/core/memory_search.cpp:151-180 | what an answer is: each entry once with its file, content, score and line, higher scores first and of equal ones the earlier entry, everything left out behind, and fewer than asked for only when no more score |
| MemorySearch.TopKUnique | src/core/memory_search.cpp:151-180 | there is only one such ranking |
| MemorySearch.AnswerUnique | src/core/memory_search.cpp:151-180 | and so only one answer to a query |
| VectorIndex.SumsAvx2 | src/core/vector_index.cpp:39-80 | eight lanes, horizontal sums and scalar tail compute the plain sums for every length |
| VectorIndex.SumsSse2 | src/core/vector_index.cpp:81-119 | four lanes with their own shuffles compute the same |
| VectorIndex.SumsNeon | src/core/vector_index.cpp:120-142 | so do four lanes added up at once |
| VectorIndex.DotConcat | src/core/vector_index.cpp:143-150 | the sums are those of the products, place by place |
| VectorIndex.CauchySchwarz | src/core/vector_index.cpp:152-156 | dot squared is at most the product of the norms |
| VectorIndex.CosineSimilarity | src/core/vector_index.cpp:31-156 | every variant returns dot over the product of the roots, within [-1, 1], so that the mapped score lies in [0, 1]; 0 for empty, mismatched or tiny vectors |
| OutputCapture.ExecCapture | src/platform/process_unix.cpp:249-343 | for every cutting of the stream into reads: the whole stream, or its first cap/2 bytes, the marker and its last cap - cap/2 bytes; flagged exactly when it exceeds a non-zero cap |
| OutputCapture.CapturedReads | src/platform/process_unix.cpp:249-343 | what is kept is two pieces of the stream that make up the cap, around the note with the cap |
| LineServer.RpcServer.Receive | sidecar/src/rpc-server.ts:68-117 | lines handled and text left over depend only on the stream, not on how it was cut into chunks |
| LineServer.LineByLine | sidecar/src/rpc-server.ts:106-117 | each line is handed on trimmed unless nothing is left of it, and what has no line end yet is kept |
| LineServer.TrimReads | sidecar/src/rpc-server.ts:106-117 | trimming takes the blanks off both ends and nothing else |
| LineServer.CompleteConcat | sidecar/src/rpc-server.ts:106-117 | a chunk adds exactly the lines it completes together with the unfinished one |
| ConfigPath.SplitDotPath | src/core/config.cpp:591-604 | the components of a path, without an empty last one |
| ConfigPath.PiecesRead | src/core/config.cpp:591-604 | a path is read up to its first dot, and on behind it |
| ConfigPath.SetValue | src/core/config.cpp:638-657 | the pointer walk writes what the recursive `Put` says, and fails exactly as it does |
| ConfigPath.UnsetValue | src/core/config.cpp:659-677 | the pointer walk removes what the recursive `Remove` says, or leaves the document alone |
| ConfigPath.ConfigGet | src/gateway/rpc_handlers_core.cpp:104-144 | the live value for a path that has one, otherwise exactly the value at the path, or unknown |
| ConfigPath.PutLaw | src/core/config.cpp:638-657 | what was set is found with everything in it, unrelated places are unchanged, places on the way are objects |
| ConfigPath.RemoveLaw | src/core/config.cpp:659-677 | nothing is found at or below what was unset; what stands on the way there stays, unchanged when it is no object; unrelated places are unchanged |
| ConfigPath.RemoveNothing | src/core/config.cpp:664-675 | where there is nothing, or something that is no object is in the way, the document comes back unchanged |
| ConfigPath.PutErrors | src/core/config.cpp:638-677 | exactly which roots and paths fail |
| ConfigPath.PathReadings | src/core/config.cpp:591-604 | setter and getter read a path alike if and only if it does not end in a dot |
| ConfigPath.GetAfterSet | src/gateway/rpc_handlers_core.cpp:104-144 | config.get answers what config.set put there if and only if the path does not end in a dot, or, for a path answered live, the live value is that one |
| ConfigPath.GetAfterUnset | src/gateway/rpc_handlers_core.cpp:104-144 | config.get finds nothing after config.unset if and only if the path is not answered live |
| ConfigPath.OtherPathsUnchanged | src/core/config.cpp:638-677 | a path not related to the one set or unset is answered as before |
| SessionKeys.ParseAgentSessionKey | src/session/session_manager.cpp:26-64 | the splitting and joining loops return what `Parse` says |
| SessionKeys.ParseReads | src/session/session_manager.cpp:26-64 | a key of the agent form is read as its agent and all that follows, without one colon at its end |
| SessionKeys.NormalizeSessionKey | src/session/session_manager.cpp:66-89 | the trimming loops and the three branches return what `Normalized` says |
| SessionKeys.NormalReads | src/session/session_manager.cpp:66-89 | every key, white space around it aside: one that names an agent and a rest keeps both without one colon at its end, any other becomes the rest of a key of the default agent, none at all is its main session; all in small letters |
| SessionKeys.LowerReads | src/session/session_manager.cpp:17-22 | the letters A to Z are made small and nothing else is changed |
| SessionKeys.StableExactly | src/session/session_manager.cpp:66-89 | which keys are normalized to a fixed point, told from the key: one of the agent form when it ends in neither two colons nor a space and a colon, any other when it does not end in a colon and the default agent can be read again |
| SessionKeys.NormalizeTwice | src/session/session_manager.cpp:66-89 | the step behind it: a normalized key is a fixed point if and only if it ends in neither a colon nor a space and its agent does not start with a colon |
| SessionKeys.PlainKeysAreStable | src/session/session_manager.cpp:66-89 | so, under a readable default agent, every key that does not end in a colon |
| SessionKeys.TwoSessions | src/session/session_manager.cpp:66-89 | a key for which it is not |

## Left out

- CommandQueues.CommandQueue.Submit: the JSON parameters of a command are reduced to the text collected for it; events, responses and the executor are not modelled.
- QueueSummary.FoldedAlways: counts are unbounded here; the source adds one to an int, so the theorem stops where that would overflow.
- QueueRuns.CollectRunsInOrder: and `QueueOrigins.CollectedTexts`: sessions that change mode, overflow or are cancelled are outside its conditions; other sessions may do anything.
- RateLimiting.RateLimiter.RetryAfter: an empty deque whose front the source would read (no positive limit, all entries expired) is excluded.
- SummaryRuns.SummaryReads: stated of a lane that is not dispatched, cancelled, interrupted, aborted or reconfigured meanwhile; what those events do to it is stated step by step elsewhere.
- RateLimiting.WindowBound: Reset and Configure between the calls of a run are outside runs.
- AgentTurn.ProcessMessage: the request's own messages, compaction, usage and failover records are not modelled, nor are a disabled DAG and callbacks that throw. The bound on calls needs a bound on the resolver, which sets none itself. What other turns of the same agent loop do shows in the oracles only.
- AgentTurn.RunTools: arguments are passed on as text; that dumping and parsing them again is the identity is not shown.
- DagTurns.TurnsAreChains: DuckDB, its errors, retention of old runs and a disabled DAG are not modelled; the log is the order of writes.
- DagTurns.InvNext: an event without a run id is dropped before the modelled section.
- MemorySearch.MemorySearch.Search: tokenization, file reading and the weight formula are parameters; std::partial_sort is modelled as repeated selection.
- VectorIndex.CosineSimilarity: rounding is not modelled.
- ConfigPath.SetValue: works on values, with the way back to the root kept beside the node, instead of pointers into one tree; reading and writing the file are not modelled.
- ConfigPath.ConfigGet: which paths are answered live is a parameter; the snapshot returned for an empty path is not modelled.
- Transcript.GetHistory: JSON parsing of a line is a parameter; the session store and locks are not modelled.
- OutputCapture.ExecCapture: polling, time-outs and the process are not modelled, only the reads that were made.
- QueueFates.EveryFate: names the ways in which a command may be given up; that each of them always gives it up is stated by the steps themselves.
- ContextPruning.Prune: the token budget is computed over the reals; inputs on which the source indexes past its list (a threshold in force below one while there are assistant messages) are excluded.
- SessionKeys.NormalizeSessionKey: white space and case are those of the C locale.
- The approval manager's bookkeeping, scope and CIDR matching, MMR reranking, log tailing, VectorIndex search, DynamicMaxIterations: lookups and short loops that would add easy members.
- WebSocket, HTTP, IPC, signals, the command line, the dashboard, RBAC and channel policy: foreign calls or lookups.
