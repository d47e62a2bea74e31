# Verification of ai-bridge

Dafny models of the parts of ai-bridge where a mistake would be silent, with proofs of what those parts promise. Check
everything with `dafny verify dfyconfig.toml`.

**The job store and its worker pool** (`worker/ai_bridge/jobs.py`) are modelled twice.

- As a class: `JobStore.JobStore` with `JobStore.Child` keeps the tables, the pool and the children's records and updates
  them in place, method by method. Each method is proved equal to a function of the state before it (`StoreModel`), and
  the public ones keep `Valid()`.
- As a protocol: `Protocol` is a state machine over the store, both ends of every pipe, every child's own state and the
  coordinator's place in its loop. Its steps are those of the coordinator, of other threads calling submit, get, cancel,
  drain and close, and of the children, each write to a pipe one step. A child may leave at any point. Sends, starts and
  table writes may fail. `Refinement` shows that the class's whole tick and whole drain are
  runs of these steps, with the children moving meanwhile.

`StoreInvariant.Valid` says what a store satisfies between locked operations, `ProtocolInvariant.Core` where a job may be
between its dispatch and its start, `Service.Inv` both together with where the threads stand. `Safety` draws the
consequences for every state of every run, `Lasting` for every step, `Recovery` for what a restart finds in the table,
`Admission` for submissions, `Dispatching` for fairness. `Lifecycle` holds tables, written apart from the operations, that
tell from a state what a step makes of every job, every child and the counters, and proves every step to be as they tell;
`Outcomes` follows a submission through a run with them.
`Serving` leads any request through a run to its value.

The other modules stand alone: `Head` (the bounded reader of a connection's head), `JsonGuard`, `Chunk` and `Batches` (the
index builder), `Cards`, `CheckDigits`, `Redaction` and `Rerank` (tasks, with the checks of the PHP client and the MCP
tool that consume them), `Ndcg` and `Bm25` (ranking quality) and `Metrics` (duration histograms).

| module | models |
|---|---|
| JobTypes, StoreModel, Durations, StoreInvariant, StoreSteps, Dispatching, Passes | the store's locked operations and what they keep |
| Protocol, ProtocolInvariant, ChildSteps, ParentSteps, PostSteps, SendSteps | the children, the pipes and the sends outside the lock |
| Service, ServiceSteps, CoordinatorSteps, ThreadSteps, Lasting, Backoff, Safety, Refinement | every run of the whole service |
| Effects, Lifecycle, Outcomes, Serving | what every operation and every step does, told without following it, and what that means for a submission |
| Recovery, Admission, JobStore | restarts, submissions, and the class |

Where the code and what it says about itself differ, the model follows the code:

- The tick has a branch for a job that is queued while the store drains, as one requeued on its child's death would be
  (`worker/ai_bridge/jobs.py:655-657`). No run reaches that branch (`Safety.NothingQueuedWhileDraining`): drain fails
  every queued job under the lock, sent or not, and nothing becomes queued afterwards.
- Progress is said to be at most 66 messages (`worker/ai_bridge/tasks.py:153-154`). It is at most 64 besides those that
  report everything done (`Rerank.Reporter.Report`), and so at most 65 for counts that rise (`Rerank.Reporter.RisingSends`),
  as they do where documents are scored one after the other (`Rerank.ReportEach`).
- Windows are said to overlap by about `overlap` characters (`mcp_server/bridge_mcp/index.py:120-121`). `Chunk.Shares` says
  exactly when two share anything: with an overlap above zero, always after a window longer than it; after a shorter one
  only when that starts inside a word, with no word start from the overlap's beginning to there and one behind. So a window
  no longer than the overlap that starts on a word shares nothing with the next (`Chunk.ShortSharesNothing`;
  `Chunk.SparseSharesNothing` is such a text).
- Two scans of JSON structure, one kept to compare the other with (`scripts/mcp_index_memory.py:57-85`), agree where every
  string closes (`JsonGuard.SameTokens`). Where one stays open to the end of the text, they agree exactly when nothing
  structural follows its quote (`JsonGuard.OpenStringAgrees`). A string that stays open because a backslash hides a line
  feed in it, which no JSON text has, may go either way (`JsonGuard.HiddenLineFeedEither`).

Times and scores are real numbers. Both clocks, the identifier drawn for a submission, the writes the disk refuses and
whether a start or a send succeeds are parameters of the step they belong to.

## Model

| member | source | states |
|---|---|---|
| `Safety.SomeRun` | worker/ai_bridge/jobs.py:171-220 | a service started on an empty table is a run, so the results below are about something |
| `Serving.Serves` | worker/ai_bridge/jobs.py:587-712 | for every legal configuration, every request within the limits and every value there is a run that accepts the request and ends its job as succeeded with that value, so no step of that way is shut off |
| `Safety.RunInv` | worker/ai_bridge/jobs.py:171-220 | every state of every run (any interleaving of the coordinator, other threads and children, with crashes, failed sends, failed starts and lost writes) satisfies the service invariant |
| `ThreadSteps.StepInv` | worker/ai_bridge/jobs.py:636-732 | no single step of any thread or child breaks the service invariant |
| `Safety.BegunOnce` | worker/ai_bridge/jobs.py:121-147 | in every state of every run no job has been begun twice, by one child or two, and what was begun is exactly what was submitted under that id |
| `Safety.OneChild` | worker/ai_bridge/jobs.py:540-578 | a job reaches at most one child; while it is unfinished, that is the child it is assigned to |
| `Safety.GivenTwice` | worker/ai_bridge/jobs.py:574-578 | a job is given to a child at most twice, and an unfinished one exactly once for its retry plus once for the child it has |
| `Safety.SucceededValue` | worker/ai_bridge/jobs.py:691-712 | a succeeded job has the value computed for that id by the one child that began it, never another job's or a stale child's |
| `Safety.EndedForGood` | worker/ai_bridge/jobs.py:442-458 | the record of a job that has ended never changes while it is kept |
| `Safety.KeptUntilStale` | worker/ai_bridge/jobs.py:426-440 | a job that has ended is let go of only at a step whose clock is past its retention |
| `Safety.KnownStays` | worker/ai_bridge/jobs.py:426-440 | an id once submitted or restored never comes back after its job was let go of, and its job keeps its deadline |
| `Safety.TickMeetsDeadlines` | worker/ai_bridge/jobs.py:650-658 | after a tick no unfinished job has a deadline at or before the tick's clock |
| `Safety.DrainedForGood` | worker/ai_bridge/jobs.py:372-381 | once drain has returned no job is ever queued, accepted or given to a child again, and the unfinished jobs only get fewer |
| `Safety.DrainTerminates` | worker/ai_bridge/jobs.py:383-386 | after drain, the first tick at or past the last deadline leaves nothing unfinished for good |
| `Safety.NothingQueuedWhileDraining` | worker/ai_bridge/jobs.py:655-657 | the tick's branch for a queued job of a draining store is never taken: outside a drain in progress such a store has nothing queued |
| `Safety.ActiveIsInverse` | worker/ai_bridge/jobs.py:607-616 | active jobs and the pool children's jobs are mutual inverses, active jobs are unfinished, running jobs are active |
| `Safety.ChildrenSound` | worker/ai_bridge/jobs.py:540-578 | a retired child is out of the pool and has no job, it is retired exactly when it was told to stop or terminated, nobody serves more than max_jobs, the pool never exceeds concurrency, and the parent's pipe end is closed once, exactly when the child is retired and no send is in flight |
| `Safety.RetiredForGood` | worker/ai_bridge/jobs.py:540-546 | once retired, a child is in the pool or has a job in no later state of the run |
| `Safety.NoSpawnLoop` | worker/ai_bridge/jobs.py:493-501 | with a clock that never goes back, once a start has failed, because the system refused it or because a child exited, stayed silent, lost its pipe or was told to go before it was ready, no other is begun for a second |
| `Safety.Conserved` | worker/ai_bridge/jobs.py:442-452 | for every owner and task, submitted equals ended over all statuses plus unfinished jobs held, and every end was timed once |
| `Safety.DurationBuckets` | worker/ai_bridge/metrics.py:61-70 | each cumulative bucket of a task counts exactly the jobs of that task submitted to this process that have ended and took at most its bound from submission to end, and the last one, like the count, all that ended |
| `Durations.BucketsCount` | worker/ai_bridge/jobs.py:442-452 | histograms that agree with the history of ended jobs count each of them once, by the time it took |
| `Durations.MeasuredFinish` | worker/ai_bridge/jobs.py:449 | a job that ends is observed once, with the time from its submission to its end |
| `Safety.LimitsHold` | worker/ai_bridge/jobs.py:319-329 | unfinished jobs never exceed capacity, all jobs max(restored, capacity + result_capacity - 1), an owner's jobs max(its restored, owner cap) |
| `Safety.KeysAreInverse` | worker/ai_bridge/jobs.py:316-318 | the idempotency keys are exactly the inverse of the retained keyed jobs, so an owner and key hold at most one |
| `Safety.NoOwnerStarves` | worker/ai_bridge/jobs.py:587-605 | in every run an owner with a waiting job at each of a stretch of dispatch decisions and never chosen is passed over at most once for every other owner |
| `Safety.RestartIsInitial` | worker/ai_bridge/jobs.py:222-264 | wherever a run is cut off, opening its table starts a new run that satisfies the invariant, with only ended jobs |
| `Safety.AcceptedSurvives` | worker/ai_bridge/jobs.py:222-288 | wherever a run is cut off, every job submitted in it is held after the restart, as it ended or as failed/service_restarted, unless it had ended and its retention was over then or at an earlier step |
| `Safety.HeldOrLetGo` | worker/ai_bridge/jobs.py:426-440 | a job submitted in a run is held until a step at which it has ended and its retention is over |
| `Safety.OldestGoesFirst` | worker/ai_bridge/jobs.py:587-605 | in every run, of two waiting jobs of one owner, a tick that gives a child to the later submitted gives one to the earlier |
| `Lasting.StepHolds` | worker/ai_bridge/jobs.py:426-440 | no step takes back a job's end, a submission, a beginning or a drain |
| `Lasting.StepRetires` | worker/ai_bridge/jobs.py:540-570 | no step brings a child back from retirement |
| `Backoff.StepBacks` | worker/ai_bridge/jobs.py:493-510 | when a child may be started next changes in a step exactly when a start fails in it, refused or lost before the child was ready, and then to one second after it; children that leave service join those watched, and only a child that is reaped leaves these |
| `Lifecycle.StepJobs` | worker/ai_bridge/jobs.py:290-712 | what every step makes of every job, as one table tells it from the state before: it starts or advances as its child said, goes back to the queue once, or ends with that status, result and code; jobs are let go of exactly at their retention and a new one is the submission |
| `Lifecycle.StepCrew` | worker/ai_bridge/jobs.py:540-732 | what every step makes of every child and of the counters, as one table tells it: which children leave service, told to stop or terminated, which jobs they have and how many they were given; a job that starts is timed from its submission, a refusal for capacity counted once |
| `Lifecycle.StepOrder` | worker/ai_bridge/jobs.py:316-345 | a step keeps the order of the jobs it keeps and puts a new one behind them |
| `Lifecycle.RefillStarts` | worker/ai_bridge/jobs.py:506-511 | a child is started exactly when the store is neither stopping nor draining, the pool has room and the backoff is over |
| `Lifecycle.ReapsOne` | worker/ai_bridge/jobs.py:714-732 | a retired child that has exited is let go of, and no other |
| `Lifecycle.TickErases` | worker/ai_bridge/jobs.py:426-440 | the rows of the jobs let go of at a tick or a lookup are deleted, unless the disk refuses, and no others |
| `Effects.RetireSettles` | worker/ai_bridge/jobs.py:574-578 | when a child in service is retired its job is unfinished afterwards exactly when it was queued and not put back before: then it is queued again, marked as retried and without a child, and otherwise failed as worker_crashed |
| `Outcomes.LostOrRequeued` | worker/ai_bridge/jobs.py:574-578 | in every run, a step that finds a child gone (its pipe ended, it exited, it stayed silent, a send failed) leaves its job queued again and without a child exactly when no child had started it and it was not put back before, and otherwise failed as worker_crashed |
| `Outcomes.AcceptedAs` | worker/ai_bridge/jobs.py:331-339 | in every run an accepted job is, as long as it is held, its request's in task, owner, key and timeout, and due timeout_ms / 1000 seconds after the submission; it starts out queued, with its input and nothing else |
| `Outcomes.OnTime` | worker/ai_bridge/jobs.py:650-654 | a tick at or after the time a submission's timeout has passed leaves its job ended, timed out as deadline_exceeded if nothing ended it before |
| `Outcomes.TimedOutLate` | worker/ai_bridge/jobs.py:650-654 | and no job times out at any earlier step |
| `Outcomes.EndedBecause` | worker/ai_bridge/jobs.py:442-466 | every ended job of a run ended at one step, unfinished before, as the table of steps tells for that step, and is still what that step made of it |
| `Outcomes.EndExplained` | worker/ai_bridge/jobs.py:442-466 | what each way of ending says of its step: the child's message for a result or a failed task, a child gone for a crash, the deadline, the owner's cancel or close, a failed start with no child left, a drain |
| `Outcomes.CancelEnds` | worker/ai_bridge/jobs.py:358-366 | an owner's cancel ends its unfinished job as cancelled, running or not, without result or input |
| `Outcomes.SubmittedInOrder` | worker/ai_bridge/jobs.py:316-345 | of two jobs held, the one submitted first is first in the table |
| `Outcomes.FirstSubmittedFirst` | worker/ai_bridge/jobs.py:587-605 | of two waiting jobs of one owner, a tick gives a child to the one submitted first if to any |
| `Outcomes.WatchedUntilReaped` | worker/ai_bridge/jobs.py:714-732 | a child that left service is watched until a step that finds it exited lets go of it |
| `Outcomes.EndedCounts` | worker/ai_bridge/jobs.py:442-448 | for every owner, task and status the ends counted are those jobs, and a job still held is counted under the status it has |
| `Outcomes.RefusalsCounted` | worker/ai_bridge/jobs.py:302-308 | every refusal for capacity in a run is counted once, for its owner, and nothing else is |
| `Recovery.OpenedValid` | worker/ai_bridge/jobs.py:222-264 | a store opened on a table with unique owner and key pairs satisfies the store invariant and holds only ended jobs |
| `Recovery.NothingLost` | worker/ai_bridge/jobs.py:244-264 | a job held when the process stopped is held again unless its end was written and its retention is over on the wall clock; it is the job that ended, in every field a client may see and its owner and key, or the job failed as service_restarted if its end was not written |
| `Recovery.RetentionLeft` | worker/ai_bridge/jobs.py:255-262 | a recovered job has its retention less the time since it ended on the wall clock, the whole of it when that clock was set back or the restart failed it |
| `Recovery.OpenedServes` | worker/ai_bridge/jobs.py:222-264 | an opened store takes submissions and starts children at once, and has counted nothing |
| `Recovery.KeysKeepIds` | worker/ai_bridge/jobs.py:263-264 | a recovered job keeps its owner and idempotency key, which answer with the same id |
| `Recovery.RetentionCarriesOver` | worker/ai_bridge/jobs.py:255-262 | when both clocks advance together, a recovered job has exactly the retention left that it had |
| `Recovery.TwiceIsOnce` | worker/ai_bridge/jobs.py:244-253 | opening twice at one instant equals opening once |
| `Recovery.ReplaceSpares` | worker/ai_bridge/jobs.py:276-283 | INSERT OR REPLACE for a new submission leaves the row of every job in memory as it was |
| `Recovery.FinishWritten` | worker/ai_bridge/jobs.py:266-288 | the end of an unfinished job reaches the table exactly when it is open and that write does not fail |
| `Recovery.KeysFromAre` | worker/ai_bridge/jobs.py:263-264 | the loop over the rows builds the inverse of the keyed rows |
| `Admission.AcceptedExactly` | worker/ai_bridge/jobs.py:290-345 | a submission gets a job of its own if and only if the owner and timeout are valid, the store is neither draining nor stopping, no retained job has the key, there is room under all three limits after expiry, and the row can be written |
| `Admission.RepeatAddsNothing` | worker/ai_bridge/jobs.py:315-318 | a repeat of a retained key changes nothing but expiry and is answered with that job, even at capacity |
| `Admission.RepeatedExactly` | worker/ai_bridge/jobs.py:315-318 | a submission is answered with a retained job exactly when that is the same owner's with the same key |
| `Admission.RefusedUnheard` | worker/ai_bridge/jobs.py:290-314 | an unknown owner, a timeout out of range, a draining and a stopping store are each refused as such, in that order |
| `Admission.RefusedForRoom` | worker/ai_bridge/jobs.py:319-329 | after those and the key, a submission is refused exactly for the first of its owner's room, that of the unfinished jobs, that of the ended ones and the table |
| `Admission.HintIs` | worker/ai_bridge/jobs.py:319-329 | the hint for an owner's or the ended jobs' room is that of the first to expire; for the unfinished ones it is their number over concurrency times the pace, rounded up, between 1 and 300 seconds |
| `Admission.RetryAfterFrees` | worker/ai_bridge/jobs.py:414-421 | waiting as long as the owner or result limit's Retry-After says expires at least one of the jobs it was computed from |
| `Admission.RetryAfterIs` | worker/ai_bridge/jobs.py:414-421 | the hint is at least one second, and less than one second more than the larger of one second and the wait for any finished job |
| `Dispatching.OldestFirst` | worker/ai_bridge/jobs.py:587-605 | of two waiting jobs of one owner, requeued or not, a tick that gives a child to the later submitted gives one to the earlier |
| `Dispatching.DispatchOldest` | worker/ai_bridge/jobs.py:587-605 | what is sent of an owner's queue is a prefix of it, in order |
| `Dispatching.DispatchFull` | worker/ai_bridge/jobs.py:594-605 | dispatch stops only when every waiting job has a child or no child of the pool is free |
| `Dispatching.QueuesLines` | worker/ai_bridge/jobs.py:590-592 | each owner's queue holds exactly its waiting jobs in the table's order |
| `Dispatching.FirstFreeIs` | worker/ai_bridge/jobs.py:607-612 | the child chosen is the first of the pool that is ready and has no job |
| `Dispatching.QueuesOrder` | worker/ai_bridge/jobs.py:590-592 | the owners are queued in the order of their oldest waiting jobs |
| `Dispatching.TieByAge` | worker/ai_bridge/jobs.py:595-596 | of owners served equally long ago, or never, the one whose oldest job has waited longest is chosen first |
| `Dispatching.BoundedBypass` | worker/ai_bridge/jobs.py:587-605 | bounded bypass from the store invariant: at most (owners - 1) decisions pass a waiting owner over |
| `Dispatching.NoSecondTurn` | worker/ai_bridge/jobs.py:595-604 | while a waiting owner is passed over nobody else is chosen twice |
| `Dispatching.DispatchKeeps` | worker/ai_bridge/jobs.py:587-605 | dispatch keeps the store invariant |
| `Dispatching.TickDeadlines` | worker/ai_bridge/jobs.py:650-660 | a tick ends every job at its deadline and, while draining, every queued one |
| `Dispatching.ScanWaiting` | worker/ai_bridge/jobs.py:650-659 | the pass lists exactly the queued jobs without a child, once each, and ends those due |
| `StoreSteps.RetireKeeps` | worker/ai_bridge/jobs.py:540-578 | retiring a child keeps the store invariant and lets at most its own job lose its child unfinished |
| `StoreSteps.AbortKeeps` | worker/ai_bridge/jobs.py:460-466 | ending a job early retires its child and keeps the invariant |
| `StoreSteps.AbortAlone` | worker/ai_bridge/jobs.py:460-466 | ending a job early changes no other job and no other job's child |
| `StoreSteps.FailQueuedKeeps` | worker/ai_bridge/jobs.py:493-501 | failing the queued jobs when no child is up keeps the invariant |
| `StoreSteps.SentKeeps` | worker/ai_bridge/jobs.py:618-634 | confirming a send, failed or not, keeps the invariant |
| `StoreSteps.DeliverKeeps` | worker/ai_bridge/jobs.py:682-712 | every message keeps the invariant, and only its own job may be ended by it |
| `StoreSteps.DrainKeeps` | worker/ai_bridge/jobs.py:672-680 | reading a child out keeps the invariant |
| `StoreSteps.SubmitKeeps` | worker/ai_bridge/jobs.py:290-345 | a submission, however answered, keeps the invariant |
| `StoreSteps.CancelKeeps` | worker/ai_bridge/jobs.py:358-366 | a cancel keeps the invariant |
| `StoreSteps.AbortAllEnds` | worker/ai_bridge/jobs.py:379-381 | a pass that ends jobs ends every one it is meant to |
| `StoreSteps.CloseKeeps` | worker/ai_bridge/jobs.py:734-750 | close ends every job, retires every child and keeps the invariant |
| `StoreInvariant.FinishKeeps` | worker/ai_bridge/jobs.py:442-458 | finishing an unfinished job keeps conservation, the table's agreement with memory, and every limit |
| `StoreInvariant.InsertFiled` | worker/ai_bridge/jobs.py:276-283 | a submission's row keeps every other job's row and the uniqueness of owner and key |
| `StoreInvariant.PickKeeps` | worker/ai_bridge/jobs.py:595-604 | serving the owner served longest ago keeps the dispatch history fair |
| `StoreInvariant.AdmitWithin` | worker/ai_bridge/jobs.py:319-329 | a job admitted with room keeps all three limits |
| `ChildSteps.BeginKeeps` | worker/ai_bridge/jobs.py:121-127 | a child that begins a job is the first and only one to |
| `ChildSteps.ReplyKeeps` | worker/ai_bridge/jobs.py:132-147 | a child's answer is the value it computed for the job it began |
| `ChildSteps.ReceiveKeeps` | worker/ai_bridge/jobs.py:110-120 | taking a job off the pipe moves the one claim on it, no more |
| `ParentSteps.ReadKeeps` | worker/ai_bridge/jobs.py:682-712 | reading one message keeps every claim about children and jobs |
| `ParentSteps.GoneKeeps` | worker/ai_bridge/jobs.py:672-680 | a child whose pipe has ended and is read out may be retired: its still queued job was begun by nobody |
| `ParentSteps.SilentUnclaimed` | worker/ai_bridge/jobs.py:643-646 | once a dead child's pipe is read out, nobody has begun or may begin its job if that is still queued |
| `PostSteps.DispatchCore` | worker/ai_bridge/jobs.py:587-616 | dispatch puts every job it hands out on its way to one child only |
| `SendSteps.DeliveredKeeps` | worker/ai_bridge/jobs.py:618-622 | a send that is delivered keeps every claim |
| `SendSteps.DroppedUnclaimed` | worker/ai_bridge/jobs.py:622-634 | a job whose send failed was begun by no child and can be begun by none |
| `SendSteps.OthersNext` | worker/ai_bridge/jobs.py:618-622 | no two sends not yet made are for one child |
| `SendSteps.SentGood` | worker/ai_bridge/jobs.py:624-634 | after a failed send the job may go back to the queue |
| `Refinement.TickIsARun` | worker/ai_bridge/jobs.py:636-661 | the class's whole tick is a run of the small steps, whatever each child does while the lock is held, before it is read and between its reads: the same store, given what the reads see, and the same sends |
| `Refinement.DrainIsARun` | worker/ai_bridge/jobs.py:372-381 | so is the class's whole drain, whatever each child does before it is read |
| `Passes.TickedKeeps` | worker/ai_bridge/jobs.py:640-660 | a whole tick keeps the invariant and leaves nothing past its deadline |
| `Passes.DrainedKeeps` | worker/ai_bridge/jobs.py:372-381 | a whole drain keeps the invariant and leaves nothing queued |
| `Passes.PollKeeps` | worker/ai_bridge/jobs.py:643-648 | polling one child, exited or not, keeps the invariant |
| `JobStore.Child.constructor` | worker/ai_bridge/jobs.py:157-167 | a fresh child's record |
| `JobStore.Child.LeaveService` | worker/ai_bridge/jobs.py:553-570 | the record of a child that leaves service: asked to stop only when idle, its pipe closed unless a send owns it |
| `JobStore.Child.Take` | worker/ai_bridge/jobs.py:612-614 | a child given a job counts it and owns its pipe |
| `JobStore.JobStore.constructor` | worker/ai_bridge/jobs.py:171-264 | opening on a table yields exactly the opened store, which is valid |
| `JobStore.JobStore.Write` | worker/ai_bridge/jobs.py:266-288 | the row of a job is updated unless the table is closed or the disk refuses |
| `JobStore.JobStore.Finish` | worker/ai_bridge/jobs.py:442-458 | the in-place finish is the modelled one |
| `JobStore.JobStore.StartFailed` | worker/ai_bridge/jobs.py:493-501 | the in-place start failure is the modelled one |
| `JobStore.JobStore.Retire` | worker/ai_bridge/jobs.py:540-578 | the in-place retirement is the modelled one |
| `JobStore.JobStore.Abort` | worker/ai_bridge/jobs.py:460-466 | the in-place early end is the modelled one |
| `JobStore.JobStore.FirstIdle` | worker/ai_bridge/jobs.py:609-611 | the first child of the pool that is ready and without a job is found, or there is none |
| `JobStore.JobStore.Attach` | worker/ai_bridge/jobs.py:607-616 | the first free child gets the job, and what is to be sent to it is returned |
| `JobStore.JobStore.LeastServed` | worker/ai_bridge/jobs.py:595 | the first owner, in queue order, that was served longest ago |
| `JobStore.JobStore.Sort` | worker/ai_bridge/jobs.py:590-592 | one queue per owner, in the order given |
| `JobStore.JobStore.Dispatch` | worker/ai_bridge/jobs.py:587-605 | the loop over children and owners is the modelled dispatch |
| `JobStore.JobStore.Sent` | worker/ai_bridge/jobs.py:618-634 | what follows a send is the modelled confirmation |
| `JobStore.JobStore.DrainMessage` | worker/ai_bridge/jobs.py:682-712 | one message is applied as modelled, and the result says whether it ended the child's job |
| `JobStore.JobStore.Drain` | worker/ai_bridge/jobs.py:672-680 | the loop over a child's messages is the modelled reading |
| `JobStore.JobStore.Expire` | worker/ai_bridge/jobs.py:426-440 | the loop over the jobs drops exactly the stale ones, their keys and rows |
| `JobStore.JobStore.RetryAfter` | worker/ai_bridge/jobs.py:414-421 | the loop finds the wait of the earliest finish |
| `JobStore.JobStore.CountHeld` | worker/ai_bridge/jobs.py:321 | the loop counts the jobs an owner holds |
| `JobStore.JobStore.CountOpen` | worker/ai_bridge/jobs.py:324 | the loop counts the unfinished jobs |
| `JobStore.JobStore.Busy` | worker/ai_bridge/jobs.py:383-386 | true if and only if some job is unfinished |
| `JobStore.JobStore.Full` | worker/ai_bridge/jobs.py:319-329 | the refusal, with its Retry-After, is the modelled one |
| `JobStore.JobStore.Accept` | worker/ai_bridge/jobs.py:310-345 | the submission under the lock is the modelled one |
| `JobStore.JobStore.Submit` | worker/ai_bridge/jobs.py:290-308 | a submission keeps the store valid and is the modelled one, with every capacity refusal counted once |
| `JobStore.JobStore.Get` | worker/ai_bridge/jobs.py:352-356 | an owner is shown its own job, in every field a client may see, and nothing of another's |
| `JobStore.JobStore.Cancel` | worker/ai_bridge/jobs.py:358-366 | an owner's unfinished job is cancelled, and its record shown as it then is |
| `JobStore.JobStore.DrainStore` | worker/ai_bridge/jobs.py:372-381 | after drain nothing is queued and the store is the modelled one |
| `JobStore.JobStore.Visit` | worker/ai_bridge/jobs.py:651-659 | one job in the tick's pass is ended or waits as modelled |
| `JobStore.JobStore.PollChild` | worker/ai_bridge/jobs.py:643-648 | one child in the tick is read, read again once exited, and retired as modelled |
| `JobStore.JobStore.Tick` | worker/ai_bridge/jobs.py:636-661 | the locked section of a tick keeps the store valid and is the modelled one, sends included |
| `JobStore.JobStore.Wanted` | worker/ai_bridge/jobs.py:508-510 | whether a child may be started now |
| `JobStore.JobStore.Started` | worker/ai_bridge/jobs.py:512-521 | a start that failed, or a child that joins unless the store is stopping |
| `JobStore.JobStore.Reap` | worker/ai_bridge/jobs.py:714-732 | lingering retired children are killed once, exited ones let go of |
| `JobStore.JobStore.Close` | worker/ai_bridge/jobs.py:734-764 | close returns how many unfinished jobs it ended, leaves none, and lets go of the table first |
| `Metrics.BisectLeft` | worker/ai_bridge/metrics.py:22-26 | the first bound that is at least the value |
| `Metrics.CumulativeCounts` | worker/ai_bridge/metrics.py:61-70 | the running total up to bucket i is the number of observations at most its bound |
| `Metrics.SumIs` | worker/ai_bridge/metrics.py:22-26 | the sum kept is the sum of all observations |
| `Metrics.BucketSide` | worker/ai_bridge/metrics.py:22-26 | a value lands at or below bucket i exactly when it is at most that bound |
| `Metrics.Series.Observe` | worker/ai_bridge/metrics.py:22-26 | the histogram updated in place is the one that has seen one value more |
| `Metrics.Series.Render` | worker/ai_bridge/metrics.py:61-70 | every rendered line is the number of values at most its bound, the last one all of them |
| `Head.AcceptedExactly` | worker/ai_bridge/server.py:113-136 | a head is accepted if and only if the stream starts with a well-formed request line of at most 8192 bytes, well-formed field lines of at most 16384 bytes together, and an empty line; what follows is the body |
| `Head.RefusedExactly` | worker/ai_bridge/server.py:113-136 | a head is refused as too large exactly when its request line, without its end, is over 8192 bytes or, after a good request line and good field lines, the next does not fit into 16384; as malformed exactly when such a line within the limits is malformed or cut off; there is no request exactly when there is no byte |
| `Head.RequestIs` | worker/ai_bridge/server.py:121-122 | a request line is good exactly when it is at most 8192 characters from space to tilde and CR LF |
| `Head.FieldLineIs` | worker/ai_bridge/server.py:135 | a header line is good exactly when it is a name of letters, digits and the marks of a token, a colon, a text without control characters but the tab, and CR LF |
| `Head.Head.ReadHead` | worker/ai_bridge/server.py:113-136 | however the socket splits the bytes, the outcome is a function of their concatenation, the body is what is pending plus unread, and at most 8192 + 3 + 16384 + 3 bytes have left the socket |
| `Head.Head.ReadLine` | worker/ai_bridge/server.py:113-136 | one line or refusal, as a function of the remaining stream and the budget |
| `Head.Head.ReadUpTo` | worker/ai_bridge/server.py:78-92 | one line up to the limit; pending plus unread stays the rest of the stream, and no more than the limit is taken for it |
| `Head.Head.Read` | worker/ai_bridge/server.py:94-102 | the next bytes of the stream, fewer only at its end |
| `Head.Socket.Read1` | worker/ai_bridge/server.py:71-76 | some non-empty piece of what is unread, of at most the size asked for, or nothing at the end |
| `Head.LineLength` | worker/ai_bridge/server.py:78-92 | a read of a line takes no more than the stream holds and the limit lets it |
| `Head.HeadersAccepted` | worker/ai_bridge/server.py:125-136 | well-formed header lines within the budget are read back one by one |
| `Head.HeadersShape` | worker/ai_bridge/server.py:125-136 | an accepted header block is well-formed lines within the budget and an empty line |
| `JsonGuard.GuardIsStructural` | mcp_server/bridge_mcp/index.py:183-200 | the guard accepts a JSON text, whatever its whitespace and strings, if and only if its size times its decoded width is within the limit and the value it denotes has at most 50008 containers, at most 600128 containers, commas and colons together, and nests at most 64 deep |
| `JsonGuard.ElementTokens` | mcp_server/bridge_mcp/index.py:49 | the tokens the scan sees in a JSON text are the structural bytes of its value in order; punctuation and escaped quotes inside strings are inert |
| `JsonGuard.ValueGuarded` | mcp_server/bridge_mcp/index.py:187-200 | the counters after a value are those before it plus its own containers, separators and depth |
| `JsonGuard.GuardJson` | mcp_server/bridge_mcp/index.py:183-200 | the guard accepts exactly the texts whose size times decoded width is within the limit and whose counters stay within theirs all along |
| `JsonGuard.SameTokens` | scripts/mcp_index_memory.py:57-85 | where every string closes, the scan byte by byte sees the same tokens |
| `JsonGuard.BothScansAgree` | scripts/mcp_index_memory.py:57-85 | on every JSON text both scans count the same |
| `JsonGuard.OpenStringAgrees` | scripts/mcp_index_memory.py:57-85 | where a string stays open to the end of the text, the scans agree if and only if no structural byte follows its quote |
| `JsonGuard.OpenStrings` | mcp_server/bridge_mcp/index.py:49 | a string that stays open either runs out or hides a line feed behind a backslash |
| `JsonGuard.HiddenLineFeedEither` | mcp_server/bridge_mcp/index.py:49 | with a hidden line feed the scans may agree or differ: a text for each |
| `JsonGuard.TextWidth` | mcp_server/bridge_mcp/index.py:168-173 | the width is 4 exactly when some character of the text, or some escape, needs it, and 1 exactly when none is wide: searching the widest from the first wide one on misses none |
| `JsonGuard.WidthOf` | mcp_server/bridge_mcp/index.py:168-173 | for a text in UTF-8, told by its characters: 4 bytes a character exactly when one is above U+FFFF or an escape is a leading surrogate, otherwise 2 exactly when one or an escape is above U+00FF, otherwise 1 |
| `Chunk.ChunkText` | mcp_server/bridge_mcp/index.py:119-149 | for every text and legal sizes: every character that is not whitespace is in a window; windows are non-empty, at most chars long, start and end on non-whitespace, start ever later and end no earlier, share at most the overlap, stop inside a word only if the second half of the window has no whitespace, and start inside a word only when no word starts in the overlap; each ends and the next starts exactly where it is said; other sizes are refused |
| `Chunk.Cut` | mcp_server/bridge_mcp/index.py:132-140 | a window ends at its full reach when text goes on and its second half has no whitespace, and otherwise at the last word end within reach |
| `Chunk.Continue` | mcp_server/bridge_mcp/index.py:143-148 | exactly where the next window starts: behind this one when a word starts between the overlap's beginning and its start, else at its first word start within the overlap, else at the overlap's beginning, or behind it when it does not reach back so far |
| `Chunk.ContinuesOn` | mcp_server/bridge_mcp/index.py:143-148 | so the next window starts later, shares at most the overlap, skips only whitespace, and starts inside a word only at the overlap's beginning when no word starts in the overlap |
| `Chunk.Shares` | mcp_server/bridge_mcp/index.py:143-148 | two windows share text if and only if, for a first one longer than the overlap, there is an overlap at all, and for one no longer than that, no word starts from the overlap's beginning to its start and one does after it |
| `Chunk.ShortSharesNothing` | mcp_server/bridge_mcp/index.py:120-121 | a window no longer than the overlap that starts on a word shares nothing with the next |
| `Chunk.SparseSharesNothing` | mcp_server/bridge_mcp/index.py:120-121 | a text whose only two windows share nothing, with an overlap of 199 asked for |
| `Chunk.OnlyChunks` | mcp_server/bridge_mcp/index.py:119-149 | no other list of windows meets what is said of the result |
| `Chunk.LastSpace` | mcp_server/bridge_mcp/index.py:99-105 | the last whitespace of a range, or none |
| `Chunk.NextWord` | mcp_server/bridge_mcp/index.py:108-116 | the first word start at or after a place |
| `Chunk.SkipSpace` | mcp_server/bridge_mcp/index.py:94-96 | the first character at or after a place that is not whitespace |
| `Chunk.EndsNoEarlier` | mcp_server/bridge_mcp/index.py:129-148 | a window ends no earlier than the one before it |
| `Batches.MakeBatches` | mcp_server/bridge_mcp/index.py:414-425 | the batches list every text once in order, as the greedy division does |
| `Batches.GreedyDivides` | mcp_server/bridge_mcp/index.py:414-425 | the greedy division partitions the texts into non-empty runs of at most 32 and at most BATCH_BYTES, unless a run is one text |
| `Batches.FewestRequests` | mcp_server/bridge_mcp/index.py:414-425 | no other division under the same limits uses fewer runs |
| `Batches.OnlyGreedy` | mcp_server/bridge_mcp/index.py:414-425 | a division under the limits is the greedy one exactly when no request of it has room for the text after it |
| `CheckDigits.Luhn` | worker/ai_bridge/tasks.py:376-383 | the loop from the right decides the Luhn sum |
| `CheckDigits.LuhnPair` | worker/ai_bridge/tasks.py:376-383 | the sum two digits from the right at a time: the last adds itself, the one before it the digits of its double |
| `CheckDigits.LuhnSplit` | worker/ai_bridge/tasks.py:376-383 | what stands behind a part of even length does not change what the part adds |
| `CheckDigits.LuhnCheckDigit` | worker/ai_bridge/tasks.py:376-383 | for every payload exactly one digit can be appended to make a valid number |
| `CheckDigits.LuhnSingle` | worker/ai_bridge/tasks.py:376-383 | changing any one digit of a valid number makes it invalid |
| `CheckDigits.LuhnSwap` | worker/ai_bridge/tasks.py:376-383 | swapping two neighbours of a valid number leaves it valid if and only if they are equal or are 0 and 9 |
| `CheckDigits.NumberSpells` | worker/ai_bridge/tasks.py:432 | the number tested is the one spelled in decimal when each letter is written as its two digits |
| `CheckDigits.IbanChecks` | worker/ai_bridge/tasks.py:428-432 | of 15 to 34 characters the third and fourth decide: they are 98 less what the others leave modulo 97 |
| `CheckDigits.IbanSingle` | worker/ai_bridge/tasks.py:428-432 | replacing one character of a valid IBAN by another of its class makes it invalid |
| `CheckDigits.IbanSwap` | worker/ai_bridge/tasks.py:428-432 | so does swapping two unequal neighbours of one class, both before or both after the fourth place |
| `CheckDigits.ShiftCancels` | worker/ai_bridge/tasks.py:428-432 | modulo 97 no shift by decimal places hides a difference |
| `CheckDigits.TrimIban` | worker/ai_bridge/tasks.py:455-466 | the longest prefix of whole groups that is an IBAN is found, or there is none |
| `Cards.CardRanges` | worker/ai_bridge/tasks.py:386-397 | every whole-group range of 13 to 19 digits that passes Luhn is listed under its length, in start order, and nothing else |
| `Cards.SelectCards` | worker/ai_bridge/tasks.py:400-425 | the walk with one forward pointer per length picks what the naive rule does: the most digits, then leftmost, from the cursor on, until no range starts there |
| `Cards.NextCard` | worker/ai_bridge/tasks.py:412-422 | the next pick is the best range from the cursor on, or there is none |
| `Cards.NaiveIsUnique` | worker/ai_bridge/tasks.py:400-425 | the naive rule leaves no choice |
| `Cards.PicksAscend` | worker/ai_bridge/tasks.py:423-425 | the picks are disjoint and go from left to right |
| `Redaction.Merge` | worker/ai_bridge/tasks.py:660-671 | the spans are the connected components of strict overlap: sorted, disjoint, hiding exactly what the candidates hide, each named after the first of the candidates it starts with, and of those that tie the one listed first |
| `Redaction.NamedBy` | worker/ai_bridge/tasks.py:660-671 | a span is named after the candidate that starts with it, ends last, then has the highest ranked source, then the highest score, then comes first |
| `Redaction.OrderIrrelevant` | worker/ai_bridge/tasks.py:660-671 | the boundaries do not depend on the candidates' order |
| `Redaction.SortOrders` | worker/ai_bridge/tasks.py:665-666 | sorting by start, length, source and confidence loses and adds nothing |
| `Redaction.SortStable` | worker/ai_bridge/tasks.py:665-666 | sorting leaves candidates that tie in the order they came in |
| `Redaction.Mask` | worker/ai_bridge/tasks.py:692-698 | the loop over the spans builds the masked text |
| `Redaction.MaskShows` | worker/ai_bridge/tasks.py:692-698 | in place of every span, at the place told by the spans before it, stands its label in brackets |
| `Redaction.MaskRestores` | worker/ai_bridge/tasks.py:692-698 | with the hidden parts put back the text is as it was |
| `Redaction.MaskHidesInside` | worker/ai_bridge/tasks.py:692-698 | the masked text is the same for all texts that agree outside the spans |
| `Redaction.MergedIsAccepted` | src/RedactResult.php:25-43 | what a redaction returns passes the consumers' check of its spans |
| `Redaction.CheckSpans` | mcp_server/bridge_mcp/tools.py:250-265 | the check accepts exactly sorted, disjoint, named spans inside the text, scored between 0 and 1 |
| `Redaction.Redact` | worker/ai_bridge/tasks.py:674-701 | a whole redaction masks the components of its candidates, passes the consumers' check and can be undone with the hidden parts |
| `Rerank.RankAllIs` | worker/ai_bridge/tasks.py:179-182 | the full ranking lists every document once with its score, by falling score and then rising index |
| `Rerank.RankingsAccepted` | worker/ai_bridge/tasks.py:179-182 | what is returned for a top_k has that many rankings, each a document with its own score, passes the consumers' checks, and leaves out no document that scores above one it has or as high with a lower index |
| `Rerank.OnlyRanking` | src/RerankResult.php:27-46 | with every document asked for, it is the only list of those scores the checks accept |
| `Rerank.FromJob` | src/RerankResult.php:15-46 | the PHP check accepts exactly lists of the expected count with new indexes in range in stable descending order |
| `Rerank.FromTool` | mcp_server/bridge_mcp/tools.py:219-234 | the MCP tool's check accepts exactly lists of min(top_k, count) such rankings |
| `Rerank.CheckRankings` | mcp_server/bridge_mcp/tools.py:225-234 | the pass over the rankings decides range, uniqueness and stable order |
| `Rerank.Reporter.Report` | worker/ai_bridge/tasks.py:151-162 | whatever counts are reported, a message is sent exactly when all are done or another step of them is, at most 64 besides those for all of them |
| `Rerank.Reporter.RisingSends` | worker/ai_bridge/tasks.py:151-162 | counts that rise are sent in at most 65 messages |
| `Rerank.ReportEach` | worker/ai_bridge/tasks.py:164-175 | a task that reports one document after the other sends at most 65 messages, the last of them that all are done |
| `Ndcg.NdcgBounds` | scripts/relevance_measure.py:84-89 | NDCG is at most 1 for every ranking without repeats and every judgement map, and at least 0 when no grade is negative, for any positive non-increasing discount |
| `Ndcg.GainBound` | scripts/relevance_measure.py:84-89 | no ranking's discounted gain exceeds that of the grades in descending order cut at k |
| `Ndcg.PrefixesDecide` | scripts/relevance_measure.py:86-88 | summation by parts: dominated prefix sums give dominated discounted gains |
| `Ndcg.LargestSum` | scripts/relevance_measure.py:87 | any choice of at most t positive grades sums to no more than the t largest |
| `Ndcg.IdealAttains` | scripts/relevance_measure.py:84-89 | a ranking that starts with the best grades in order attains 1 |
| `Ndcg.NdcgNext` | scripts/relevance_measure.py:84-89 | one more document adds its grade times its rank's discount over the ideal gain, when its rank is within k; a ranking of nothing has 0 |
| `Ndcg.NdcgSwap` | scripts/relevance_measure.py:84-89 | two documents that change places change NDCG by the difference of their grades times that of their discounts, so the better one never loses by going first |
| `Ndcg.SortDownIs` | scripts/relevance_measure.py:87 | the grades are sorted in descending order, none lost |
| `Bm25.Build` | scripts/relevance_measure.py:52-61 | the index holds each document's length, their average, for exactly the words that occur one posting for each document that has the word, in order and with how often, and each word's idf by how many documents have it |
| `Bm25.CountIs` | scripts/relevance_measure.py:52-61 | a word counts as often as the multiset of the words has it |
| `Bm25.PostingsCount` | scripts/relevance_measure.py:52-61 | a word has as many postings as there are documents it is in |
| `Bm25.AverageIs` | scripts/relevance_measure.py:52-61 | the average length times the number of documents is the number of all their words |
| `Bm25.Scores` | scripts/relevance_measure.py:63-69 | a document is scored if and only if it shares a word with the query, with the Okapi formula, taken from the documents alone, summed over every occurrence of a word in the query |
| `Bm25.SameGain` | scripts/relevance_measure.py:66-68 | the formula by the index is the formula by the documents |
| `Bm25.DirectAdds` | scripts/relevance_measure.py:63-69 | a query's score is the sum of what its words are worth, and an empty query's nothing |
| `Bm25.LengthCounts` | scripts/relevance_measure.py:66-68 | a word's worth times tf + k1 is idf times tf times k1 + 1 when b is 0, or at the average length; when b is 1, times tf + k1 times the length in averages |
| `Bm25.RestMixes` | scripts/relevance_measure.py:67 | between those b mixes the two in a straight line |
| `Bm25.MoreOften` | scripts/relevance_measure.py:66-68 | at equal length a word's worth rises with how often it occurs and stays below idf times k1 + 1 |
| `Bm25.Longer` | scripts/relevance_measure.py:66-68 | for b above 0 a longer document is worth strictly less for a word it has as often |
| `Bm25.NormPositive` | scripts/relevance_measure.py:67 | for the parameters in their ranges the norm of a word that occurs is positive |
| `Bm25.NoZeroDivisor` | scripts/relevance_measure.py:63-69 | for the parameters in their ranges and every posting of an index, scoring divides by no zero |
| `Bm25.GroupedIsDirect` | scripts/relevance_measure.py:48-50 | counting each distinct word of the query as often as it is repeated is counting every occurrence |
| `Bm25.PostingsSpeak` | scripts/relevance_measure.py:63-69 | the postings of a word speak of exactly the documents that have it, once each |
| `Bm25.AddWord` | scripts/relevance_measure.py:66-68 | the loop over one word's postings adds what they count to each document's score and touches no other |

## Left out

- Each locked operation reads each clock once; the code reads them again within one operation.
- Sockets, TLS, tokens, HTTP beyond the head's lines (with the standard library's limit of 100 header lines), the read deadline and `linger`.
- Real processes, signals and pickling: messages are delivered whole and in order, a message outside the protocol is not modelled, and a child may leave at any point rather than only where its code can.
- SQLite: the table is a map with unique owner and key, `state_dir`, WAL, schema migration and column encodings are not modelled; a submission's timestamp in its row is not either.
- Validation of payloads, keys and settings beyond their ranges; `readiness`, `snapshot` and logging.
- The median run time behind the active-capacity hint is a parameter of the submission.
- JobStore.JobStore.Finish: the store's histograms are values here; `Metrics.Series` is the one updated in place.
- JobStore.JobStore.Started: the start itself and `_discard` run outside the lock and are only their outcome here.
- JobStore.JobStore.Reap: which retired children are still alive is a parameter.
- JobStore.JobStore.Close: waiting for the coordinator thread and joining the processes after the lock are not modelled.
- Refinement.TickIsARun: a child's moves are made before the reads of the pass that see them; those no read sees are left for after the pass.
- JsonGuard.OpenStringAgrees: is about strings that run out; `JsonGuard.OpenStrings` says what the others are.
- Protocol steps carry guards that restate what the store's functions need; `Service.InvCallable` and `Refinement.ReadCalls` show that every reachable state meets them.
- JsonGuard.GuardIsStructural: is about texts of the grammar; numbers and literal names are any run of their characters.
- Head.Head.ReadHead: is the sequence of reads the server makes of a head, up to the empty line.
- Chunk.ChunkText: what counts as whitespace is a parameter.
- Batches.MakeBatches: a text's encoded size is given.
- Cards.SelectCards: works on the digit groups of one run; finding runs and groups is the regular expressions' part, and a shorter range left of a longer one is skipped, as in the code.
- CheckDigits.TrimIban: the candidate is given as the match the regular expression found; country codes of lower-case candidates are not modelled.
- Redaction.Redact: the finders and the model that propose candidates are not modelled.
- Rerank.RankAllIs: scores are given; non-finite scores, refused before ranking, do not exist among real numbers.
- Ndcg.NdcgBounds: the discount is any positive non-increasing one, of which 1 / log2(rank + 2) is an instance; rounding is not modelled.
- Bm25.Scores: the idf is any function of the number of documents and of those with the word, of which the logarithm is an instance; `top` is left out.
- `mrr`, `summary`, `sample`, embeddings, tokenizers, named-entity recognition and `_recase`.
- Measurement scripts, MCP tool wiring, PHP transports, framework bundles and CI.
