# Verification of the kithkit daemon's stateful core

The daemon runs background workers, asks humans to approve outbound messages, types
messages into terminal panes, limits request rates, and keeps tasks, schedules and
timers. This project models those parts in Dafny and proves what every run of them
keeps.

The modules follow the source files. A module's mutable fields become the fields of a
class whose methods are written as the source is written; a function on a value type
says what one synchronous step does, and each method is proved to do that. The results
about runs are lemmas over arbitrary sequences of steps of these functions; the modules
named Effects and `PaneReading` state, field by field, what the functions do. Whatever
comes from outside (the agent SDK, the pane, the clock, whether a start throws, whether
a delivery fails, Unicode lower-casing, SHA-256) is an arbitrary parameter of the step.

| file | models |
|---|---|
| `WorkerPool`, `WorkerPoolSafety`, `WorkerPoolRuns`, `WorkerPoolEffects` | the worker allocator |
| `ApprovalGate`, `ApprovalGateSafety`, `ApprovalGateEffects`, `ChannelRouter`, `RouterEffects` | approval of outbound messages |
| `SessionQueue`, `InjectText`, `PaneDelivery`, `PaneReading`, `Injection` | injection into terminal sessions |
| `SlidingWindow`, `IngestRate`, `MessageDedup`, `MessageKeys` | windowed limits and the message cache |
| `TaskQueue`, `TaskQueueSafety`, `TaskInterleaving`, `TaskEffects` | orchestrator tasks |
| `Scheduler`, `SchedulerSafety`, `SchedulerEffects` | periodic tasks |
| `Timers`, `TimersSafety`, `TimerInterleaving`, `TimerEffects` | reminders and their nag cycles |
| `DeepMerge`, `SyncClaude` | configuration and settings merges |
| `JsStrings`, `Common` | UTF-16 strings, sorting, subsequences |

## Where the code does not do what one might expect

Each of these is a lemma; where it says exactly, the condition is an if and only if.

- Cancelling a task fails its workers' job rows behind the allocator. Exactly the slots of
  the workers that were running leak, for good: the guard against duplicate completion
  skips their agent rows (`WorkerPoolRuns.TaskCancelLeaksExactlyWhenRunning`). Cancelling
  queued workers leaks no slot but breaks index agreement, since they stay in the queue
  with their requests; a cancel is harmless exactly when all workers had finished
  (`WorkerPoolRuns.TaskCancelIsHarmlessExactlyWhenFinished`).
- A restart abandons the rows of pending approval gates: nothing can approve, reject or
  time them out but the startup sweep
  (`ApprovalGateSafety.RestartAbandonsExactlyWhenPending`,
  `ApprovalGateSafety.AbandonedIsNeverApproved`). The sweep in turn is safe exactly when
  no gate is pending (`ApprovalGateSafety.SweepIsForStartup`). Nothing in the daemon's
  own code calls the sweep, registers the gate with the router or records successful
  sends; the runs contain restarts with and without the sweep, and the router results
  take the registration as given.
- A PUT, a plan submission and a plan rejection read a task, wait for the request body
  and then write. `TaskInterleaving` lets everything happen in between and gives, for
  each, exactly the rows on which the rules of a task survive. Otherwise a finished task
  can be revived, a pending task get an assignee, an approval be taken back
  (`TaskInterleaving.LateRejectRevokesApproval`), and a plan be approved that nobody
  submitted (`TaskInterleaving.ApprovesWhatNobodySubmitted`), although the source says
  that what was approved must match what executes.
- That promise fails without any interruption too: only a submitted plan is protected
  from a PUT, an approved one is not until the task is over
  (`TaskInterleaving.ApprovedPlanIsSafeExactlyWhenOver`).
- A timer's snooze waits for its body too. It breaks the agreement of memory and database
  exactly when the timer was removed meanwhile
  (`TimerInterleaving.LateSnoozeAgreesExactlyWhenPresent`), and it is the snooze it was
  meant to be exactly when the timer is still fired; otherwise it revives an
  acknowledged, expired or cancelled timer
  (`TimerInterleaving.LateSnoozeIsTimelyExactlyWhenFired`,
  `TimerInterleaving.LateSnoozeRevives`).
- Deleting a finished timer that is still in memory overwrites its status and
  completion time (`TimersSafety.FinishedRowsStay`).
- A manual trigger overlaps a running task
  (`SchedulerSafety.TriggerOverlapsExactlyWhenRunning`), and so can the next execution
  of a name that was removed while it ran and added again
  (`SchedulerSafety.RemovalIsSafeExactlyWhenIdle`).
- Repeated settings syncs grow the hook lists exactly when a source entry has no
  command (`SyncClaude.SyncAbsorbsExactlyWhen`, `SyncClaude.ListsGrow`).
- A message shares its deduplication key with an unlike one exactly when a name holds a
  colon or the body imitates a message type, as "text:hi" does
  (`MessageKeys.CollidesExactlyWhen`, `MessageKeys.BodiesCollide`).

## Model

| member | source | states |
|---|---|---|
| `WorkerPoolRuns.NoOvertaking` | daemon/src/agents/lifecycle.ts:207-268 | On every run of spawns, poll ticks and kills, any two jobs passed to the start function are different and were spawned in that order; spawned jobs are distinct |
| `WorkerPoolRuns.ConservesWorkWithinCapacity` | daemon/src/agents/lifecycle.ts:515-551 | After every step a job waits only while the running count is at the limit, and workers never lift the count above it |
| `WorkerPoolRuns.IndexesAgree` | daemon/src/agents/lifecycle.ts:354-418 | After every step the queue has no duplicates, queue = deferred requests = queued rows, timers = running rows, and each agent row follows its job row |
| `WorkerPoolRuns.FreshSpawnWaits` | daemon/src/agents/lifecycle.ts:249-267 | A spawn while another job waits starts nothing and goes to the end of the queue |
| `WorkerPoolRuns.FinishedForever` | daemon/src/agents/lifecycle.ts:445-457 | On every continuation a finished job keeps its first status, result and error, and nobody is told of it again |
| `WorkerPoolRuns.AnnouncedOnce` | daemon/src/agents/lifecycle.ts:489-506 | The step that finishes a job calls each listener exactly once with the final row, and nobody was called before |
| `WorkerPoolRuns.KillIsEffective` | daemon/src/agents/lifecycle.ts:579-608 | A kill succeeds exactly on unfinished jobs, which are failed without result when it returns; otherwise it changes nothing |
| `WorkerPoolRuns.NextSettles` | daemon/src/agents/lifecycle.ts:436-510 | Whatever races with whatever in one step, for every job: rows settle once and calls are added only for the job that finishes |
| `WorkerPoolEffects.TickReports` | daemon/src/agents/lifecycle.ts:378-410 | A poll tick of a running job: status, result and error reported by the SDK are the row's and are told to each listener in order; a vanished worker is failed with its text; a running one changes nothing |
| `WorkerPoolEffects.KillReports` | daemon/src/agents/lifecycle.ts:579-608 | A kill fails a queued and a running job, each with its own text, and tells the listeners so; otherwise it changes nothing |
| `WorkerPoolEffects.SpawnReports` | daemon/src/agents/lifecycle.ts:248-267 | With a free slot a spawned job is started at once, and runs or is failed with the error of its start; without one it waits last with its request |
| `WorkerPoolEffects.DrainBegins` | daemon/src/agents/lifecycle.ts:517-551 | A drain changes exactly the jobs it passes to the start function: they run, or are failed with the error of their start |
| `WorkerPoolEffects.FinishBegins` | daemon/src/agents/lifecycle.ts:436-510 | Finishing one job changes other jobs only by starting them |
| `WorkerPoolEffects.CountIsOfRunningJobs` | daemon/src/agents/lifecycle.ts:154-159 | What counts against the limit is the persistent agents and the running jobs |
| `WorkerPoolRuns.TaskCancelLeaksExactlyWhenRunning` | daemon/src/api/task-queue.ts:642-655 | After a task cancel, on every later run of the allocator, exactly the slots of the workers that were running stay occupied and count against the limit; if they are all the slots there are nothing is started again; queued workers are never started |
| `WorkerPoolRuns.TaskCancelIsHarmlessExactlyWhenFinished` | daemon/src/api/task-queue.ts:642-655 | A task cancel keeps the allocator's invariant exactly when none of the workers was queued or running; queued ones stay in the queue with their requests |
| `WorkerPoolRuns.ReleasedStays` | daemon/src/agents/lifecycle.ts:445-457 | A finished job without a slot gets none and is not started again, on any run |
| `WorkerPoolSafety.NextKeeps` | daemon/src/agents/lifecycle.ts:207-608 | Every step of the allocator keeps index agreement, work conservation, capacity and spawn order |
| `WorkerPoolSafety.DrainKeeps` | daemon/src/agents/lifecycle.ts:515-551 | Draining the queue restores work conservation from any state that has the other invariants, even when every start throws |
| `WorkerPoolSafety.KillKeeps` | daemon/src/agents/lifecycle.ts:579-608 | Removing a job from the middle of the queue, or finishing a running one, keeps the invariant |
| `WorkerPoolSafety.TickKeeps` | daemon/src/agents/lifecycle.ts:378-410 | A poll tick keeps the invariant, although finishing a job may start others before its own timer is cleared |
| `WorkerPool.Pool.FinishJob` | daemon/src/agents/lifecycle.ts:436-510 | The guarded mutual recursion with the queue loop computes the row updates and, outside the loop, one complete drain |
| `WorkerPool.Pool.ProcessQueue` | daemon/src/agents/lifecycle.ts:515-551 | The queue loop terminates although failing starts call back into it, and equals draining with the nested calls left out |
| `WorkerPool.Pool.SpawnWorkerJob` | daemon/src/agents/lifecycle.ts:230-267 | The synchronous part of a spawn; the caller is told running, failed or queued according to limit and start outcome |
| `WorkerPool.Pool.StartWorker` | daemon/src/agents/lifecycle.ts:301-373 | What a start changes if it succeeds, and what it leaves behind if it throws before or between its row updates |
| `WorkerPool.Pool.PollTick` | daemon/src/agents/lifecycle.ts:378-410 | One poll tick: a vanished or ended worker finishes its job and stops its timer |
| `WorkerPool.Pool.KillJob` | daemon/src/agents/lifecycle.ts:579-608 | Search and splice of the queue, or finish of a running job |
| `WorkerPool.Pool.NotifyListeners` | daemon/src/agents/lifecycle.ts:489-506 | Each listener is called once in order; what a listener throws is caught and the next one is called |
| `WorkerPool.Pool.SetOnJobComplete` | daemon/src/agents/lifecycle.ts:110-122 | Replaces all listeners by one or none |
| `ApprovalGateSafety.AgreementOnRuns` | daemon/src/comms/approval-gate.ts:278-468 | On every run of openings, decisions, timeouts, delivery failures, restarts, startup sweeps and recorded sends: the pending map is exactly the undecided rows of the gates opened since the last restart, and a gate that returned did so as its row says |
| `ApprovalGateSafety.AbandonedIsNeverApproved` | daemon/src/comms/approval-gate.ts:327-343 | A row left undecided by a restart is never approved nor rejected: the first sweep times it out, and without one it stays undecided on every run |
| `ApprovalGateSafety.RestartAbandonsExactlyWhenPending` | daemon/src/comms/approval-gate.ts:327-343 | After a restart the pending map misses no undecided row exactly when no gate was pending and none was missed before; the missed rows are named |
| `ApprovalGateSafety.SweptRestartsAbandonNothing` | daemon/src/comms/approval-gate.ts:483-520 | On runs in which the sweep follows every restart, the pending map is exactly the undecided rows of the table |
| `ApprovalGateSafety.RowsDecidedOnce` | daemon/src/comms/approval-gate.ts:432-468 | On every run, across restarts, a decided row never changes and an undecided one changes only its decision |
| `ApprovalGateSafety.GatesSettleOnce` | daemon/src/comms/approval-gate.ts:327-425 | While the process lives a settled gate keeps its outcome |
| `ApprovalGateSafety.DecisionTakesEffect` | daemon/src/comms/approval-gate.ts:432-468 | A decision succeeds exactly on a pending gate, whose row and caller get it; otherwise nothing changes and the answer says whether the row was decided; an abandoned row counts as not found |
| `ApprovalGateSafety.SweepDenies` | daemon/src/comms/approval-gate.ts:483-520 | After a restart and the sweep no row is undecided, swept rows are timed out by the system, the others untouched |
| `ApprovalGateSafety.SweepIsForStartup` | daemon/src/comms/approval-gate.ts:483-520 | The sweep keeps row and gate in agreement exactly when no gate of this process is pending |
| `ApprovalGateSafety.SweepThenApprove` | daemon/src/comms/approval-gate.ts:432-468 | After a sweep in a live process a human approval returns true over a timed-out row |
| `ApprovalGateSafety.NextKeeps` | daemon/src/comms/approval-gate.ts:278-520 | Each step, a bare restart included, keeps the agreement of pending map, timer, promise and row |
| `ApprovalGateSafety.NextWritesOnce` | daemon/src/comms/approval-gate.ts:327-468 | Each step, a bare restart included, keeps decided rows, and settled promises while the process lives |
| `ApprovalGateEffects.OpenDecides` | daemon/src/comms/approval-gate.ts:287-425 | A fresh gate: an exempt send is approved by the system at once; any other waits undecided, or has thrown, or was timed out, as its card could be handed out |
| `ApprovalGateEffects.ExemptExactlyWhen` | daemon/src/comms/approval-gate.ts:240-268 | A send is exempt exactly under "never", or under "first_time_recipient" with every canonical recipient known to the sender |
| `ApprovalGateEffects.OpenRecords` | daemon/src/comms/approval-gate.ts:300-342 | The row holds the hashes of the original text and of the recipients, sender, channel, policy and time; no other row or gate changes |
| `ApprovalGateEffects.DenialTakesEffect` | daemon/src/comms/approval-gate.ts:345-367 | A timeout or a failed delivery denies a pending gate, in the name of the system and now, and leaves any other alone |
| `ApprovalGateEffects.DecisionIsWritten` | daemon/src/comms/approval-gate.ts:432-468 | A decision on a pending gate is written with name and time and returned to the caller |
| `ApprovalGateEffects.ApprovedRowsAreJustified` | daemon/src/comms/approval-gate.ts:278-468 | On every run from an empty database an approved row was exempt when it was opened, or carries the name of the human whose decision is on the run |
| `ApprovalGate.HumanIsSkippedExactlyWhen` | daemon/src/comms/approval-gate.ts:240-268 | A send skips the human exactly under the word "never", or under "first_time_recipient" when this agent has sent to every recipient |
| `ApprovalGate.RequiresGate` | daemon/src/comms/approval-gate.ts:240-268 | The same over the words as read: every other one asks the human |
| `ApprovalGate.RememberExactly` | daemon/src/comms/approval-gate.ts:164-174 | After a recorded send exactly the canonical recipients are new contacts, of the sending agent |
| `ApprovalGate.RecipientHashIgnoresOrder` | daemon/src/comms/approval-gate.ts:104-112 | The recipient hash depends only on the multiset of canonical addresses, and with an injective digest identifies it |
| `ApprovalGate.GateKeeper.ApprovalGate` | daemon/src/comms/approval-gate.ts:278-426 | Opening a gate: bypass row, or pending row with timer and card delivery that may be missing or throw |
| `ApprovalGate.GateKeeper.ResolvePending` | daemon/src/comms/approval-gate.ts:432-468 | A decision writes the undecided row and settles the gate, or names why not |
| `ApprovalGate.GateKeeper.SweepStaleApprovals` | daemon/src/comms/approval-gate.ts:483-520 | The loop times out every undecided row and returns their number |
| `ApprovalGate.GateKeeper.OnTimeout` | daemon/src/comms/approval-gate.ts:345-367 | A timeout denies a gate unless it was resolved before |
| `ApprovalGate.GateKeeper.RecordSend` | daemon/src/comms/approval-gate.ts:164-174 | The loop over the recipients records one contact each |
| `ChannelRouterSafety.EverySendWasApproved` | daemon/src/comms/channel-router.ts:138-216 | On every run with the gate registered, restarts included, each send on a channel with a policy has an approved row with the hash of the original text and of the recipients, its gate, while its process lives, returned true, and no two sends share a row |
| `RouterEffects.EverySendWasAllowed` | daemon/src/comms/channel-router.ts:138-216 | On every run each send on a channel with a policy was of a delivery that was exempt when it began, or that a human approved on this run |
| `RouterEffects.ContinueSends` | daemon/src/comms/channel-router.ts:201-214 | An open delivery is sent, once and as rendered, exactly when no gate was asked, the channel had no policy, or the gate returned true; it stays exactly while the gate waits; otherwise it ends without a send |
| `RouterEffects.DecisionThenContinue` | daemon/src/comms/channel-router.ts:196-214 | A human decision about a waiting delivery, and its continuation: approved it is sent once, rejected never |
| `RouterEffects.BeginStarts` | daemon/src/comms/channel-router.ts:184-200 | Each channel begins its own delivery; without a gate it is sent at once, otherwise it waits for what the gate makes of it |
| `RouterEffects.TargetsAre` | daemon/src/comms/channel-router.ts:132-134 | Without a channel list a call goes to every adapter |
| `RouterEffects.CallReachesAllTargets` | daemon/src/comms/channel-router.ts:138-142 | A call begins one delivery of the message for each target, in order |
| `RouterEffects.RouterRunsTheGate` | daemon/src/comms/channel-router.ts:184-207 | What the router does to the gate is a run of the gate |
| `RouterDenials.DeniedGateNeverSends` | daemon/src/comms/channel-router.ts:201-214 | A gate that threw after its row was written, said no or timed out sends nothing on any run, even if a human approves its row later |
| `RouterDenials.FailedGateSendsNothing` | daemon/src/comms/channel-router.ts:196-207 | A gate call that threw before its row was written sends nothing |
| `ChannelRouterSafety.SendsCarryTheMessage` | daemon/src/comms/channel-router.ts:138-216 | On every run, restarts included, the text sent is the channel's rendering of the message whose original text was hashed |
| `ChannelRouterSafety.NextKeeps` | daemon/src/comms/channel-router.ts:184-214 | Each step of router and gate, bare restarts and startup sweeps included, keeps: sent only if approved and only by a gate that returned true, at most once per delivery |
| `ChannelRouter.Router.RouteMessage` | daemon/src/comms/channel-router.ts:128-219 | Every target channel that has an adapter runs up to its gate, each with its own row |
| `ChannelRouter.Router.ContinueFlight` | daemon/src/comms/channel-router.ts:201-214 | After its gate settled a delivery sends if it returned true and is dropped otherwise |
| `ChannelRouter.Keep` | daemon/src/comms/channel-router.ts:132-134 | The targets are the listed channels that have an adapter, in the listed order and as often as listed |
| `SessionQueue.OneInFlight` | daemon/src/agents/tmux.ts:418-430 | Under any scheduling at most one body of a session runs |
| `SessionQueue.StartsInEnqueueOrder` | daemon/src/agents/tmux.ts:418-430 | Under any scheduling the bodies of a session start in enqueue order, skipping none |
| `SessionQueue.SessionsNeverStall` | daemon/src/agents/tmux.ts:418-430 | While a session has unfinished bodies, a step of its earliest one is enabled, however earlier bodies ended |
| `SessionQueue.SessionsAreIndependent` | daemon/src/agents/tmux.ts:418-430 | A step of one session neither enables nor disables a step of another |
| `SessionQueue.OutcomeIsKept` | daemon/src/agents/tmux.ts:418-430 | How a body ends is what its caller gets, and its link settles either way |
| `SessionQueue.IdleSessionStartsAtOnce` | daemon/src/agents/tmux.ts:418-430 | A body for a session without unfinished ones may start at once |
| `SessionQueue.StartIsSerial` | daemon/src/agents/tmux.ts:418-430 | A body starts only after all earlier bodies of its session settled |
| `SessionQueue.NextKeeps` | daemon/src/agents/tmux.ts:418-430 | Every enabled step keeps the chain of each session linear and its tail last |
| `SessionQueue.Queues.EnqueueForSession` | daemon/src/agents/tmux.ts:418-430 | A body is attached to the tail of its session and becomes the tail |
| `InjectText.SanitizeIsSafe` | daemon/src/agents/tmux.ts:499-533 | For every input: no control character but tab, LF and CR, every "@" last or before white space, "@" or U+200B, at most 6000 units, marker first if cut |
| `InjectText.BoundIsAttained` | daemon/src/agents/tmux.ts:499-533 | Some message within the cap leaves with exactly 6000 units |
| `InjectText.NothingElseIsLost` | daemon/src/agents/tmux.ts:499-533 | Within the cap and without ESC, only control characters are lost and only U+200B is added |
| `InjectText.PlainTextIsUnchanged` | daemon/src/agents/tmux.ts:499-533 | Within the cap, text without controls and "@" is returned as it is |
| `InjectText.EscapesVanish` | daemon/src/agents/tmux.ts:507-509 | Control sequences with parameters and a letter vanish as a whole, and so does an escape with any other character |
| `InjectText.MentionsAreBroken` | daemon/src/agents/tmux.ts:524-528 | An "@" before a visible character gets U+200B behind it; before white space or the end it stays |
| `InjectText.LongTextIsCut` | daemon/src/agents/tmux.ts:499-506 | Of a plain message over the cap the first 3678 units stay, behind the marker |
| `InjectText.ControlsAre` | daemon/src/agents/tmux.ts:510-511 | The control characters are those below the space but tab, LF and CR, and DEL |
| `InjectText.NeutraliseAddsHalf` | daemon/src/agents/tmux.ts:518-528 | The "@" pass adds at most half the length |
| `InjectText.MarkerIsSafe` | daemon/src/agents/tmux.ts:44-55 | The truncation marker has 122 units, no control and no "@" |
| `PaneDelivery.Inject` | daemon/src/agents/tmux.ts:582-677 | Against every pane: at most 2 pastes, 4 submits, 22 captures; true only after two landed reads in a row, the first such pair, and one paste; a second paste only over an unreadable or landed line; giving up with every call accepted only over somebody's text or after the re-delivery |
| `Injection.InjectMessageToSession` | daemon/src/agents/tmux.ts:540-677 | A missing session or a text that sanitises to nothing is refused without touching the pane; anything else is delivered as promised, with the stamped sanitised text |
| `Injection.EveryPasteIsSafe` | daemon/src/agents/tmux.ts:570-610 | For every message and pane, each paste is free of controls and mentions and at most 6001 units longer than the stamp |
| `PaneDelivery.QuietPaneIsDelivered` | daemon/src/agents/tmux.ts:582-677 | A pane that takes every call and shows a consumed line gets the message delivered |
| `PaneDelivery.VerifySubmitLanded` | daemon/src/agents/tmux.ts:333-372 | At most three double reads; lands on the first pair of landed reads, reports the last line seen, and writes nothing |
| `PaneDelivery.FindCurrentInputLine` | daemon/src/agents/tmux.ts:252-264 | The backward search returns the last live input row of the pane, or nothing if there is none |
| `PaneReading.DrawnPaneIsRead` | daemon/src/agents/tmux.ts:223-264 | Whatever is above: a row with the glyph, one space and a text, a border of three or more units below it, and one to three plain footer lines with the label are read as the text, trimmed |
| `PaneReading.LiveRowExactlyWhen` | daemon/src/agents/tmux.ts:252-264 | A line is a live row with a text exactly if it shows it behind spaces, the glyph and at most one space, a border follows, and the label is within three lines after that |
| `PaneReading.PromptTextExactlyWhen` | daemon/src/agents/tmux.ts:223 | The input-row pattern takes exactly the lines that show a text |
| `PaneReading.OtherLinesShowNothing` | daemon/src/agents/tmux.ts:223 | A line whose first non-space unit is another one shows nothing |
| `PaneReading.BorderExactlyWhen` | daemon/src/agents/tmux.ts:215 | A border is three or more of the three border units, then white space |
| `PaneReading.InputLineIsLast` | daemon/src/agents/tmux.ts:252-264 | The input line of a capture is the text of its last live row |
| `PaneReading.UnreadableExactlyWhen` | daemon/src/agents/tmux.ts:252-264 | A capture is unreadable exactly if it has no live row |
| `PaneReading.LandedExactlyWhen` | daemon/src/agents/tmux.ts:294-305 | A submit landed exactly if the line is empty or begins with the hint |
| `PaneReading.ReadyExactlyWhen` | daemon/src/agents/tmux.ts:205-207 | A pane is ready exactly if it ends with the prompt sign, up to white space |
| `PaneDelivery.LastIndex` | daemon/src/agents/tmux.ts:252-264 | The greatest index with the property, none exactly if no index has it |
| `PaneDelivery.AwaitPrompt` | daemon/src/agents/tmux.ts:582-597 | Before the paste: captures until the pane is ready or a capture fails, at most four, no other call |
| `PaneDelivery.Redeliver` | daemon/src/agents/tmux.ts:628-654 | At most one more paste and submit, never over typed text |
| `SlidingWindow.IntervalBound` | daemon/src/api/rate-limit.ts:27-52 | Any half-open interval of the window's length holds at most max admissions |
| `SlidingWindow.RequestKeepsFaithful` | daemon/src/api/rate-limit.ts:36-50 | The pruned list decides as a scan of all admissions would, now and later |
| `SlidingWindow.RetryAfterIsExact` | daemon/src/api/rate-limit.ts:38-42 | With max >= 1 a refused caller who waits as told is admitted if nobody else was, and one a second earlier is refused |
| `SlidingWindow.LiveCounts` | daemon/src/api/rate-limit.ts:36 | What counts is what was admitted in the last windowMs milliseconds |
| `RateLimit.Limiters.Allow` | daemon/src/api/rate-limit.ts:22-53 | Refuses exactly when the full history of the key holds max live admissions; Retry-After comes from the oldest of them |
| `RateLimit.NoBurst` | daemon/src/api/rate-limit.ts:22-53 | No key gets more than its maximum in any interval of its window |
| `RestartGuard.Guard.Request` | daemon/src/api/restart.ts:147-206 | Accepts exactly when the history in the window is below the maximum; an accepted restart is due within 2 s, a pending one, even overdue, is not postponed |
| `RestartGuard.Guard.TimerFires` | daemon/src/api/restart.ts:188-206 | The one pending restart shuts down when due or later; there are never more shutdowns than accepted requests, and no accepted request stays without one pending or done since |
| `RestartGuard.NoRestartLoop` | daemon/src/api/restart.ts:152-175 | At most max accepted restarts in any minute |
| `AccessControl.Engine.CheckRateLimit` | daemon/src/core/access-control.ts:172-199 | Allows exactly while the sender's live history is below its tier limit; remaining and reset time follow from that history |
| `AccessControl.SenderBound` | daemon/src/core/access-control.ts:172-199 | However a sender's tier changes, never more than the largest limit in any minute |
| `AccessControl.RequestKeepsSenders` | daemon/src/core/access-control.ts:172-199 | A request keeps every sender's log equivalent to its history |
| `IngestRate.PruningIsInvisible` | daemon/src/api/metrics.ts:34-53 | Deleting entries two windows old never changes the answer to any later request |
| `IngestRate.NineteenPerMinute` | daemon/src/api/metrics.ts:34-53 | On every run, with other agents and sweeps in between, any half-open minute admits an agent at most 19 times |
| `IngestRate.AdmittedAreAdmissions` | daemon/src/api/metrics.ts:34-53 | Whatever others ask and whatever is swept, an agent is admitted exactly as by its own requests alone |
| `IngestRate.NineteenInAMinute` | daemon/src/api/metrics.ts:34-44 | A run that is admitted 19 times within one minute |
| `IngestRate.MinuteBound` | daemon/src/api/metrics.ts:34-44 | Consecutive fixed windows of at most ten put at most 19 into any minute |
| `IngestRate.RecordKeeps` | daemon/src/api/metrics.ts:34-44 | A request keeps count and window start in step with the admissions of the agent |
| `IngestRate.Limiter.IsRateLimited` | daemon/src/api/metrics.ts:34-44 | The answer and the new entry, with all other agents untouched |
| `IngestRate.Limiter.PruneStaleRateLimitEntries` | daemon/src/api/metrics.ts:46-53 | The loop removes exactly the entries two windows old |
| `MessageDedup.SendRefinesLog` | daemon/src/agents/message-router.ts:109-140 | An old id is returned exactly when the full log holds a row with the key inserted less than 5000 ms ago, and it is the latest; otherwise one row is inserted |
| `MessageDedup.RowsAreSpaced` | daemon/src/agents/message-router.ts:109-140 | On every run two rows with one key are at least 5000 ms apart |
| `MessageDedup.CacheAnswersLikeTheLog` | daemon/src/agents/message-router.ts:122-128 | The pruned cache hits exactly when a scan of the log would |
| `MessageDedup.CleanupKeeps` | daemon/src/agents/message-router.ts:61-68 | Removing stale entries keeps the cache equivalent to the log |
| `MessageDedup.KeyIdentifies` | daemon/src/agents/message-router.ts:57-59 | Between names without a colon, equal keys mean equal sender, target, type and first 200 units of the body |
| `MessageDedup.WorkerAgentExactlyWhen` | daemon/src/agents/message-router.ts:399-401 | A worker's name begins with "worker-", or with eight hexadecimal digits and a dash |
| `MessageKeys.CollidesExactlyWhen` | daemon/src/agents/message-router.ts:57-59 | A message shares its key with one of another sender, target, type or text exactly when its sender or target holds a colon, or a part of the first 200 units of its body, closed by a colon, is the name of a message type |
| `MessageKeys.BodiesCollide` | daemon/src/agents/message-router.ts:57-59 | Two messages between different agents, the first without a colon in a name, have one key |
| `MessageDedup.ColonsCollide` | daemon/src/agents/message-router.ts:57-59 | A colon in a name makes messages between different agents share a key, for all names, types and bodies |
| `MessageDedup.Router.Send` | daemon/src/agents/message-router.ts:109-140 | Type check, worker restriction, cleanup, cache check and insertion in that order |
| `MessageDedup.Router.CleanupStaleDedup` | daemon/src/agents/message-router.ts:61-68 | The loop removes exactly the entries older than the window |
| `TaskInterleaving.SafeInterleavingsAreConsistent` | daemon/src/api/task-queue.ts:588-1093 | On every interleaved run of reads, arriving bodies and immediate requests in which bodies arrive while their handlers are safe: both histories along edges, pending without and assigned with an assignee, finished with a completion time, a submitted plan is the one last submitted |
| `TaskInterleaving.UnsafeArrivalBreaks` | daemon/src/api/task-queue.ts:588-1093 | Where a waiting handler is not safe, some body that may arrive breaks a rule |
| `TaskInterleaving.LatePutKeepsInvariantExactlyWhen` | daemon/src/api/task-queue.ts:888-1093 | A PUT keeps every rule of the task, whatever its body, exactly when the row it writes agrees with the row it read on edges, assignee and plan |
| `TaskInterleaving.LateSubmitKeepsInvariantExactlyWhen` | daemon/src/api/task-queue.ts:676-713 | A submission whose body arrives late keeps every rule exactly when the task is in progress or waits for approval |
| `TaskInterleaving.LateRejectKeepsInvariantExactlyWhen` | daemon/src/api/task-queue.ts:801-850 | A rejection whose body arrives late keeps every rule exactly when the status leads to in progress and the plan was not approved or dropped meanwhile |
| `TaskInterleaving.LatePutStatusExactlyWhen` | daemon/src/api/task-queue.ts:888-955 | A late PUT follows an edge, whatever its body, exactly when every edge from the status it read is one from the current status or leads to it |
| `TaskInterleaving.LatePutAssigneeExactlyWhen` | daemon/src/api/task-queue.ts:277-286 | A late PUT keeps the assignee rule, whatever its body, exactly when a pending or assigned row has the status it read, or it read a finished row |
| `TaskInterleaving.LatePutCompletionTimeExactlyWhen` | daemon/src/api/task-queue.ts:955-975 | A late PUT keeps the completion time of a finished task, whatever its body and time, exactly when it read a completed or cancelled one |
| `TaskInterleaving.LatePutPlanExactlyWhen` | daemon/src/api/task-queue.ts:1066-1073 | A PUT keeps the plan of the row it writes, whatever its body, exactly when the plan was submitted, or the task over, in the row it read |
| `TaskInterleaving.WaitingPlanIsSafeExactlyWhen` | daemon/src/api/task-queue.ts:1066-1073 | A submitted plan is safe from a late PUT exactly under that condition |
| `TaskInterleaving.ApprovedPlanIsSafeExactlyWhenOver` | daemon/src/api/task-queue.ts:1066-1073 | An approved plan is safe from any PUT exactly when the task is completed or cancelled |
| `TaskInterleaving.ApprovesWhatNobodySubmitted` | daemon/src/api/task-queue.ts:1066-1073 | A PUT that read before a submission replaces the submitted plan, and the approval is for a text nobody submitted |
| `TaskInterleaving.LateRejectIsTimelyExactlyWhen` | daemon/src/api/task-queue.ts:801-850 | A late rejection is the one that would be made now, whatever its reason, exactly when a submitted plan still waits |
| `TaskInterleaving.LateRejectRevokesApproval` | daemon/src/api/task-queue.ts:801-850 | A rejection that waited while the plan was approved takes the approval back |
| `TaskInterleaving.LatePutRevivesCancelledTask` | daemon/src/api/task-queue.ts:888-899 | A cancelled task is completed by a PUT that had read it in progress |
| `TaskInterleaving.UnchangedIsSafe` | daemon/src/api/task-queue.ts:588-1093 | A handler whose row was not changed while it waited is safe, and a PUT is then the uninterrupted one |
| `TaskInterleaving.OverStaysOver` | daemon/src/api/task-queue.ts:173-181 | Completed and cancelled are absorbing on every safe interleaved run |
| `TaskInterleaving.FinishedTasksAreDated` | daemon/src/api/task-queue.ts:955-975 | On every interleaved run, safe or not, a finished task has a completion time |
| `TaskQueueSafety.TasksStayConsistent` | daemon/src/api/task-queue.ts:588-1093 | The same rules after any sequence of uninterrupted requests |
| `TaskQueueSafety.FinishedTasksStayFinished` | daemon/src/api/task-queue.ts:173-181 | Completed and cancelled are absorbing under every sequence of uninterrupted requests |
| `TaskQueueSafety.ApprovalIsOfTheLatestPlan` | daemon/src/api/task-queue.ts:744-798 | Wherever the rules hold, an approved plan is the text of the latest accepted submission |
| `TaskQueueSafety.PutKeeps` | daemon/src/api/task-queue.ts:934-1093 | An accepted PUT keeps the assignee and completion rules, follows an edge, and leaves a submitted plan alone |
| `TaskQueueSafety.HandleKeeps` | daemon/src/api/task-queue.ts:588-1093 | Every handler that is not interrupted keeps the rules of a task |
| `TaskQueueSafety.WriteKeepsExactlyWhen` | daemon/src/api/task-queue.ts:173-181 | Writing a row keeps the rules exactly when the row obeys them and both changes of status are along edges |
| `TaskEffects.PutFields` | daemon/src/api/task-queue.ts:1001-1079 | Result, error, acknowledgement and plan are the body's where it has them, and the current row's otherwise |
| `TaskEffects.PutStatus` | daemon/src/api/task-queue.ts:950-1000 | The status is the one the body asks for, along an edge; the assignee is the body's, but a task that becomes pending has none |
| `TaskEffects.PutTimes` | daemon/src/api/task-queue.ts:974-1000 | Assignment and start times are set exactly on the first assignment and start, the completion time exactly when an end is asked for |
| `TaskEffects.PutAnswers` | daemon/src/api/task-queue.ts:898-1079 | The code of every PUT, from eight conditions on row and body in the order of the checks |
| `TaskEffects.RefusedPutWritesNothing` | daemon/src/api/task-queue.ts:898-1079 | A refused PUT writes nothing; 403 is answered exactly to another agent that acknowledges a finished human task |
| `TaskEffects.TransitionsAre` | daemon/src/api/task-queue.ts:173-181 | The table of status changes, by name |
| `TaskEffects.WordsMean` | daemon/src/core/task-state-machine.ts:67-76 | A status word means the status of its name, and two words in any case are aliases |
| `TaskEffects.RetryDoes` | daemon/src/api/task-queue.ts:588-624 | Code and columns of a retry |
| `TaskEffects.CancelDoes` | daemon/src/api/task-queue.ts:627-673 | Code and columns of a cancel |
| `TaskEffects.SubmitDoes` | daemon/src/api/task-queue.ts:676-741 | Codes and columns of a submission |
| `TaskEffects.DecisionDoes` | daemon/src/api/task-queue.ts:744-865 | Codes and columns of an approval and a rejection |
| `TaskQueue.Tasks.FillUpdates` | daemon/src/api/task-queue.ts:900-1079 | The updates record, filled branch by branch, or the code of the first check that refuses |
| `TaskQueue.Tasks.PutTask` | daemon/src/api/task-queue.ts:895-1093 | Decides on the row that was read and writes the row that is there |
| `TaskQueue.Tasks.RetryTask` | daemon/src/api/task-queue.ts:588-624 | Only failed tasks; clears assignee, error, result and completion time and counts the retry |
| `TaskQueue.Tasks.CancelTask` | daemon/src/api/task-queue.ts:627-673 | Only unfinished tasks; sets the completion time |
| `TaskQueue.Tasks.SubmitPlanFor` | daemon/src/api/task-queue.ts:688-713 | A non-empty plan is recorded and the row that is there waits for approval |
| `TaskQueue.Tasks.Approve` | daemon/src/api/task-queue.ts:744-798 | Only a submitted plan of a task awaiting approval; the task goes on |
| `TaskQueue.Tasks.Reject` | daemon/src/api/task-queue.ts:818-865 | The row that is there is rejected and goes on |
| `SchedulerSafety.ExecutionsAreSpaced` | daemon/src/automation/scheduler.ts:385-493 | On every run two executions of a task never overlap, and an interval task starts at least its period after the previous execution ended |
| `SchedulerSafety.SleepersStayDown` | daemon/src/automation/scheduler.ts:261-290 | No run without sleep and wake calls starts a sleeping task before its wake time |
| `SchedulerEffects.TickRunsExactlyWhen` | daemon/src/automation/scheduler.ts:415-439 | A tick runs a task exactly when it is enabled, due, awake and not running, the agent is idle if it must be, and a session is there if needed |
| `SchedulerEffects.RunsAgain` | daemon/src/automation/scheduler.ts:415-493 | An interval task that may run does run at the first tick a period after its last run ended |
| `SchedulerEffects.EndDoes` | daemon/src/automation/scheduler.ts:482-493 | The end of a run closes it, and makes the task due as its schedule says |
| `SchedulerEffects.ReloadDoes` | daemon/src/automation/scheduler.ts:224-248 | What a reload leaves of a name, running or not |
| `SchedulerEffects.AddDoes` | daemon/src/automation/scheduler.ts:200-207 | A new name gets a task as configured, one that is there is left alone |
| `SchedulerEffects.StartDoes` | daemon/src/automation/scheduler.ts:100-115 | Starting schedules every enabled task and no other |
| `SchedulerEffects.SleepDoes` | daemon/src/automation/scheduler.ts:261-290 | What sleeping, waking and asking do to the wake time |
| `SchedulerSafety.TriggerOverlapsExactlyWhenRunning` | daemon/src/automation/scheduler.ts:145-150 | A manual trigger keeps executions apart exactly when the task is idle or is skipped for want of a session |
| `SchedulerSafety.RemovalIsSafeExactlyWhenIdle` | daemon/src/automation/scheduler.ts:215-248 | Removing a task, by reload or removeTask, lets no later executions of its name overlap, on any run, exactly when the task is not running |
| `SchedulerSafety.AfterKeeps` | daemon/src/automation/scheduler.ts:224-493 | Each operation keeps the spacing invariant of a name |
| `Scheduler.SchedulerObject.TickAll` | daemon/src/automation/scheduler.ts:415-439 | One tick treats every task as its own slot demands, in any order |
| `Scheduler.SchedulerObject.TickTask` | daemon/src/automation/scheduler.ts:415-439 | A due task that is awake and may run is run; an expired sleep is cleared; no other name changes |
| `Scheduler.SchedulerObject.RunTask` | daemon/src/automation/scheduler.ts:441-466 | A run without its session ends at once; any other is marked running |
| `Scheduler.SchedulerObject.EndRun` | daemon/src/automation/scheduler.ts:461-493 | What an execution threw becomes a failure; either way last and next run are set and the flag is cleared |
| `Scheduler.SchedulerObject.RemoveTask` | daemon/src/automation/scheduler.ts:215-218 | The name is forgotten, whether or not it runs |
| `Scheduler.SchedulerObject.ReloadAll` | daemon/src/automation/scheduler.ts:224-248 | Tasks missing from the configuration go, running ones are updated in place, the others are replaced |
| `Scheduler.SchedulerObject.SleepTask` | daemon/src/automation/scheduler.ts:261-267 | Only a known task sleeps, until the time returned |
| `Scheduler.SchedulerObject.GetTaskSleep` | daemon/src/automation/scheduler.ts:281-290 | Asking drops an expired sleep and otherwise reports it |
| `TimerInterleaving.PresentRunsAgree` | daemon/src/api/timer.ts:92-432 | On every interleaved run of requests, arriving snooze bodies, timeouts, nag ticks and restarts in which each body finds its timer in memory: memory and database agree, the nag interval is live exactly when fired, the timeout exactly when pending or snoozed, active rows have entries |
| `TimerInterleaving.LateSnoozeAgreesExactlyWhenPresent` | daemon/src/api/timer.ts:405-432 | A snooze whose body arrives late keeps agreement exactly when the timer was not removed from memory meanwhile |
| `TimerInterleaving.LateSnoozeIsTimelyExactlyWhenFired` | daemon/src/api/timer.ts:405-432 | It is the snooze that would be made now, whatever its delay, exactly when the timer is still fired |
| `TimerInterleaving.LateSnoozeRevives` | daemon/src/api/timer.ts:417-426 | Whatever became of the timer, a late snooze makes its row snoozed; a finished one keeps its completion time |
| `TimerInterleaving.FinishedRowsStay` | daemon/src/api/timer.ts:356-432 | What each step does to a finished row: a late snooze revives it, deleting a timer still in memory marks it cancelled, nothing else changes it |
| `TimerInterleaving.TimelyRunsAreUninterrupted` | daemon/src/api/timer.ts:405-432 | If each body finds its timer still fired, the interleaved run is a run of uninterrupted requests |
| `TimersSafety.MemoryAndDatabaseAgree` | daemon/src/api/timer.ts:92-432 | The same agreement on every run of uninterrupted requests, timeouts, nag ticks and restarts |
| `TimersSafety.RestartRebuilds` | daemon/src/api/timer.ts:205-254 | A restart brings every active entry back with its row's data and its timeout or nag interval, or expires it |
| `TimersSafety.ExpiresExactlyWhen` | daemon/src/api/timer.ts:125-168 | A fired timer left alone expires at the tick that reaches the maximum duration or is the third failure in a row, and at no other |
| `TimersSafety.TenMinutes` | daemon/src/api/timer.ts:40-45 | With the default settings it expires at the twentieth tick |
| `TimerEffects.CreateDoes` | daemon/src/api/timer.ts:290-326 | A new timer is pending, and its timeout due after its delay |
| `TimerEffects.FireDoes` | daemon/src/api/timer.ts:171-185 | A timer that goes off is fired at that time and nags from the end of its first injection on |
| `TimerEffects.AckDoes` | daemon/src/api/timer.ts:388-402 | Acknowledging ends exactly a fired timer, as acknowledged, now |
| `TimerEffects.SnoozeDoes` | daemon/src/api/timer.ts:405-432 | Snoozing stops the nagging of a fired timer and makes its timeout due after the delay |
| `TimerEffects.NagDoes` | daemon/src/api/timer.ts:125-168 | A nag tick counts failures in a row, and expires the timer at the third or at the maximum duration, now |
| `TimerEffects.DeleteDoes` | daemon/src/api/timer.ts:356-385 | Deleting cancels a timer in memory and forgets it, or cancels an active row |
| `TimerEffects.CancelSessionDoes` | daemon/src/api/timer.ts:265-278 | Cancelling a session cancels its active timers in memory, now, and no others |
| `TimerEffects.Life` | daemon/src/api/timer.ts:171-432 | A timer that is set, fired, snoozed, fired again and acknowledged |
| `TimersSafety.FinishedRowsStay` | daemon/src/api/timer.ts:356-385 | Under uninterrupted requests a finished row stays, except that deleting a finished timer still in memory marks it cancelled |
| `TimersSafety.AfterKeeps` | daemon/src/api/timer.ts:92-432 | Each operation keeps agreement |
| `Timers.TimerService.InitTimers` | daemon/src/api/timer.ts:205-254 | The loop reloads every active row and no other |
| `Timers.TimerService.CancelSessionTimers` | daemon/src/api/timer.ts:265-278 | The loop cancels exactly the active timers of the session and returns their number |
| `Timers.TimerService.FireTimer` | daemon/src/api/timer.ts:171-185 | Firing marks the row, and starts the nag cycle when the first injection has ended, whether it failed or not |
| `Timers.TimerService.OnNag` | daemon/src/api/timer.ts:125-168 | One nag tick: stop if no longer fired, expire at the maximum or the third failure, else count |
| `Timers.TimerService.SnoozeTimer` | daemon/src/api/timer.ts:416-431 | After the wait the object that was read is snoozed and its row written; the entry in memory changes only if it is still there |
| `Timers.TimerService.DeleteTimer` | daemon/src/api/timer.ts:356-385 | Cancels and forgets an entry, or cancels an active row without one |
| `DeepMerge.MergeAbsorbs` | daemon/src/core/config.ts:276-297 | Merging the same source twice is merging it once, for all nested values |
| `DeepMerge.LookupMerge` | daemon/src/core/config.ts:276-297 | The merged value at any path: nothing below a plain source value, else the merge of both sides there |
| `DeepMerge.LastLayerWins` | daemon/src/core/config.ts:345-362 | At any depth a setting comes from the last of defaults, defaults file and configuration that has it |
| `DeepMerge.Merge` | daemon/src/core/config.ts:276-297 | The key loop on a copy computes the merge |
| `DeepMerge.MergeWithDefaults` | daemon/src/core/config.ts:345-362 | The layers are merged in order, the file only if there is one |
| `SyncClaude.SyncAbsorbsExactlyWhen` | daemon/src/api/sync-claude.ts:95-145 | Syncing twice equals syncing once exactly when every source hook entry carries a command |
| `SyncClaude.ListsGrow` | daemon/src/api/sync-claude.ts:95-145 | After n further syncs an event holds n further copies of its commandless source entries behind the source's list |
| `SyncClaude.MergeKeepsBothSides` | daemon/src/api/sync-claude.ts:82-145 | Source keys win, destination keys stay, source entries come first, destination entries sharing no command are kept |
| `SyncClaude.MergeEntriesTwice` | daemon/src/api/sync-claude.ts:110-140 | A second merge inserts the commandless source entries once more and nothing else |
| `SyncClaude.HooksCommandsExactly` | daemon/src/api/sync-claude.ts:69-80 | The commands of an entry are the texts at "command" in the objects of its "hooks" array |
| `SyncClaude.ExtraIsFilter` | daemon/src/api/sync-claude.ts:125-137 | Kept destination entries are in their order |
| `SyncClaude.ExtraCounts` | daemon/src/api/sync-claude.ts:125-137 | Exactly the destination entries that share no command are kept, as often as they are there |
| `SyncClaude.Merge` | daemon/src/api/sync-claude.ts:95-145 | The loop over all events computes the merge |
| `SyncClaude.MergeEvent` | daemon/src/api/sync-claude.ts:117-139 | The two loops of one event collect the source commands and keep the destination entries without overlap |
| `SyncClaude.CollectCommands` | daemon/src/api/sync-claude.ts:69-80 | The loop collects the text commands of an entry's hooks array |

## Left out

- Worker allocator: listeners that call back into the allocator, the credential guard on results, changing the limit at run time, cleanup of orphans, the recovery module and PUT of agent status. Persistent agents contribute a constant to the running count. Of SQLite errors only a start that throws between its two row updates is modelled.
- Approval gate: previews, card contents, the time to a decision and redaction; of database errors only a failing insert of the first row. SHA-256, the JSON form of a list and Unicode lower-casing are arbitrary functions.
- Router: conversation persistence, verbosity (part of the rendering function), unregistering an adapter, and the result record beyond whether a send was attempted.
- Injection: the pauses between keystrokes, how the time stamp is formatted, loading the paste buffer as a call of its own, and the test-runner guard. A promise chain is modelled by the settling of its links, not by the microtask queue.
- Windowed limits: clocks that go backwards, two limiters that share one key, and the classification of senders into tiers, of which only the resulting limit counts.
- Message router: delivery, task completion by result messages and relay to peers, which all follow the insertion.
- Tasks: validation of titles and priorities, creation beyond the row it inserts, workers assigned to a task, activity rows, notifications, and the credential guard. Work notes, outcome fields and the two feedback fields are one flag each, since only their presence decides; a rejection reason is the text after trimming and defaulting. Complexity, retro and canonical-task fields of a PUT. Tasks that are deleted (by another module) while a handler waits.
- Other writers of a task's status: `daemon/src/automation/tasks/orchestrator-idle.ts`, `daemon/src/automation/tasks/context-watchdog.ts`, `daemon/src/automation/tasks/orch-stale-task-recovery.ts`, `daemon/src/core/orphan-cleanup.ts`, `daemon/src/api/unified-tasks.ts`, `daemon/src/api/state.ts`, `daemon/src/agents/message-router.ts` and `daemon/src/api/orchestrator.ts`. The rules of a task are not claimed across them; the last one, at line 242, fails a task without a completion time.
- `Scheduler.SchedulerObject.EndRun`: does not cover the end of a run whose task was removed meanwhile, because it then writes only an object nobody reads.
- Scheduler: cron expressions (the next occurrence is a parameter), catch-up after downtime, handlers that change the scheduler, task results, and a change of the interval of a name.
- Timers: normalisation of agent names, parsing of delays, and whatever happens while an injection is awaited, which is one atomic step.
- Merges: the order of properties, hook values that are not arrays of objects (which the source would partly throw on), validation of the configuration, reading files, and counting synced files.
- HTTP parsing, authentication, logging, SQL text, migrations, tmux, git and the agent SDK themselves.
