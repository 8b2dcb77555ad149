/** Theorems about whole runs of the worker allocator. */
module WorkerPoolRuns {
  import opened Wrappers
  import opened Sequences
  import opened WorkerPool
  import opened WorkerPoolSafety

  /** A step together with how every start attempted during it ends. */
  datatype Event = Event(step: Step, outcomes: JobId -> StartOutcome)

  ghost predicate LegalRun(s: State, events: seq<Event>)
    decreases |events|
  {
    events == [] ||
    (Legal(s, events[0].step) && LegalRun(Next(s, events[0].step, events[0].outcomes), events[1..]))
  }

  ghost function Final(s: State, events: seq<Event>): State
    decreases |events|
  {
    if events == [] then s else Final(Next(s, events[0].step, events[0].outcomes), events[1..])
  }

  lemma {:induction false} RunKeeps(s: State, events: seq<Event>)
    requires Invariant(s) && LegalRun(s, events)
    ensures Invariant(Final(s, events))
    decreases |events|
  {
    if events != [] {
      NextKeeps(s, events[0].step, events[0].outcomes);
      RunKeeps(Next(s, events[0].step, events[0].outcomes), events[1..]);
    }
  }

  lemma InitialInvariant(max: int, persistent: nat)
    ensures Invariant(Initial(max, persistent))
  {
    var s := Initial(max, persistent);
    assert RunningWorkers(s.agents) == {};
    assert forall id :: Agrees(s, {}, {}, id);
  }

  /** The queue lists exactly the jobs with a deferred request, which are exactly the
      queued rows; the timers belong to exactly the running rows; agent rows follow
      job rows. */
  lemma IndexesAgree(max: int, persistent: nat, events: seq<Event>)
    requires LegalRun(Initial(max, persistent), events)
    ensures var s := Final(Initial(max, persistent), events);
            && NoDuplicates(s.queue)
            && (set id | id in s.queue) == s.requests.Keys
            && s.requests.Keys == (set id | id in s.jobs && s.jobs[id].status.Queued?)
            && s.timers == (set id | id in s.jobs && s.jobs[id].status.Running?)
            && s.agents.Keys == s.jobs.Keys
            && forall id :: id in s.jobs ==> s.agents[id] == AgentFor(s.jobs[id].status)
  {
    InitialInvariant(max, persistent);
    RunKeeps(Initial(max, persistent), events);
    var s := Final(Initial(max, persistent), events);
    QueueFacts(s);
    forall id
      ensures id in s.queue <==> id in s.requests
      ensures id in s.requests <==> id in s.jobs && s.jobs[id].status.Queued?
      ensures id in s.timers <==> id in s.jobs && s.jobs[id].status.Running?
      ensures id in s.agents <==> id in s.jobs
      ensures id in s.jobs ==> s.agents[id] == AgentFor(s.jobs[id].status)
    {
      assert Agrees(s, {}, {}, id);
    }
  }

  /** No slot idles while a job waits, and workers never exceed the limit. */
  lemma ConservesWorkWithinCapacity(max: int, persistent: nat, events: seq<Event>)
    requires LegalRun(Initial(max, persistent), events)
    ensures var s := Final(Initial(max, persistent), events);
            && (s.queue != [] ==> RunningCount(s) >= s.max)
            && (RunningWorkers(s.agents) != {} ==> RunningCount(s) <= s.max)
  {
    InitialInvariant(max, persistent);
    RunKeeps(Initial(max, persistent), events);
  }

  /** Jobs reach the start function in the order in which they were spawned, each at
      most once. */
  lemma NoOvertaking(max: int, persistent: nat, events: seq<Event>, i: nat, j: nat) returns (p: nat, q: nat)
    requires LegalRun(Initial(max, persistent), events)
    requires i < j < |Final(Initial(max, persistent), events).started|
    ensures var s := Final(Initial(max, persistent), events);
            && NoDuplicates(s.spawned) && s.started[i] != s.started[j]
            && p < q < |s.spawned| && s.spawned[p] == s.started[i] && s.spawned[q] == s.started[j]
  {
    InitialInvariant(max, persistent);
    RunKeeps(Initial(max, persistent), events);
    var s := Final(Initial(max, persistent), events);
    QueueFacts(s);
    SubsequencePrefix(s.started, s.queue, s.spawned);
    p, q := SubsequenceOrder(s.started, s.spawned, i, j);
  }

  /** A fresh spawn starts nothing while another job waits: it goes to the end. */
  lemma FreshSpawnWaits(s: State, id: JobId, req: Request, outcomes: JobId -> StartOutcome)
    requires Invariant(s) && Legal(s, SpawnStep(id, req)) && s.queue != []
    ensures var s' := AfterSpawn(s, id, req, outcomes);
            s'.queue == s.queue + [id] && s'.started == s.started && IsStatus(s', id, Queued)
  {
    SpawnRows(s, id);
  }

  // ---- Exactly-once completion ----

  ghost predicate Done(s: State, id: JobId) {
    id in s.jobs && s.jobs[id].Terminal()
  }

  /** From `s` to `t`: a finished job keeps its row and is not announced again, and a
      job that finishes is announced once to each listener, with its final row. */
  ghost predicate Settles(s: State, t: State, id: JobId) {
    && t.listeners == s.listeners
    && (Done(s, id) ==> Done(t, id) && t.jobs[id] == s.jobs[id])
    && CallsOf(t.calls, id) == CallsOf(s.calls, id) +
         (if Done(t, id) && !Done(s, id) then CallsOnFinish(s.listeners, id, t.jobs[id]) else [])
  }

  lemma FinishSettles(s: State, id: JobId, row: Job, other: JobId)
    requires row.Terminal()
    ensures Settles(s, FinishRows(s, id, row), other)
    ensures id in s.jobs ==> Done(FinishRows(s, id, row), id)
  {
    CallsOfAppend(s.calls, CallsOnFinish(s.listeners, id, row), other);
    CallsOfFinish(s.listeners, id, row, other);
  }

  lemma StartSettles(s: State, id: JobId, outcome: StartOutcome, other: JobId)
    requires id in s.jobs && !s.jobs[id].Terminal()
    ensures Settles(s, Start(s, id, outcome), other)
    ensures Settles(s, StartOrFail(s, id, outcome), other)
  {
    FinishSettles(Start(s, id, outcome), id, SpawnFailure(outcome.Error()), other);
  }

  lemma {:induction false} DrainSettles(s: State, outcomes: JobId -> StartOutcome, other: JobId)
    ensures Settles(s, AfterDrain(s, outcomes), other)
    decreases |s.queue|
  {
    if s.queue != [] && RunningCount(s) < s.max {
      var id := s.queue[0];
      var s1 := s.(queue := s.queue[1..]);
      if id in s1.jobs && s1.jobs[id].status.Queued? && id in s1.requests {
        StartSettles(s1.(requests := s1.requests - {id}), id, outcomes(id), other);
      }
      DequeueQueue(s, outcomes);
      DrainSettles(Dequeue(s, outcomes), outcomes, other);
    }
  }

  lemma FinishJobSettles(s: State, id: JobId, row: Job, outcomes: JobId -> StartOutcome, other: JobId)
    requires row.Terminal()
    ensures Settles(s, AfterFinish(s, id, row, outcomes), other)
    ensures Settles(FinishRows(s, id, row), AfterFinish(s, id, row, outcomes), other)
    ensures id in s.jobs ==> Done(AfterFinish(s, id, row, outcomes), id)
    ensures id in s.jobs && !Done(s, id) ==> AfterFinish(s, id, row, outcomes).jobs[id] == row
  {
    FinishSettles(s, id, row, other);
    FinishSettles(s, id, row, id);
    DrainSettles(FinishRows(s, id, row), outcomes, other);
    DrainSettles(FinishRows(s, id, row), outcomes, id);
  }

  lemma SettlesTwice(s: State, t: State, u: State, id: JobId)
    requires Settles(s, t, id) && Settles(t, u, id)
    ensures Settles(s, u, id)
  {
  }

  lemma InsertSettles(s: State, id: JobId, other: JobId)
    requires id !in s.jobs
    ensures Settles(s, WithRows(s, id), other)
  {
  }

  lemma SpawnSettles(s: State, id: JobId, req: Request, outcomes: JobId -> StartOutcome, other: JobId)
    requires Legal(s, SpawnStep(id, req))
    ensures Settles(s, AfterSpawn(s, id, req, outcomes), other)
  {
    var s1, t := WithRows(s, id), AfterSpawn(s, id, req, outcomes);
    InsertSettles(s, id, other);
    if RunningCount(s1) < s1.max {
      var s2 := Start(s1, id, outcomes(id));
      StartSettles(s1, id, outcomes(id), other);
      SettlesTwice(s, s1, s2, other);
      if !outcomes(id).Starts? {
        FinishJobSettles(s2, id, SpawnFailure(outcomes(id).Error()), outcomes, other);
        SettlesTwice(s, s2, t, other);
      }
    }
  }

  lemma KillSettles(s: State, id: JobId, outcomes: JobId -> StartOutcome, other: JobId)
    ensures Settles(s, AfterKill(s, id, outcomes).0, other)
  {
    var i := IndexOf(s.queue, id);
    if i < |s.queue| {
      var s1 := s.(queue := s.queue[..i] + s.queue[i + 1..], requests := s.requests - {id});
      FinishJobSettles(s1, id, Job(Failed, None, Some("Killed while queued")), outcomes, other);
    } else {
      FinishJobSettles(s, id, Job(Failed, None, Some("Killed by user")), outcomes, other);
    }
  }

  /** One step: whatever races with whatever, a finished job stays finished with its
      first result, and its listeners are called in the step that finished it. */
  lemma NextSettles(s: State, step: Step, outcomes: JobId -> StartOutcome, other: JobId)
    requires Legal(s, step)
    ensures step.ListenStep? || Settles(s, Next(s, step, outcomes), other)
    ensures step.ListenStep? ==> Next(s, step, outcomes) == s.(listeners := step.listeners)
  {
    match step
    case SpawnStep(id, req) => SpawnSettles(s, id, req, outcomes, other);
    case TickStep(id, report) =>
      if !report.StillRunning? {
        var row := if report.Gone? then Job(Failed, None, Some("Worker disappeared from SDK tracking"))
                   else Job(report.status, report.result, report.error);
        FinishJobSettles(s, id, row, outcomes, other);
      }
    case KillStep(id) => KillSettles(s, id, outcomes, other);
    case ListenStep(_) =>
  }

  /** A finished job's row and its listener calls never change again, on any run. */
  lemma {:induction false} FinishedForever(s: State, events: seq<Event>, id: JobId)
    requires LegalRun(s, events) && Done(s, id)
    ensures var t := Final(s, events);
            Done(t, id) && t.jobs[id] == s.jobs[id] && CallsOf(t.calls, id) == CallsOf(s.calls, id)
    decreases |events|
  {
    if events != [] {
      NextSettles(s, events[0].step, events[0].outcomes, id);
      FinishedForever(Next(s, events[0].step, events[0].outcomes), events[1..], id);
    }
  }

  /** In a step that finishes a job, each listener hears of it once, with the row that
      stays; before that step nobody heard of it. */
  lemma AnnouncedOnce(s: State, step: Step, outcomes: JobId -> StartOutcome, id: JobId)
    requires Invariant(s) && Legal(s, step) && !Done(s, id) && Done(Next(s, step, outcomes), id)
    ensures var t := Next(s, step, outcomes);
            CallsOf(s.calls, id) == [] && CallsOf(t.calls, id) == CallsOnFinish(s.listeners, id, t.jobs[id])
  {
    assert Agrees(s, {}, {}, id);
    NextSettles(s, step, outcomes, id);
  }

  /** killJob tells its caller the truth: it kills exactly the unfinished jobs, and a
      killed job is finished as failed when it returns. */
  lemma KillIsEffective(s: State, id: JobId, outcomes: JobId -> StartOutcome)
    requires Invariant(s)
    ensures var (t, killed) := AfterKill(s, id, outcomes);
            && (killed <==> id in s.jobs && !s.jobs[id].Terminal())
            && (killed ==> IsStatus(t, id, Failed) && t.jobs[id].result == None)
            && (!killed ==> t == s)
  {
    assert Agrees(s, {}, {}, id);
    var i := IndexOf(s.queue, id);
    if i < |s.queue| {
      assert id in s.queue;
      var s1 := s.(queue := s.queue[..i] + s.queue[i + 1..], requests := s.requests - {id});
      FinishJobSettles(s1, id, Job(Failed, None, Some("Killed while queued")), outcomes, id);
    } else {
      assert id !in s.queue;
      FinishJobSettles(s, id, Job(Failed, None, Some("Killed by user")), outcomes, id);
    }
  }

  // ---- A writer outside the allocator ----

  /** Cancelling a task marks the job rows of its workers failed behind the allocator's
      back (daemon/src/api/task-queue.ts). */
  function Cancelled(row: Job): Job {
    if row.status.Queued? || row.status.Running? then row.(status := Failed, error := Some("parent task cancelled"))
    else row
  }

  function TaskCancel(s: State, workers: set<JobId>): State {
    s.(jobs := map id | id in s.jobs :: if id in workers then Cancelled(s.jobs[id]) else s.jobs[id])
  }

  /** The order in which the workers are visited does not matter. */
  lemma TaskCancelOneByOne(s: State, workers: set<JobId>, id: JobId)
    ensures TaskCancel(s, {}) == s
    ensures TaskCancel(TaskCancel(s, workers), {id}) == TaskCancel(s, workers + {id})
  {
    assert TaskCancel(s, {}).jobs == s.jobs;
    assert TaskCancel(TaskCancel(s, workers), {id}).jobs == TaskCancel(s, workers + {id}).jobs;
  }

  ghost predicate Unfinished(s: State, id: JobId) {
    IsStatus(s, id, Queued) || IsStatus(s, id, Running)
  }

  lemma CancelledDisagrees(s: State, workers: set<JobId>, id: JobId)
    requires Agrees(s, {}, {}, id) && Unfinished(s, id) && id in workers
    ensures !Agrees(TaskCancel(s, workers), {}, {}, id)
  {
  }

  /** A task cancel is harmless to the allocator exactly when none of the workers was
      queued or running: a queued one stays in the queue with its request, a running one
      keeps its timer and its agent row. */
  lemma TaskCancelIsHarmlessExactlyWhenFinished(s: State, workers: set<JobId>)
    requires Invariant(s)
    ensures Invariant(TaskCancel(s, workers)) <==> forall id :: id in workers ==> !Unfinished(s, id)
    ensures var t := TaskCancel(s, workers);
            forall id :: id in workers && IsStatus(s, id, Queued) ==> id in t.queue && id in t.requests
  {
    if id :| id in workers && Unfinished(s, id) {
      assert Agrees(s, {}, {}, id);
      CancelledDisagrees(s, workers, id);
    } else {
      assert TaskCancel(s, workers).jobs == s.jobs;
    }
    forall id | id in workers && IsStatus(s, id, Queued) ensures id in s.queue && id in s.requests {
      assert Agrees(s, {}, {}, id);
    }
  }

  // ---- Leaked slots ----

  /** The job is finished but its agent row still occupies a slot. */
  ghost predicate Leaked(s: State, id: JobId) {
    Done(s, id) && id in s.agents && s.agents[id].AgentRunning?
  }

  ghost predicate AllLeaked(s: State, ids: set<JobId>) {
    forall id :: id in ids ==> Leaked(s, id)
  }

  /** The leaked slots are all there are for workers. */
  ghost predicate Starved(s: State, ids: set<JobId>) {
    AllLeaked(s, ids) && s.max <= s.persistent + |ids|
  }

  lemma SubsetSize<T>(a: set<T>, b: set<T>)
    requires a <= b
    ensures |a| <= |b|
  {
    assert b == a + (b - a);
  }

  lemma LeaksOccupy(s: State, ids: set<JobId>)
    requires AllLeaked(s, ids)
    ensures RunningCount(s) >= s.persistent + |ids|
  {
    SubsetSize(ids, RunningWorkers(s.agents));
  }

  lemma StartOrFailLeak(s: State, id: JobId, outcome: StartOutcome, ids: set<JobId>)
    requires AllLeaked(s, ids) && id in s.jobs && !s.jobs[id].Terminal()
    ensures AllLeaked(Start(s, id, outcome), ids) && AllLeaked(StartOrFail(s, id, outcome), ids)
  {
  }

  lemma DequeueLeak(s: State, outcomes: JobId -> StartOutcome, ids: set<JobId>)
    requires AllLeaked(s, ids) && s.queue != []
    ensures AllLeaked(Dequeue(s, outcomes), ids)
  {
    var id := s.queue[0];
    var s1 := s.(queue := s.queue[1..]);
    if id in s1.jobs && s1.jobs[id].status.Queued? && id in s1.requests {
      StartOrFailLeak(s1.(requests := s1.requests - {id}), id, outcomes(id), ids);
    }
  }

  lemma {:induction false} DrainLeak(s: State, outcomes: JobId -> StartOutcome, ids: set<JobId>)
    requires AllLeaked(s, ids)
    ensures AllLeaked(AfterDrain(s, outcomes), ids)
    ensures Starved(s, ids) ==> AfterDrain(s, outcomes) == s
    decreases |s.queue|
  {
    LeaksOccupy(s, ids);
    if s.queue != [] && RunningCount(s) < s.max {
      DequeueQueue(s, outcomes);
      DequeueLeak(s, outcomes, ids);
      DrainLeak(Dequeue(s, outcomes), outcomes, ids);
    }
  }

  lemma FinishRowsLeak(s: State, id: JobId, row: Job, ids: set<JobId>)
    requires AllLeaked(s, ids)
    ensures AllLeaked(FinishRows(s, id, row), ids)
  {
  }

  lemma FinishLeak(s: State, id: JobId, row: Job, outcomes: JobId -> StartOutcome, ids: set<JobId>)
    requires AllLeaked(s, ids)
    ensures AllLeaked(AfterFinish(s, id, row, outcomes), ids)
    ensures Starved(s, ids) ==> AfterFinish(s, id, row, outcomes) == FinishRows(s, id, row)
  {
    FinishRowsLeak(s, id, row, ids);
    DrainLeak(FinishRows(s, id, row), outcomes, ids);
  }

  /** The leaks last, and if they are all there is, nothing starts. */
  ghost predicate LeaksLast(s: State, t: State, ids: set<JobId>) {
    && AllLeaked(t, ids)
    && t.max == s.max && t.persistent == s.persistent
    && (Starved(s, ids) ==> t.started == s.started)
  }

  lemma SpawnLeak(s: State, id: JobId, req: Request, outcomes: JobId -> StartOutcome, ids: set<JobId>)
    requires AllLeaked(s, ids) && Legal(s, SpawnStep(id, req))
    ensures LeaksLast(s, AfterSpawn(s, id, req, outcomes), ids)
  {
    var s1 := WithRows(s, id);
    assert AllLeaked(s1, ids);
    LeaksOccupy(s1, ids);
    StartOrFailLeak(s1, id, outcomes(id), ids);
    LimitsStay(Start(s1, id, outcomes(id)), id, SpawnFailure(outcomes(id).Error()), outcomes);
    FinishLeak(Start(s1, id, outcomes(id)), id, SpawnFailure(outcomes(id).Error()), outcomes, ids);
  }

  lemma {:induction false} LimitsStayOnDrain(s: State, outcomes: JobId -> StartOutcome)
    ensures AfterDrain(s, outcomes).max == s.max && AfterDrain(s, outcomes).persistent == s.persistent
    decreases |s.queue|
  {
    if s.queue != [] && RunningCount(s) < s.max {
      DequeueQueue(s, outcomes);
      LimitsStayOnDrain(Dequeue(s, outcomes), outcomes);
    }
  }

  lemma LimitsStay(s: State, id: JobId, row: Job, outcomes: JobId -> StartOutcome)
    ensures AfterFinish(s, id, row, outcomes).max == s.max
    ensures AfterFinish(s, id, row, outcomes).persistent == s.persistent
  {
    LimitsStayOnDrain(FinishRows(s, id, row), outcomes);
  }

  lemma FinishJobLeak(s: State, id: JobId, row: Job, outcomes: JobId -> StartOutcome, ids: set<JobId>)
    requires AllLeaked(s, ids)
    ensures LeaksLast(s, AfterFinish(s, id, row, outcomes), ids)
  {
    LimitsStay(s, id, row, outcomes);
    FinishLeak(s, id, row, outcomes, ids);
  }

  lemma KillLeak(s: State, id: JobId, outcomes: JobId -> StartOutcome, ids: set<JobId>)
    requires AllLeaked(s, ids)
    ensures LeaksLast(s, AfterKill(s, id, outcomes).0, ids)
  {
    if id in s.agents {
      var i := IndexOf(s.queue, id);
      if i < |s.queue| {
        var s1 := s.(queue := s.queue[..i] + s.queue[i + 1..], requests := s.requests - {id});
        assert AllLeaked(s1, ids);
        FinishJobLeak(s1, id, Job(Failed, None, Some("Killed while queued")), outcomes, ids);
      } else {
        FinishJobLeak(s, id, Job(Failed, None, Some("Killed by user")), outcomes, ids);
      }
    }
  }

  lemma TickLeak(s: State, id: JobId, report: SdkReport, outcomes: JobId -> StartOutcome, ids: set<JobId>)
    requires AllLeaked(s, ids)
    ensures LeaksLast(s, AfterTick(s, id, report, outcomes), ids)
  {
    if id in s.timers && !report.StillRunning? {
      var row := if report.Gone? then Job(Failed, None, Some("Worker disappeared from SDK tracking"))
                 else Job(report.status, report.result, report.error);
      FinishJobLeak(s, id, row, outcomes, ids);
    }
  }

  lemma NextLeak(s: State, step: Step, outcomes: JobId -> StartOutcome, ids: set<JobId>)
    requires AllLeaked(s, ids) && Legal(s, step)
    ensures LeaksLast(s, Next(s, step, outcomes), ids)
  {
    match step
    case SpawnStep(id, req) => SpawnLeak(s, id, req, outcomes, ids);
    case TickStep(id, report) => TickLeak(s, id, report, outcomes, ids);
    case KillStep(id) => KillLeak(s, id, outcomes, ids);
    case ListenStep(_) =>
  }

  lemma {:induction false} LeaksStay(s: State, ids: set<JobId>, events: seq<Event>)
    requires AllLeaked(s, ids) && LegalRun(s, events)
    ensures LeaksLast(s, Final(s, events), ids)
    decreases |events|
  {
    if events != [] {
      NextLeak(s, events[0].step, events[0].outcomes, ids);
      LeaksStay(Next(s, events[0].step, events[0].outcomes), ids, events[1..]);
    }
  }

  // ---- A finished job that holds no slot ----

  /** Finished, and without a slot. */
  ghost predicate Released(s: State, id: JobId) {
    Done(s, id) && id in s.agents && !s.agents[id].AgentRunning?
  }

  lemma StartOrFailReleased(s: State, id: JobId, outcome: StartOutcome, done: JobId)
    requires Released(s, done) && id in s.jobs && !s.jobs[id].Terminal()
    ensures Released(Start(s, id, outcome), done) && Released(StartOrFail(s, id, outcome), done)
    ensures done in Start(s, id, outcome).started ==> done in s.started
    ensures done in StartOrFail(s, id, outcome).started ==> done in s.started
  {
    assert id != done;
  }

  lemma DequeueReleased(s: State, outcomes: JobId -> StartOutcome, done: JobId)
    requires Released(s, done) && s.queue != []
    ensures Released(Dequeue(s, outcomes), done)
    ensures done in Dequeue(s, outcomes).started ==> done in s.started
  {
    var id := s.queue[0];
    var s1 := s.(queue := s.queue[1..]);
    if id in s1.jobs && s1.jobs[id].status.Queued? && id in s1.requests {
      StartOrFailReleased(s1.(requests := s1.requests - {id}), id, outcomes(id), done);
    }
  }

  lemma {:induction false} DrainReleased(s: State, outcomes: JobId -> StartOutcome, done: JobId)
    requires Released(s, done)
    ensures Released(AfterDrain(s, outcomes), done)
    ensures done in AfterDrain(s, outcomes).started ==> done in s.started
    decreases |s.queue|
  {
    if s.queue != [] && RunningCount(s) < s.max {
      DequeueQueue(s, outcomes);
      DequeueReleased(s, outcomes, done);
      DrainReleased(Dequeue(s, outcomes), outcomes, done);
    }
  }

  lemma FinishReleased(s: State, id: JobId, row: Job, outcomes: JobId -> StartOutcome, done: JobId)
    requires Released(s, done)
    ensures Released(AfterFinish(s, id, row, outcomes), done)
    ensures done in AfterFinish(s, id, row, outcomes).started ==> done in s.started
  {
    DrainReleased(FinishRows(s, id, row), outcomes, done);
  }

  lemma SpawnReleased(s: State, id: JobId, req: Request, outcomes: JobId -> StartOutcome, done: JobId)
    requires Released(s, done) && Legal(s, SpawnStep(id, req))
    ensures Released(AfterSpawn(s, id, req, outcomes), done)
    ensures done in AfterSpawn(s, id, req, outcomes).started ==> done in s.started
  {
    var s1 := WithRows(s, id);
    StartOrFailReleased(s1, id, outcomes(id), done);
    FinishReleased(Start(s1, id, outcomes(id)), id, SpawnFailure(outcomes(id).Error()), outcomes, done);
  }

  lemma NextReleased(s: State, step: Step, outcomes: JobId -> StartOutcome, done: JobId)
    requires Released(s, done) && Legal(s, step)
    ensures Released(Next(s, step, outcomes), done)
    ensures done in Next(s, step, outcomes).started ==> done in s.started
  {
    match step
    case SpawnStep(id, req) => SpawnReleased(s, id, req, outcomes, done);
    case TickStep(id, report) =>
      if id in s.timers && !report.StillRunning? {
        var row := if report.Gone? then Job(Failed, None, Some("Worker disappeared from SDK tracking"))
                   else Job(report.status, report.result, report.error);
        FinishReleased(s, id, row, outcomes, done);
      }
    case KillStep(id) =>
      if id in s.agents {
        var i := IndexOf(s.queue, id);
        if i < |s.queue| {
          var s1 := s.(queue := s.queue[..i] + s.queue[i + 1..], requests := s.requests - {id});
          FinishReleased(s1, id, Job(Failed, None, Some("Killed while queued")), outcomes, done);
        } else {
          FinishReleased(s, id, Job(Failed, None, Some("Killed by user")), outcomes, done);
        }
      }
    case ListenStep(_) =>
  }

  /** A finished job without a slot gets none, on any run, and is not started again. */
  lemma {:induction false} ReleasedStays(s: State, id: JobId, events: seq<Event>)
    requires Released(s, id) && LegalRun(s, events)
    ensures Released(Final(s, events), id)
    ensures id in Final(s, events).started ==> id in s.started
    decreases |events|
  {
    if events != [] {
      NextReleased(s, events[0].step, events[0].outcomes, id);
      ReleasedStays(Next(s, events[0].step, events[0].outcomes), id, events[1..]);
    }
  }

  lemma QueuedIsNotStarted(s: State, id: JobId)
    requires Invariant(s) && IsStatus(s, id, Queued)
    ensures id !in s.started
  {
    assert Agrees(s, {}, {}, id);
    QueueFacts(s);
  }

  /** The workers whose slots a cancel leaks. */
  ghost function RunningAmong(s: State, workers: set<JobId>): set<JobId> {
    set id | id in workers && IsStatus(s, id, Running)
  }

  lemma RunningAmongLeak(s: State, workers: set<JobId>)
    requires Invariant(s)
    ensures AllLeaked(TaskCancel(s, workers), RunningAmong(s, workers))
  {
    forall id | id in RunningAmong(s, workers) ensures Leaked(TaskCancel(s, workers), id) {
      assert Agrees(s, {}, {}, id);
    }
  }

  /** One worker: its slot is occupied on every later run exactly when it was running, and
      a queued one is never started. */
  lemma CancelledWorker(s: State, workers: set<JobId>, id: JobId, events: seq<Event>)
    requires Invariant(s) && id in workers && id in s.jobs && LegalRun(TaskCancel(s, workers), events)
    ensures Leaked(Final(TaskCancel(s, workers), events), id) <==> IsStatus(s, id, Running)
    ensures IsStatus(s, id, Queued) ==> id !in Final(TaskCancel(s, workers), events).started
  {
    assert Agrees(s, {}, {}, id);
    if IsStatus(s, id, Running) {
      LeaksStay(TaskCancel(s, workers), {id}, events);
    } else {
      ReleasedStays(TaskCancel(s, workers), id, events);
      if IsStatus(s, id, Queued) {
        QueuedIsNotStarted(s, id);
      }
    }
  }

  /** After a task cancel, on every run of the allocator, exactly the slots of the workers
      that were running stay occupied: neither a last poll tick nor a kill touches those
      agent rows. The running count never falls below them, and if they are all the slots
      there are for workers, no job is ever started again. Queued workers hold no slot and
      are never started. */
  lemma TaskCancelLeaksExactlyWhenRunning(s: State, workers: set<JobId>, events: seq<Event>)
    requires Invariant(s) && LegalRun(TaskCancel(s, workers), events)
    ensures var t, leaked := Final(TaskCancel(s, workers), events), RunningAmong(s, workers);
            && (forall id :: id in workers && id in s.jobs ==> (Leaked(t, id) <==> id in leaked))
            && (forall id :: id in workers && IsStatus(s, id, Queued) ==> id !in t.started)
            && RunningCount(t) >= s.persistent + |leaked|
            && (s.max <= s.persistent + |leaked| ==> t.started == s.started)
  {
    var t, leaked := Final(TaskCancel(s, workers), events), RunningAmong(s, workers);
    forall id | id in workers && id in s.jobs
      ensures (Leaked(t, id) <==> id in leaked) && (IsStatus(s, id, Queued) ==> id !in t.started)
    {
      CancelledWorker(s, workers, id, events);
    }
    RunningAmongLeak(s, workers);
    LeaksStay(TaskCancel(s, workers), leaked, events);
    LeaksOccupy(t, leaked);
  }
}
