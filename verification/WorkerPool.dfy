/** The worker allocator: what one synchronous step of daemon/src/agents/lifecycle.ts
    does to the two tables, the overflow queue, the deferred requests, the poll
    timers and the job-complete listeners. */
module WorkerPool {
  import opened Wrappers

  /** A random UUID. */
  datatype JobId = JobId(uuid: string)
  type Listener = nat

  datatype JobStatus = Queued | Running | Completed | Failed | TimedOut
  datatype AgentStatus = AgentQueued | AgentRunning | AgentStopped

  datatype Job = Job(status: JobStatus, result: Option<string>, error: Option<string>)
  {
    predicate Terminal() {
      status.Completed? || status.Failed? || status.TimedOut?
    }
  }

  /** A deferred request; only its identity matters here. */
  datatype Request = Request(prompt: string)

  /** How a call of the start function ends. Creating the worktree or spawning the
      worker may throw before any row changes, and the second of the two row
      updates may throw after the first. */
  datatype StartOutcome = Starts | ThrowsEarly(message: string) | ThrowsAfterAgentRow(message: string)
  {
    function Error(): string {
      if Starts? then "" else message
    }
  }

  /** What the SDK adapter says about a worker at a poll tick. */
  datatype SdkReport =
    | Gone
    | StillRunning
    | Ended(status: JobStatus, result: Option<string>, error: Option<string>)
  {
    predicate Valid() {
      Ended? ==> status.Completed? || status.Failed? || status.TimedOut?
    }
  }

  datatype CallOutcome = Returned | Threw(message: string)

  datatype Call = Call(listener: Listener, job: JobId, row: Job)

  /** Module state, the worker rows of both tables, and three histories:
      jobs in the order their rows were inserted, jobs in the order they were
      passed to the start function, and listener calls. */
  datatype State = State(
    max: int, persistent: nat,
    agents: map<JobId, AgentStatus>, jobs: map<JobId, Job>,
    queue: seq<JobId>, requests: map<JobId, Request>, timers: set<JobId>,
    listeners: seq<Listener>,
    spawned: seq<JobId>, started: seq<JobId>, calls: seq<Call>)

  function Initial(max: int, persistent: nat): State {
    State(max, persistent, map[], map[], [], map[], {}, [], [], [], [])
  }

  function RunningWorkers(agents: map<JobId, AgentStatus>): set<JobId> {
    set id | id in agents && agents[id].AgentRunning?
  }

  /** Persistent agents count as running for as long as the daemon runs. */
  function RunningCount(s: State): nat {
    s.persistent + |RunningWorkers(s.agents)|
  }

  function CallsOnFinish(listeners: seq<Listener>, id: JobId, row: Job): seq<Call> {
    seq(|listeners|, i requires 0 <= i < |listeners| => Call(listeners[i], id, row))
  }

  /** finishJob without its final processQueue. */
  function FinishRows(s: State, id: JobId, row: Job): State {
    if id in s.jobs && s.jobs[id].Terminal() then s
    else
      var agents := if id in s.agents then s.agents[id := AgentStopped] else s.agents;
      if id in s.jobs then
        s.(agents := agents, jobs := s.jobs[id := row],
           calls := s.calls + CallsOnFinish(s.listeners, id, row))
      else
        s.(agents := agents)
  }

  function SpawnFailure(message: string): Job {
    Job(Failed, None, Some("Worker spawn failed: " + message))
  }

  /** startWorker, called for a job whose rows exist. */
  function Start(s: State, id: JobId, outcome: StartOutcome): State
    requires id in s.jobs
  {
    var s1 := s.(started := s.started + [id]);
    match outcome
    case ThrowsEarly(_) => s1
    case ThrowsAfterAgentRow(_) => s1.(agents := s1.agents[id := AgentRunning])
    case Starts =>
      s1.(agents := s1.agents[id := AgentRunning],
          jobs := s1.jobs[id := s1.jobs[id].(status := Running)],
          timers := s1.timers + {id})
  }

  function StartOrFail(s: State, id: JobId, outcome: StartOutcome): State
    requires id in s.jobs
  {
    var s1 := Start(s, id, outcome);
    if outcome.Starts? then s1 else FinishRows(s1, id, SpawnFailure(outcome.Error()))
  }

  /** One iteration of the loop in processQueue. */
  function Dequeue(s: State, outcomes: JobId -> StartOutcome): State
    requires s.queue != []
  {
    var id := s.queue[0];
    var s1 := s.(queue := s.queue[1..]);
    if id !in s1.jobs || !s1.jobs[id].status.Queued? then s1
    else if id !in s1.requests then s1
    else StartOrFail(s1.(requests := s1.requests - {id}), id, outcomes(id))
  }

  lemma DequeueQueue(s: State, outcomes: JobId -> StartOutcome)
    requires s.queue != []
    ensures Dequeue(s, outcomes).queue == s.queue[1..]
  {
  }

  /** processQueue, with the nested calls that the re-entrancy guard turns into
      no-ops left out. */
  function AfterDrain(s: State, outcomes: JobId -> StartOutcome): State
    decreases |s.queue|
  {
    if s.queue != [] && RunningCount(s) < s.max
    then DequeueQueue(s, outcomes); AfterDrain(Dequeue(s, outcomes), outcomes)
    else s
  }

  /** finishJob called from outside the queue loop. A duplicate finish returns
      before the queue is processed. */
  function AfterFinish(s: State, id: JobId, row: Job, outcomes: JobId -> StartOutcome): State {
    if id in s.jobs && s.jobs[id].Terminal() then s
    else AfterDrain(FinishRows(s, id, row), outcomes)
  }

  /** The part of spawnWorkerJob after its await. */
  function AfterSpawn(s: State, id: JobId, req: Request, outcomes: JobId -> StartOutcome): State {
    var s1 := s.(agents := s.agents[id := AgentQueued],
                 jobs := s.jobs[id := Job(Queued, None, None)],
                 spawned := s.spawned + [id]);
    if RunningCount(s1) < s1.max then
      var s2 := Start(s1, id, outcomes(id));
      if outcomes(id).Starts? then s2 else AfterFinish(s2, id, SpawnFailure(outcomes(id).Error()), outcomes)
    else
      s1.(requests := s1.requests[id := req], queue := s1.queue + [id])
  }

  /** One poll tick. A cleared interval never fires. */
  function AfterTick(s: State, id: JobId, report: SdkReport, outcomes: JobId -> StartOutcome): State {
    if id !in s.timers || report.StillRunning? then s
    else
      var row := if report.Gone? then Job(Failed, None, Some("Worker disappeared from SDK tracking"))
                 else Job(report.status, report.result, report.error);
      var s1 := AfterFinish(s, id, row, outcomes);
      s1.(timers := s1.timers - {id})
  }

  function IndexOf(q: seq<JobId>, id: JobId): (i: nat)
    ensures i <= |q|
    ensures i < |q| ==> q[i] == id
    ensures forall k :: 0 <= k < i ==> q[k] != id
  {
    if q == [] || q[0] == id then 0 else 1 + IndexOf(q[1..], id)
  }

  /** killJob; the second component is what the caller is told. */
  function AfterKill(s: State, id: JobId, outcomes: JobId -> StartOutcome): (State, bool) {
    if id !in s.agents then (s, false)
    else
      var i := IndexOf(s.queue, id);
      if i < |s.queue| then
        var s1 := s.(queue := s.queue[..i] + s.queue[i + 1..], requests := s.requests - {id});
        (AfterFinish(s1, id, Job(Failed, None, Some("Killed while queued")), outcomes), true)
      else if s.agents[id].AgentRunning? then
        var s1 := AfterFinish(s, id, Job(Failed, None, Some("Killed by user")), outcomes);
        (s1.(timers := s1.timers - {id}), true)
      else (s, false)
  }

  /** The module as it is written: mutable fields, and finishJob and processQueue
      calling each other under the guard `processing`. */
  class Pool {
    const max: int
    const persistent: nat
    var agents: map<JobId, AgentStatus>
    var jobs: map<JobId, Job>
    var queue: seq<JobId>
    var requests: map<JobId, Request>
    var timers: set<JobId>
    var listeners: seq<Listener>
    var processing: bool
    ghost var spawned: seq<JobId>
    ghost var started: seq<JobId>
    ghost var calls: seq<Call>

    ghost function View(): State
      reads this
    {
      State(max, persistent, agents, jobs, queue, requests, timers, listeners, spawned, started, calls)
    }

    constructor (max: int, persistent: nat)
      ensures View() == Initial(max, persistent) && !processing
    {
      this.max, this.persistent := max, persistent;
      agents, jobs, queue, requests, timers := map[], map[], [], map[], {};
      listeners, processing := [], false;
      spawned, started, calls := [], [], [];
    }

    method CountRunningAgents() returns (n: nat)
      ensures n == RunningCount(View())
    {
      n := persistent + |RunningWorkers(agents)|;
    }

    method AddOnJobComplete(l: Listener)
      modifies `listeners
      ensures View() == old(View()).(listeners := old(listeners) + [l])
    {
      listeners := listeners + [l];
    }

    method SetOnJobComplete(l: Option<Listener>)
      modifies `listeners
      ensures View() == old(View()).(listeners := if l.Some? then [l.value] else [])
    {
      listeners := [];
      if l.Some? {
        listeners := listeners + [l.value];
      }
    }

    method StartWorker(id: JobId, outcome: StartOutcome)
      requires id in jobs
      modifies this
      ensures View() == Start(old(View()), id, outcome) && processing == old(processing)
    {
      started := started + [id];
      if outcome.ThrowsEarly? {
        return;
      }
      agents := agents[id := AgentRunning];
      if outcome.ThrowsAfterAgentRow? {
        return;
      }
      jobs := jobs[id := jobs[id].(status := Running)];
      timers := timers + {id};
    }

    method StopPolling(id: JobId)
      modifies `timers
      ensures timers == old(timers) - {id}
    {
      if id in timers {
        timers := timers - {id};
      }
    }

    /** A listener is called; it may return or throw. */
    method Invoke(listener: Listener, id: JobId, row: Job) returns (outcome: CallOutcome)
      modifies `calls
      ensures calls == old(calls) + [Call(listener, id, row)]
    {
      calls := calls + [Call(listener, id, row)];
      outcome := *;
    }

    /** Each listener runs in its own try block; what the blocks catch is logged. */
    method NotifyListeners(id: JobId, row: Job) returns (caught: seq<string>)
      modifies `calls
      ensures calls == old(calls) + CallsOnFinish(listeners, id, row)
      ensures |caught| <= |listeners|
    {
      var copy := listeners;
      caught := [];
      for i := 0 to |copy|
        invariant calls == old(calls) + CallsOnFinish(copy[..i], id, row)
        invariant |caught| <= i
      {
        assert copy[..i + 1] == copy[..i] + [copy[i]];
        var outcome := Invoke(copy[i], id, row);
        match outcome
        case Returned =>
        case Threw(message) => caught := caught + [message];
      }
      assert copy[..|copy|] == copy;
    }

    method FinishJob(id: JobId, row: Job, outcomes: JobId -> StartOutcome)
      modifies this
      ensures processing == old(processing)
      ensures View() == if old(processing) then FinishRows(old(View()), id, row)
                        else AfterFinish(old(View()), id, row, outcomes)
      decreases if processing then 0 else 1, 1
    {
      if id in jobs && jobs[id].Terminal() {
        return;
      }
      if id in agents {
        agents := agents[id := AgentStopped];
      }
      if id in jobs {
        jobs := jobs[id := row];
        var warnings := NotifyListeners(id, row);
      }
      ProcessQueue(outcomes);
    }

    method ProcessQueue(outcomes: JobId -> StartOutcome)
      modifies this
      ensures processing == old(processing)
      ensures View() == if old(processing) then old(View()) else AfterDrain(old(View()), outcomes)
      decreases if processing then 0 else 1, 0
    {
      if processing {
        return;
      }
      processing := true;
      var running := CountRunningAgents();
      while queue != [] && running < max
        invariant processing && running == RunningCount(View())
        invariant AfterDrain(View(), outcomes) == AfterDrain(old(View()), outcomes)
        decreases |queue|
      {
        ghost var before := View();
        DequeueQueue(before, outcomes);
        var id := queue[0];
        queue := queue[1..];
        if id in jobs && jobs[id].status.Queued? && id in requests {
          requests := requests - {id};
          StartWorker(id, outcomes(id));
          if !outcomes(id).Starts? {
            FinishJob(id, SpawnFailure(outcomes(id).Error()), outcomes);
          }
        }
        assert View() == Dequeue(before, outcomes);
        running := CountRunningAgents();
      }
      processing := false;
    }

    method SpawnWorkerJob(id: JobId, req: Request, outcomes: JobId -> StartOutcome) returns (status: JobStatus)
      requires !processing && id !in jobs
      modifies this
      ensures !processing
      ensures View() == AfterSpawn(old(View()), id, req, outcomes)
      ensures old(RunningCount(View().(agents := agents[id := AgentQueued]))) < max ==>
                status == if outcomes(id).Starts? then Running else Failed
      ensures old(RunningCount(View().(agents := agents[id := AgentQueued]))) >= max ==> status == Queued
    {
      agents := agents[id := AgentQueued];
      jobs := jobs[id := Job(Queued, None, None)];
      spawned := spawned + [id];
      var running := CountRunningAgents();
      if running < max {
        StartWorker(id, outcomes(id));
        if !outcomes(id).Starts? {
          FinishJob(id, SpawnFailure(outcomes(id).Error()), outcomes);
          return Failed;
        }
        return Running;
      }
      requests := requests[id := req];
      queue := queue + [id];
      return Queued;
    }

    method PollTick(id: JobId, report: SdkReport, outcomes: JobId -> StartOutcome)
      requires !processing && id in timers
      modifies this
      ensures !processing && View() == AfterTick(old(View()), id, report, outcomes)
    {
      match report
      case Gone =>
        FinishJob(id, Job(Failed, None, Some("Worker disappeared from SDK tracking")), outcomes);
        StopPolling(id);
      case StillRunning =>
      case Ended(status, result, error) =>
        FinishJob(id, Job(status, result, error), outcomes);
        StopPolling(id);
    }

    method KillJob(id: JobId, outcomes: JobId -> StartOutcome) returns (killed: bool)
      requires !processing
      modifies this
      ensures !processing && (View(), killed) == AfterKill(old(View()), id, outcomes)
    {
      if id !in agents {
        return false;
      }
      var i := IndexOf(queue, id);
      if i < |queue| {
        queue := queue[..i] + queue[i + 1..];
        requests := requests - {id};
        FinishJob(id, Job(Failed, None, Some("Killed while queued")), outcomes);
        return true;
      }
      if agents[id].AgentRunning? {
        FinishJob(id, Job(Failed, None, Some("Killed by user")), outcomes);
        StopPolling(id);
        return true;
      }
      return false;
    }
  }
}
