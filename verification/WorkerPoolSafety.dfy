/** What every run of the worker allocator keeps: agreement of the indexes, work
    conservation, capacity, no overtaking, and exactly-once completion. */
module WorkerPoolSafety {
  import opened Wrappers
  import opened Sequences
  import opened WorkerPool

  datatype Step =
    | SpawnStep(id: JobId, req: Request)
    | TickStep(id: JobId, report: SdkReport)
    | KillStep(id: JobId)
    | ListenStep(listeners: seq<Listener>)

  /** Spawned ids are fresh (random UUIDs); the SDK reports terminal statuses only. */
  ghost predicate Legal(s: State, step: Step) {
    match step
    case SpawnStep(id, _) => id !in s.jobs && id !in s.agents && id !in s.spawned
    case TickStep(_, report) => report.Valid()
    case _ => true
  }

  ghost function Next(s: State, step: Step, outcomes: JobId -> StartOutcome): State {
    match step
    case SpawnStep(id, req) => AfterSpawn(s, id, req, outcomes)
    case TickStep(id, report) => AfterTick(s, id, report, outcomes)
    case KillStep(id) => AfterKill(s, id, outcomes).0
    case ListenStep(listeners) => s.(listeners := listeners)
  }

  // ---- The invariant ----

  ghost predicate IsStatus(s: State, id: JobId, status: JobStatus) {
    id in s.jobs && s.jobs[id].status == status
  }

  function AgentFor(status: JobStatus): AgentStatus {
    match status
    case Queued => AgentQueued
    case Running => AgentRunning
    case _ => AgentStopped
  }

  /** What holds of one job in the middle of a step: rows of jobs in `pending` are
      queued but not yet in any index, and jobs in `finishing` are terminal but
      still own a timer. Between steps both sets are empty. */
  ghost predicate Agrees(s: State, pending: set<JobId>, finishing: set<JobId>, id: JobId) {
    && (id in s.queue <==> id in s.requests)
    && (id in s.requests <==> IsStatus(s, id, Queued) && id !in pending)
    && (id in s.timers <==> IsStatus(s, id, Running) || id in finishing)
    && (id in pending ==> IsStatus(s, id, Queued))
    && (id in finishing ==> id in s.jobs && s.jobs[id].Terminal())
    && (id in s.agents <==> id in s.jobs)
    && (id in s.jobs ==> s.agents[id] == AgentFor(s.jobs[id].status))
    && (id in s.jobs <==> id in s.spawned)
    && (IsStatus(s, id, Running) ==> id in s.started)
    && (id !in s.jobs || !s.jobs[id].Terminal() ==> CallsOf(s.calls, id) == [])
  }

  ghost predicate Conserving(s: State) {
    s.queue == [] || RunningCount(s) >= s.max
  }

  ghost predicate WithinCapacity(s: State) {
    RunningCount(s) <= s.max || RunningWorkers(s.agents) == {}
  }

  /** Started jobs, then queued jobs: a subsequence of the spawn order. */
  ghost predicate InOrder(s: State) {
    NoDuplicates(s.spawned) && Subsequence(s.started + s.queue, s.spawned)
  }

  ghost function CallsOf(calls: seq<Call>, id: JobId): seq<Call> {
    if calls == [] then []
    else
      var rest := CallsOf(calls[..|calls| - 1], id);
      if calls[|calls| - 1].job == id then rest + [calls[|calls| - 1]] else rest
  }

  ghost predicate Core(s: State, pending: set<JobId>, finishing: set<JobId>) {
    && (forall id :: Agrees(s, pending, finishing, id))
    && WithinCapacity(s)
    && InOrder(s)
  }

  ghost predicate Invariant(s: State) {
    Core(s, {}, {}) && Conserving(s)
  }

  // ---- Listener calls ----

  lemma {:induction false} CallsOfAppend(a: seq<Call>, b: seq<Call>, id: JobId)
    ensures CallsOf(a + b, id) == CallsOf(a, id) + CallsOf(b, id)
    decreases |b|
  {
    if b == [] {
      assert a + b == a;
    } else {
      assert (a + b)[..|a + b| - 1] == a + b[..|b| - 1];
      CallsOfAppend(a, b[..|b| - 1], id);
    }
  }

  lemma {:induction false} CallsOfFinish(listeners: seq<Listener>, id: JobId, row: Job, other: JobId)
    ensures CallsOf(CallsOnFinish(listeners, id, row), other)
         == if other == id then CallsOnFinish(listeners, id, row) else []
    decreases |listeners|
  {
    if listeners != [] {
      var front := listeners[..|listeners| - 1];
      assert CallsOnFinish(listeners, id, row)[..|listeners| - 1] == CallsOnFinish(front, id, row);
      CallsOfFinish(front, id, row, other);
    }
  }

  // ---- Counting ----

  lemma RunningOne(agents: map<JobId, AgentStatus>, id: JobId, status: AgentStatus)
    ensures var before, after := RunningWorkers(agents), RunningWorkers(agents[id := status]);
            && after == (if status.AgentRunning? then before + {id} else before - {id})
            && |after| <= |before| + 1
            && (!status.AgentRunning? && id !in before ==> after == before)
  {
    var before, after := RunningWorkers(agents), RunningWorkers(agents[id := status]);
    assert after == if status.AgentRunning? then before + {id} else before - {id};
  }

  lemma QueueFacts(s: State)
    requires InOrder(s)
    ensures NoDuplicates(s.started) && NoDuplicates(s.queue)
    ensures forall id :: id in s.started ==> id !in s.queue
  {
    var all := s.started + s.queue;
    SubsequenceNoDuplicates(all, s.spawned);
    forall i, j | 0 <= i < j < |s.started| ensures s.started[i] != s.started[j] {
      assert all[i] != all[j];
    }
    forall i, j | 0 <= i < j < |s.queue| ensures s.queue[i] != s.queue[j] {
      assert all[|s.started| + i] != all[|s.started| + j];
    }
    forall i, j | 0 <= i < |s.started| && 0 <= j < |s.queue| ensures s.started[i] != s.queue[j] {
      assert all[i] != all[|s.started| + j];
    }
  }

  // ---- Steps inside a step ----

  lemma FinishAgrees(s: State, id: JobId, row: Job, pending: set<JobId>, finishing: set<JobId>,
                     after: set<JobId>, other: JobId)
    requires Agrees(s, pending, finishing, other) && Agrees(s, pending, finishing, id)
    requires id in s.jobs && !s.jobs[id].Terminal() && row.Terminal()
    requires pending == if IsStatus(s, id, Queued) then {id} else {}
    requires after == if IsStatus(s, id, Running) then finishing + {id} else finishing
    ensures Agrees(FinishRows(s, id, row), {}, after, other)
  {
    var calls := CallsOnFinish(s.listeners, id, row);
    CallsOfAppend(s.calls, calls, other);
    CallsOfFinish(s.listeners, id, row, other);
  }

  lemma FinishRowsKeeps(s: State, id: JobId, row: Job, pending: set<JobId>, finishing: set<JobId>, after: set<JobId>)
    requires Core(s, pending, finishing)
    requires id in s.jobs && !s.jobs[id].Terminal() && row.Terminal()
    requires pending == if IsStatus(s, id, Queued) then {id} else {}
    requires after == if IsStatus(s, id, Running) then finishing + {id} else finishing
    ensures Core(FinishRows(s, id, row), {}, after)
    ensures FinishRows(s, id, row).queue == s.queue
  {
    assert Agrees(s, pending, finishing, id);
    RunningOne(s.agents, id, AgentStopped);
    forall other ensures Agrees(FinishRows(s, id, row), {}, after, other) {
      assert Agrees(s, pending, finishing, other);
      FinishAgrees(s, id, row, pending, finishing, after, other);
    }
  }

  /** A pending job is handed to the start function: it runs, or it is failed. */
  lemma StartOrFailKeeps(s: State, id: JobId, outcome: StartOutcome, finishing: set<JobId>)
    requires id in s.jobs && forall other :: Agrees(s, {id}, finishing, other)
    requires RunningCount(s) < s.max && InOrder(s.(started := s.started + [id]))
    ensures Core(StartOrFail(s, id, outcome), {}, finishing)
    ensures StartOrFail(s, id, outcome).queue == s.queue
  {
    assert Agrees(s, {id}, finishing, id);
    RunningOne(s.agents, id, AgentRunning);
    if outcome.Starts? {
      forall other ensures Agrees(StartOrFail(s, id, outcome), {}, finishing, other) {
        assert Agrees(s, {id}, finishing, other);
      }
    } else {
      var s1 := s.(started := s.started + [id]);
      forall other ensures Agrees(s1, {id}, finishing, other) {
        assert Agrees(s, {id}, finishing, other);
      }
      FinishRowsKeeps(s1, id, SpawnFailure(outcome.Error()), {id}, finishing, finishing);
      assert s.agents[id := AgentRunning][id := AgentStopped] == s.agents[id := AgentStopped];
    }
  }

  lemma DequeueKeeps(s: State, outcomes: JobId -> StartOutcome, finishing: set<JobId>)
    requires Core(s, {}, finishing) && s.queue != [] && RunningCount(s) < s.max
    ensures Core(Dequeue(s, outcomes), {}, finishing)
  {
    var id, rest := s.queue[0], s.queue[1..];
    assert s.queue == [id] + rest;
    QueueFacts(s);
    assert Agrees(s, {}, finishing, id);
    var s1 := s.(queue := rest, requests := s.requests - {id});
    forall other ensures Agrees(s1, {id}, finishing, other) {
      assert Agrees(s, {}, finishing, other);
      assert other in s.queue <==> other == id || other in rest;
    }
    assert s.started + s.queue == (s.started + [id]) + rest;
    StartOrFailKeeps(s1, id, outcomes(id), finishing);
  }

  /** processQueue ends with an empty queue or a full pool, whatever the start
      function does, and without exceeding the limit. */
  lemma {:induction false} DrainKeeps(s: State, outcomes: JobId -> StartOutcome, finishing: set<JobId>)
    requires Core(s, {}, finishing)
    ensures Core(AfterDrain(s, outcomes), {}, finishing)
    ensures Conserving(AfterDrain(s, outcomes))
    decreases |s.queue|
  {
    if s.queue != [] && RunningCount(s) < s.max {
      DequeueQueue(s, outcomes);
      DequeueKeeps(s, outcomes, finishing);
      DrainKeeps(Dequeue(s, outcomes), outcomes, finishing);
    }
  }

  /** finishJob for a running job, followed by the removal of its timer. */
  lemma FinishRunningKeeps(s: State, id: JobId, row: Job, outcomes: JobId -> StartOutcome)
    requires Core(s, {}, {}) && IsStatus(s, id, Running) && row.Terminal()
    ensures var s1 := AfterFinish(s, id, row, outcomes); Invariant(s1.(timers := s1.timers - {id}))
  {
    FinishRowsKeeps(s, id, row, {}, {}, {id});
    DrainKeeps(FinishRows(s, id, row), outcomes, {id});
    var s1 := AfterFinish(s, id, row, outcomes);
    var s2 := s1.(timers := s1.timers - {id});
    forall other ensures Agrees(s2, {}, {}, other) {
      assert Agrees(s1, {}, {id}, other);
    }
  }

  // ---- The steps ----

  ghost function WithRows(s: State, id: JobId): State {
    s.(agents := s.agents[id := AgentQueued],
       jobs := s.jobs[id := Job(Queued, None, None)],
       spawned := s.spawned + [id])
  }

  lemma SpawnRows(s: State, id: JobId)
    requires Invariant(s) && id !in s.jobs
    ensures forall other :: Agrees(WithRows(s, id), {id}, {}, other)
    ensures RunningCount(WithRows(s, id)) == RunningCount(s)
    ensures RunningWorkers(WithRows(s, id).agents) == RunningWorkers(s.agents)
    ensures NoDuplicates(s.spawned + [id])
    ensures Subsequence(s.started + s.queue + [id], s.spawned + [id])
  {
    assert Agrees(s, {}, {}, id);
    RunningOne(s.agents, id, AgentQueued);
    SubsequenceSnoc(s.started + s.queue, s.spawned, id);
    forall other ensures Agrees(WithRows(s, id), {id}, {}, other) {
      assert Agrees(s, {}, {}, other);
    }
  }

  lemma SpawnKeeps(s: State, id: JobId, req: Request, outcomes: JobId -> StartOutcome)
    requires Invariant(s) && Legal(s, SpawnStep(id, req))
    ensures Invariant(AfterSpawn(s, id, req, outcomes))
  {
    var s1 := WithRows(s, id);
    SpawnRows(s, id);
    if RunningCount(s1) < s1.max {
      assert s.started + s.queue + [id] == (s1.started + [id]) + s1.queue;
      StartOrFailKeeps(s1, id, outcomes(id), {});
    } else {
      var s2 := s1.(requests := s1.requests[id := req], queue := s1.queue + [id]);
      assert (s.started + s.queue) + [id] == s2.started + s2.queue;
      forall other ensures Agrees(s2, {}, {}, other) {
        assert Agrees(s1, {id}, {}, other);
      }
    }
  }

  lemma TickKeeps(s: State, id: JobId, report: SdkReport, outcomes: JobId -> StartOutcome)
    requires Invariant(s) && report.Valid()
    ensures Invariant(AfterTick(s, id, report, outcomes))
  {
    if id in s.timers && !report.StillRunning? {
      var row := if report.Gone? then Job(Failed, None, Some("Worker disappeared from SDK tracking"))
                 else Job(report.status, report.result, report.error);
      assert Agrees(s, {}, {}, id);
      FinishRunningKeeps(s, id, row, outcomes);
    }
  }

  lemma Without<T>(q: seq<T>, i: nat)
    requires NoDuplicates(q) && i < |q|
    ensures forall x :: x in q[..i] + q[i + 1..] <==> x in q && x != q[i]
  {
    assert q == q[..i] + [q[i]] + q[i + 1..];
  }

  lemma RemoveFromQueue(s: State, i: nat)
    requires Core(s, {}, {}) && i < |s.queue|
    ensures Core(s.(queue := s.queue[..i] + s.queue[i + 1..], requests := s.requests - {s.queue[i]}), {s.queue[i]}, {})
  {
    var id := s.queue[i];
    var rest := s.queue[..i] + s.queue[i + 1..];
    var s1 := s.(queue := rest, requests := s.requests - {id});
    QueueFacts(s);
    assert s.started + s.queue == (s.started + s.queue[..i]) + [id] + s.queue[i + 1..];
    SubsequenceDelete(s.started + s.queue[..i], id, s.queue[i + 1..], s.spawned);
    assert s1.started + s1.queue == (s.started + s.queue[..i]) + s.queue[i + 1..];
    Without(s.queue, i);
    forall other ensures Agrees(s1, {id}, {}, other) {
      assert Agrees(s, {}, {}, other);
    }
  }

  lemma KillKeeps(s: State, id: JobId, outcomes: JobId -> StartOutcome)
    requires Invariant(s)
    ensures Invariant(AfterKill(s, id, outcomes).0)
  {
    assert Agrees(s, {}, {}, id);
    if id in s.agents {
      var i := IndexOf(s.queue, id);
      if i < |s.queue| {
        var s1 := s.(queue := s.queue[..i] + s.queue[i + 1..], requests := s.requests - {id});
        RemoveFromQueue(s, i);
        var row := Job(Failed, None, Some("Killed while queued"));
        FinishRowsKeeps(s1, id, row, {id}, {}, {});
        DrainKeeps(FinishRows(s1, id, row), outcomes, {});
      } else if s.agents[id].AgentRunning? {
        FinishRunningKeeps(s, id, Job(Failed, None, Some("Killed by user")), outcomes);
      }
    }
  }

  lemma ListenKeeps(s: State, listeners: seq<Listener>)
    requires Invariant(s)
    ensures Invariant(s.(listeners := listeners))
  {
    forall other ensures Agrees(s.(listeners := listeners), {}, {}, other) {
      assert Agrees(s, {}, {}, other);
    }
  }

  lemma NextKeeps(s: State, step: Step, outcomes: JobId -> StartOutcome)
    requires Invariant(s) && Legal(s, step)
    ensures Invariant(Next(s, step, outcomes))
  {
    match step
    case SpawnStep(id, req) => SpawnKeeps(s, id, req, outcomes);
    case TickStep(id, report) => TickKeeps(s, id, report, outcomes);
    case KillStep(id) => KillKeeps(s, id, outcomes);
    case ListenStep(listeners) => ListenKeeps(s, listeners);
  }
}
