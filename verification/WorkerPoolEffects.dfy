/** What each step of the worker allocator does to the rows: which jobs it starts, what a
    finished job's row says, and what the listeners are told. */
module WorkerPoolEffects {
  import opened Wrappers
  import opened Sequences
  import opened WorkerPool
  import opened WorkerPoolSafety
  import opened WorkerPoolRuns

  /** The row of a job, field by field. */
  ghost predicate RowSays(s: State, id: JobId, status: JobStatus, result: Option<string>, error: Option<string>) {
    id in s.jobs && s.jobs[id].status == status && s.jobs[id].result == result && s.jobs[id].error == error
  }

  /** Every listener, in order, was told of the job once, with this row, and nothing else. */
  ghost predicate AllTold(s: State, id: JobId, status: JobStatus, result: Option<string>, error: Option<string>) {
    var told := CallsOf(s.calls, id);
    && |told| == |s.listeners|
    && forall i :: 0 <= i < |told| ==>
         && told[i].listener == s.listeners[i] && told[i].job == id
         && told[i].row.status == status && told[i].row.result == result && told[i].row.error == error
  }

  lemma FinishTells(s: State, id: JobId, row: Job, outcomes: JobId -> StartOutcome)
    requires id in s.jobs && !s.jobs[id].Terminal() && row.Terminal() && CallsOf(s.calls, id) == []
    ensures var t := AfterFinish(s, id, row, outcomes);
            RowSays(t, id, row.status, row.result, row.error) && AllTold(t, id, row.status, row.result, row.error)
  {
    FinishJobSettles(s, id, row, outcomes, id);
  }

  /** A poll tick of a running job: what the SDK reported is what the row gets and what the
      listeners hear, a vanished worker is a failure, and a running one changes nothing. */
  lemma TickReports(s: State, id: JobId, report: SdkReport, outcomes: JobId -> StartOutcome)
    requires Invariant(s) && id in s.timers && report.Valid()
    ensures var t := Next(s, TickStep(id, report), outcomes);
            match report
            case Ended(status, result, error) =>
              RowSays(t, id, status, result, error) && AllTold(t, id, status, result, error)
            case Gone =>
              && RowSays(t, id, Failed, None, Some("Worker disappeared from SDK tracking"))
              && AllTold(t, id, Failed, None, Some("Worker disappeared from SDK tracking"))
            case StillRunning => t == s
  {
    assert Agrees(s, {}, {}, id);
    match report
    case Ended(status, result, error) => FinishTells(s, id, Job(status, result, error), outcomes);
    case Gone => FinishTells(s, id, Job(Failed, None, Some("Worker disappeared from SDK tracking")), outcomes);
    case StillRunning =>
  }

  /** A tick of a job without a timer never comes. */
  lemma TickNeedsTimer(s: State, id: JobId, report: SdkReport, outcomes: JobId -> StartOutcome)
    requires id !in s.timers
    ensures Next(s, TickStep(id, report), outcomes) == s
  {
  }

  /** A kill fails a queued job and a running one, each with its own text, and tells the
      listeners so. */
  lemma KillReports(s: State, id: JobId, outcomes: JobId -> StartOutcome)
    requires Invariant(s)
    ensures var t := Next(s, KillStep(id), outcomes);
            && (IsStatus(s, id, Queued) ==>
                  && RowSays(t, id, Failed, None, Some("Killed while queued"))
                  && AllTold(t, id, Failed, None, Some("Killed while queued")))
            && (IsStatus(s, id, Running) ==>
                  && RowSays(t, id, Failed, None, Some("Killed by user"))
                  && AllTold(t, id, Failed, None, Some("Killed by user")))
            && (!IsStatus(s, id, Queued) && !IsStatus(s, id, Running) ==> t == s)
  {
    assert Agrees(s, {}, {}, id);
    var i := IndexOf(s.queue, id);
    if IsStatus(s, id, Queued) {
      var s1 := s.(queue := s.queue[..i] + s.queue[i + 1..], requests := s.requests - {id});
      FinishTells(s1, id, Job(Failed, None, Some("Killed while queued")), outcomes);
    } else if IsStatus(s, id, Running) {
      assert i == |s.queue|;
      FinishTells(s, id, Job(Failed, None, Some("Killed by user")), outcomes);
    }
  }

  // ---- Spawning ----

  /** With a free slot a spawned job is started at once: it runs, or it failed with the
      error of its start. Without one it waits at the end of the queue with its request. */
  lemma SpawnReports(s: State, id: JobId, req: Request, outcomes: JobId -> StartOutcome)
    requires Invariant(s) && Legal(s, SpawnStep(id, req))
    ensures var t := Next(s, SpawnStep(id, req), outcomes);
            && s.started <= t.started
            && (RunningCount(s) < s.max ==>
                  && |t.started| > |s.started| && t.started[|s.started|] == id
                  && (outcomes(id).Starts? ==> RowSays(t, id, Running, None, None))
                  && (!outcomes(id).Starts? ==>
                        && RowSays(t, id, Failed, None, Some("Worker spawn failed: " + outcomes(id).message))
                        && AllTold(t, id, Failed, None, Some("Worker spawn failed: " + outcomes(id).message))))
            && (RunningCount(s) >= s.max ==>
                  && RowSays(t, id, Queued, None, None)
                  && t.queue == s.queue + [id] && t.requests == s.requests[id := req] && t.started == s.started)
  {
    assert Agrees(s, {}, {}, id);
    SpawnRows(s, id);
    RunningOne(s.agents, id, AgentQueued);
    var s1 := WithRows(s, id);
    assert RunningWorkers(s1.agents) == RunningWorkers(s.agents);
    if RunningCount(s) < s.max && !outcomes(id).Starts? {
      var s2 := Start(s1, id, outcomes(id));
      FinishTells(s2, id, SpawnFailure(outcomes(id).message), outcomes);
      DrainBegins(FinishRows(s2, id, SpawnFailure(outcomes(id).message)), outcomes);
    }
  }

  // ---- Draining ----

  /** From `s` to `t` exactly the jobs newly passed to the start function changed: those
      whose start succeeded run, the others failed with the error of their start. */
  ghost predicate Begins(s: State, t: State, outcomes: JobId -> StartOutcome) {
    && s.started <= t.started
    && t.jobs.Keys == s.jobs.Keys
    && (forall id :: id in s.jobs ==> BegunOrSame(s, t, outcomes, id))
  }

  ghost predicate BegunOrSame(s: State, t: State, outcomes: JobId -> StartOutcome, id: JobId)
    requires s.started <= t.started && id in s.jobs && id in t.jobs
  {
    if id in t.started[|s.started|..] then
      && s.jobs[id].status.Queued?
      && (outcomes(id).Starts? ==> RowSays(t, id, Running, s.jobs[id].result, s.jobs[id].error))
      && (!outcomes(id).Starts? ==> RowSays(t, id, Failed, None, Some("Worker spawn failed: " + outcomes(id).message)))
    else
      t.jobs[id] == s.jobs[id]
  }

  lemma BeginsTwice(s: State, t: State, u: State, outcomes: JobId -> StartOutcome)
    requires Begins(s, t, outcomes) && Begins(t, u, outcomes)
    ensures Begins(s, u, outcomes)
  {
    assert u.started[|s.started|..] == t.started[|s.started|..] + u.started[|t.started|..];
    forall id | id in s.jobs ensures BegunOrSame(s, u, outcomes, id) {
      assert BegunOrSame(s, t, outcomes, id) && BegunOrSame(t, u, outcomes, id);
    }
  }

  lemma DequeueBegins(s: State, outcomes: JobId -> StartOutcome)
    requires s.queue != []
    ensures Begins(s, Dequeue(s, outcomes), outcomes)
  {
    var id := s.queue[0];
    var s1 := s.(queue := s.queue[1..]);
    if id in s1.jobs && s1.jobs[id].status.Queued? && id in s1.requests {
      StartBegins(s1.(requests := s1.requests - {id}), id, outcomes);
    }
  }

  lemma StartBegins(s: State, id: JobId, outcomes: JobId -> StartOutcome)
    requires id in s.jobs && s.jobs[id].status.Queued?
    ensures Begins(s, StartOrFail(s, id, outcomes(id)), outcomes)
  {
    var t := StartOrFail(s, id, outcomes(id));
    assert t.started == s.started + [id];
    assert t.started[|s.started|..] == [id];
    StartedRow(s, id, outcomes(id));
    forall other | other in s.jobs ensures BegunOrSame(s, t, outcomes, other) {
    }
  }

  lemma StartedRow(s: State, id: JobId, outcome: StartOutcome)
    requires id in s.jobs && s.jobs[id].status.Queued?
    ensures var t := StartOrFail(s, id, outcome);
            && t.jobs.Keys == s.jobs.Keys
            && (forall other :: other in s.jobs && other != id ==> t.jobs[other] == s.jobs[other])
            && (outcome.Starts? ==> RowSays(t, id, Running, s.jobs[id].result, s.jobs[id].error))
            && (!outcome.Starts? ==> RowSays(t, id, Failed, None, Some("Worker spawn failed: " + outcome.message)))
  {
  }

  lemma {:induction false} DrainBegins(s: State, outcomes: JobId -> StartOutcome)
    ensures Begins(s, AfterDrain(s, outcomes), outcomes)
    decreases |s.queue|
  {
    if s.queue != [] && RunningCount(s) < s.max {
      var t := Dequeue(s, outcomes);
      DequeueQueue(s, outcomes);
      DequeueBegins(s, outcomes);
      DrainBegins(t, outcomes);
      BeginsTwice(s, t, AfterDrain(t, outcomes), outcomes);
    } else {
      forall id | id in s.jobs ensures BegunOrSame(s, s, outcomes, id) {
      }
    }
  }

  /** What finishing one job does to the others: it starts waiting ones, and nothing else. */
  lemma FinishBegins(s: State, id: JobId, row: Job, outcomes: JobId -> StartOutcome, other: JobId)
    requires row.Terminal() && other in s.jobs && other != id
    ensures var t := AfterFinish(s, id, row, outcomes);
            s.started <= t.started && other in t.jobs && BegunOrSame(s, t, outcomes, other)
  {
    DrainBegins(FinishRows(s, id, row), outcomes);
    var t := AfterFinish(s, id, row, outcomes);
    var s1 := FinishRows(s, id, row);
    if !(id in s.jobs && s.jobs[id].Terminal()) {
      assert BegunOrSame(s1, t, outcomes, other);
    }
  }

  // ---- The running count, by the jobs ----

  /** What is counted against the limit: the persistent agents, and the running jobs. */
  lemma CountIsOfRunningJobs(s: State)
    requires Invariant(s)
    ensures RunningCount(s) == s.persistent + |set id | id in s.jobs && s.jobs[id].status.Running?|
  {
    var jobs := set id | id in s.jobs && s.jobs[id].status.Running?;
    forall id ensures id in jobs <==> id in RunningWorkers(s.agents) {
      assert Agrees(s, {}, {}, id);
    }
    assert jobs == RunningWorkers(s.agents);
  }
}
