/** Task requests whose body arrives while other requests are handled. PUT, submit-plan
    and reject-plan of daemon/src/api/task-queue.ts read a row, wait for the body, and
    then write the row that is there; everything else is handled at once. */
module TaskInterleaving {
  import opened Wrappers
  import opened TaskQueue
  import opened TaskQueueSafety

  /** A handler that waits. Only a PUT uses the row again. */
  datatype Held = PutHeld(read: Task) | SubmitHeld | RejectHeld

  /** What arrives for it. */
  datatype Arrival = BodyArrives(body: Body) | PlanArrives(plan: string) | ReasonArrives(reason: string)

  predicate Fits(h: Held, a: Arrival) {
    match h
    case PutHeld(_) => a.BodyArrives?
    case SubmitHeld => a.PlanArrives?
    case RejectHeld => a.ReasonArrives?
  }

  function Finish(r: Record, h: Held, a: Arrival, now: Time): Record
    requires Fits(h, a)
  {
    match a
    case BodyArrives(body) => FinishPut(r, h.read, body, now).0
    case PlanArrives(plan) => FinishSubmit(r, plan).0
    case ReasonArrives(reason) => FinishReject(r, reason).0
  }

  // ---- Bodies that bring out what a PUT can do ----

  function Empty(): Body {
    Body(None, None, None, None, None, false, false, None, false, false)
  }

  function AskAssignee(assignee: Option<string>): Body {
    Empty().(assignee := Some(assignee))
  }

  /** The body that asks for a status, and nothing else unless the status needs an
      assignee. */
  function AskFor(status: Status): Body {
    Empty().(status := Some(Word(status)), assignee := if status.Assigned? then Some(Some("agent")) else None)
  }

  /** A new plan; a failed task takes it with the way out to pending. */
  function AskPlan(read: Task, plan: string): Body {
    Empty().(plan := Some(Some(plan)), status := if read.status.Failed? then Some(Word(Pending)) else None)
  }

  lemma WordsParse(status: Status)
    ensures ParseStatus(NormalizeStatusAlias(Word(status))) == Some(status)
    ensures ParseStatus(Word(status)) == Some(status)
  {
    var word := Word(status);
    assert |Lower(word)| == |word|;
    assert |"done"| == 4 && |"wip"| == 3;
  }

  lemma AskingIsAccepted(read: Task, word: string, status: Status, now: Time)
    requires status in ValidTransitions(read.status)
    requires ParseStatus(NormalizeStatusAlias(word)) == Some(status) && ParseStatus(word) == Some(status)
    ensures var assignee := if status.Assigned? then Some(Some("agent")) else None;
            var reply := PreparePut(read, Empty().(status := Some(word), assignee := assignee), now);
            && reply.Accepted? && reply.updates.status == Some(status)
            && (Terminal(status) ==> reply.updates.completedAt == Some(now))
  {
    assert "agent" != "";
    assert !BadAssignee(status, if status.Assigned? then Some("agent")
                                else if status.Pending? then None else read.assignee);
  }

  lemma AskForIsAccepted(read: Task, status: Status, now: Time)
    requires status in ValidTransitions(read.status)
    ensures PreparePut(read, AskFor(status), now).Accepted?
    ensures var u := PreparePut(read, AskFor(status), now).updates;
            u.status == Some(status) && (Terminal(status) ==> u.completedAt == Some(now))
  {
    WordsParse(status);
    AskingIsAccepted(read, Word(status), status, now);
  }

  lemma AskAssigneeIsAccepted(read: Task, assignee: Option<string>, now: Time)
    requires !Terminal(read.status) && !BadAssignee(read.status, assignee)
    ensures PreparePut(read, AskAssignee(assignee), now).Accepted?
    ensures var u := PreparePut(read, AskAssignee(assignee), now).updates;
            u.status == None && u.assignee == Some(assignee)
  {
  }

  lemma AskPlanIsAccepted(read: Task, plan: string, now: Time)
    requires RowOk(read) && !PlanFrozen(read)
    ensures PreparePut(read, AskPlan(read, plan), now).Accepted?
    ensures PreparePut(read, AskPlan(read, plan), now).updates.plan == Some(Some(plan))
  {
    WordsParse(Pending);
  }

  // ---- What an accepted PUT may write ----

  /** The rows whose plan no PUT that read them replaces. */
  ghost predicate PlanFrozen(read: Task) {
    read.planStatus.Submitted? || Over(read)
  }

  lemma AcceptedWrites(read: Task, body: Body, now: Time)
    requires PreparePut(read, body, now).Accepted?
    ensures var u := PreparePut(read, body, now).updates;
            && (u.status.Some? ==> u.status.value in ValidTransitions(read.status))
            && (u.status.Some? ==> u.completedAt == if Terminal(u.status.value) then Some(now) else None)
            && (u.status.None? ==> u.completedAt == None)
            && (u.plan.Some? ==> !PlanFrozen(read))
  {
  }

  lemma AcceptedAssigns(read: Task, body: Body, now: Time)
    requires PreparePut(read, body, now).Accepted?
    ensures var u := PreparePut(read, body, now).updates;
            && !BadAssignee(if u.status.Some? then u.status.value else read.status,
                            if u.assignee.Some? then u.assignee.value else read.assignee)
            && (u.status == Some(Pending) ==> u.assignee == Some(None))
            && (u.status.None? && u.assignee.Some? ==> !Terminal(read.status))
  {
  }

  /** The row after a PUT that read one row and writes another. */
  function LatePut(read: Task, current: Task, body: Body, now: Time): Task {
    match PreparePut(read, body, now)
    case Refused(_) => current
    case Accepted(u) => ApplyUpdates(current, u)
  }

  // ---- Status ----

  ghost predicate EdgesAgree(read: Task, current: Task) {
    forall status :: status in ValidTransitions(read.status) ==> AlongEdge(current.status, status)
  }

  /** A late PUT follows an edge, whatever its body, exactly when every edge from the
      status it read is one from the current status or leads to it. */
  lemma LatePutStatusExactlyWhen(read: Task, current: Task, now: Time)
    ensures (forall body :: AlongEdge(current.status, LatePut(read, current, body, now).status))
       <==> EdgesAgree(read, current)
  {
    if EdgesAgree(read, current) {
      forall body ensures AlongEdge(current.status, LatePut(read, current, body, now).status) {
        if PreparePut(read, body, now).Accepted? {
          AcceptedWrites(read, body, now);
        }
      }
    } else {
      var status :| status in ValidTransitions(read.status) && !AlongEdge(current.status, status);
      AskForIsAccepted(read, status, now);
      assert !AlongEdge(current.status, LatePut(read, current, AskFor(status), now).status);
    }
  }

  /** A cancelled task is completed by a PUT that had read it while in progress. */
  lemma LatePutRevivesCancelledTask(read: Task, now: Time)
    requires read.status.InProgress?
    ensures var cancelled := read.(status := Cancelled, completedAt := Some(now));
            LatePut(read, cancelled, AskFor(Completed), now).status == Completed
  {
    AskForIsAccepted(read, Completed, now);
  }

  // ---- Assignee ----

  /** Whoever is assigned under a status that asks for nobody or for somebody was read
      under the same status, or the PUT cannot assign. */
  ghost predicate AssigneesAgree(read: Task, current: Task) {
    (current.status.Pending? || current.status.Assigned?) && !Terminal(read.status) ==> current.status == read.status
  }

  lemma LatePutAssigns(read: Task, current: Task, body: Body, now: Time)
    requires RowOk(read) && !BadAssignee(current.status, current.assignee) && AssigneesAgree(read, current)
    ensures var t := LatePut(read, current, body, now); !BadAssignee(t.status, t.assignee)
  {
    if PreparePut(read, body, now).Accepted? {
      AcceptedWrites(read, body, now);
      AcceptedAssigns(read, body, now);
    }
  }

  /** The assignee that breaks the rule. */
  function Misfit(read: Task, current: Task): Option<string> {
    if current.status.Assigned? then None else Some("agent")
  }

  /** A late PUT leaves pending tasks without an assignee and assigned ones with one,
      whatever its body, exactly when a pending or assigned row has the status it read,
      or it read a finished one. */
  lemma LatePutAssigneeExactlyWhen(read: Task, current: Task, now: Time)
    requires RowOk(read) && !BadAssignee(current.status, current.assignee)
    ensures (forall body :: var t := LatePut(read, current, body, now); !BadAssignee(t.status, t.assignee))
       <==> AssigneesAgree(read, current)
  {
    if AssigneesAgree(read, current) {
      forall body ensures var t := LatePut(read, current, body, now); !BadAssignee(t.status, t.assignee) {
        LatePutAssigns(read, current, body, now);
      }
    } else {
      assert "agent" != "";
      AskAssigneeIsAccepted(read, Misfit(read, current), now);
      var t := LatePut(read, current, AskAssignee(Misfit(read, current)), now);
      assert BadAssignee(t.status, t.assignee);
    }
  }

  // ---- Completion ----

  /** A finished row has a completion time after any late PUT. */
  lemma LatePutCompletes(read: Task, current: Task, body: Body, now: Time)
    requires Terminal(current.status) ==> current.completedAt.Some?
    ensures var t := LatePut(read, current, body, now); Terminal(t.status) ==> t.completedAt.Some?
  {
    if PreparePut(read, body, now).Accepted? {
      AcceptedWrites(read, body, now);
    }
  }

  /** But it keeps the completion time of a finished task, whatever its body and its
      time, exactly when it read a completed or cancelled one. */
  lemma LatePutCompletionTimeExactlyWhen(read: Task, current: Task)
    requires Terminal(current.status)
    ensures (forall body, now :: LatePut(read, current, body, now).completedAt == current.completedAt) <==> Over(read)
  {
    if Over(read) {
      forall body, now ensures LatePut(read, current, body, now).completedAt == current.completedAt {
        if PreparePut(read, body, now).Accepted? {
          AcceptedWrites(read, body, now);
        }
      }
    } else {
      var now: Time := if current.completedAt == Some(0) then 1 else 0;
      assert Cancelled in ValidTransitions(read.status);
      AskForIsAccepted(read, Cancelled, now);
      assert LatePut(read, current, AskFor(Cancelled), now).completedAt == Some(now);
    }
  }

  // ---- Plan ----

  /** A PUT keeps the plan of whatever row it writes, whatever its body, exactly when the
      plan was submitted, or the task over, in the row it read. The row it writes has no
      say. */
  lemma LatePutPlanExactlyWhen(read: Task, current: Task, now: Time)
    requires RowOk(read)
    ensures (forall body :: LatePut(read, current, body, now).plan == current.plan) <==> PlanFrozen(read)
  {
    if PlanFrozen(read) {
      forall body ensures LatePut(read, current, body, now).plan == current.plan {
        if PreparePut(read, body, now).Accepted? {
          AcceptedWrites(read, body, now);
        }
      }
    } else {
      var plan := if current.plan == Some("") then "plan" else "";
      AskPlanIsAccepted(read, plan, now);
      assert LatePut(read, current, AskPlan(read, plan), now).plan == Some(plan);
    }
  }

  /** So a waiting plan is safe from a late PUT exactly under that condition. */
  lemma WaitingPlanIsSafeExactlyWhen(read: Task, current: Task, now: Time)
    requires RowOk(read)
    ensures (forall body :: current.planStatus.Submitted? ==> LatePut(read, current, body, now).plan == current.plan)
       <==> (current.planStatus.Submitted? ==> PlanFrozen(read))
  {
    LatePutPlanExactlyWhen(read, current, now);
  }

  /** And an approved plan is not safe from any PUT, late or not, until the task is
      over: only a submitted one is protected. */
  lemma ApprovedPlanIsSafeExactlyWhenOver(task: Task, now: Time)
    requires RowOk(task) && task.planStatus.PlanApproved?
    ensures (forall body :: LatePut(task, task, body, now).plan == task.plan) <==> Over(task)
  {
    LatePutPlanExactlyWhen(task, task, now);
  }

  /** A text nobody submitted gets approved: a PUT reads a row in progress, a plan is
      submitted, the PUT's body brings another plan, and the approval is for that one. */
  lemma ApprovesWhatNobodySubmitted(r: Record, submitted: string, other: string, now: Time)
    requires Invariant(r) && CanSubmit(r.task) && !r.task.planStatus.Submitted?
    requires submitted != "" && other != submitted
    ensures var (waiting, first) := Handle(r, SubmitPlan(submitted), now);
            var (replaced, second) := FinishPut(waiting, r.task, AskPlan(r.task, other), now);
            var (approved, third) := Handle(replaced, ApprovePlan, now);
            && first == second == third == 200
            && approved.task.planStatus.PlanApproved? && approved.task.plan == Some(other)
            && approved.submissions[|approved.submissions| - 1] == submitted
  {
    AskPlanIsAccepted(r.task, other, now);
  }

  // ---- The whole invariant of one late request ----

  /** What a waiting handler needs of the row that is there when its body arrives. */
  ghost predicate Safe(h: Held, current: Task) {
    match h
    case PutHeld(read) =>
      && EdgesAgree(read, current)
      && AssigneesAgree(read, current)
      && (current.planStatus.Submitted? ==> PlanFrozen(read))
    case SubmitHeld => current.status.InProgress? || current.status.AwaitingApproval?
    case RejectHeld =>
      && (current.status.Assigned? || current.status.InProgress? || current.status.AwaitingApproval?)
      && (current.planStatus.Submitted? || current.planStatus.PlanRejected?)
  }

  ghost predicate HeldOk(h: Held) {
    h.PutHeld? ==> RowOk(h.read)
  }

  lemma LatePutKeepsExactly(r: Record, read: Task, body: Body, now: Time)
    requires Invariant(r)
    ensures var t := LatePut(read, r.task, body, now);
            Invariant(FinishPut(r, read, body, now).0) <==>
              && !BadAssignee(t.status, t.assignee)
              && AlongEdge(r.task.status, t.status)
              && (r.task.planStatus.Submitted? ==> t.plan == r.task.plan)
  {
    var t := LatePut(read, r.task, body, now);
    LatePutCompletes(read, r.task, body, now);
    WriteKeepsExactlyWhen(r, t, r.submissions);
    if PreparePut(read, body, now).Refused? {
      assert Noted(r.statuses, r.task.status, r.task.status) == r.statuses;
    }
  }

  /** A late PUT keeps every rule of the task, whatever its body, exactly when the row it
      finds agrees with the one it read on edges, assignee and plan. */
  lemma LatePutKeepsInvariantExactlyWhen(r: Record, read: Task, now: Time)
    requires Invariant(r) && RowOk(read)
    ensures (forall body :: Invariant(FinishPut(r, read, body, now).0)) <==> Safe(PutHeld(read), r.task)
  {
    LatePutStatusExactlyWhen(read, r.task, now);
    LatePutAssigneeExactlyWhen(read, r.task, now);
    WaitingPlanIsSafeExactlyWhen(read, r.task, now);
    forall body
      ensures var t := LatePut(read, r.task, body, now);
              Invariant(FinishPut(r, read, body, now).0) <==>
                && !BadAssignee(t.status, t.assignee)
                && AlongEdge(r.task.status, t.status)
                && (r.task.planStatus.Submitted? ==> t.plan == r.task.plan)
    {
      LatePutKeepsExactly(r, read, body, now);
    }
  }

  /** A late submission keeps every rule exactly when the task is in progress or waits
      for approval. */
  lemma LateSubmitKeepsInvariantExactlyWhen(r: Record, plan: string)
    requires Invariant(r) && plan != ""
    ensures Invariant(FinishSubmit(r, plan).0) <==> Safe(SubmitHeld, r.task)
  {
    var task := r.task.(plan := Some(plan), planStatus := Submitted, status := AwaitingApproval);
    WriteKeepsExactlyWhen(r, task, r.submissions + [plan]);
  }

  /** A late rejection keeps every rule exactly when the status leads to in progress and
      the plan is not approved meanwhile. */
  lemma LateRejectKeepsInvariantExactlyWhen(r: Record, reason: string)
    requires Invariant(r)
    ensures Invariant(FinishReject(r, reason).0) <==> Safe(RejectHeld, r.task)
  {
    var task := r.task.(planStatus := PlanRejected, planRejectedReason := Some(reason), status := InProgress);
    WriteKeepsExactlyWhen(r, task, r.submissions);
  }

  /** It is the submission that would have been made now exactly when the task is in
      progress; on a task that waits for approval it replaces the waiting plan. */
  lemma LateSubmitIsTimelyExactlyWhen(r: Record, plan: string, now: Time)
    requires plan != ""
    ensures FinishSubmit(r, plan) == Handle(r, SubmitPlan(plan), now) <==> CanSubmit(r.task)
  {
  }

  /** And a rejection, whatever its reason, exactly when a submitted plan still waits. */
  lemma LateRejectIsTimelyExactlyWhen(r: Record, now: Time)
    ensures (forall reason :: FinishReject(r, reason) == Handle(r, RejectPlan(reason), now)) <==> CanDecide(r.task)
  {
    if !CanDecide(r.task) {
      assert FinishReject(r, "").1 == 200 && Handle(r, RejectPlan(""), now).1 == 409;
    }
  }

  /** A rejection that waited while the plan was approved takes the approval back. */
  lemma LateRejectRevokesApproval(r: Record, reason: string, now: Time)
    requires Invariant(r) && CanDecide(r.task)
    ensures var (approved, code) := Handle(r, ApprovePlan, now);
            && code == 200 && approved.task.planStatus.PlanApproved?
            && !Safe(RejectHeld, approved.task)
            && FinishReject(approved, reason).0.task.planStatus.PlanRejected?
  {
  }

  /** Whatever arrives for a waiting handler. */
  lemma FinishKeeps(r: Record, h: Held, a: Arrival, now: Time)
    requires Invariant(r) && HeldOk(h) && Fits(h, a) && Safe(h, r.task)
    ensures Invariant(Finish(r, h, a, now))
  {
    match a
    case BodyArrives(body) => LatePutKeepsInvariantExactlyWhen(r, h.read, now);
    case PlanArrives(plan) => if plan != "" { LateSubmitKeepsInvariantExactlyWhen(r, plan); }
    case ReasonArrives(reason) => LateRejectKeepsInvariantExactlyWhen(r, reason);
  }

  /** An unchanged row is safe, and finishing on it is handling without interruption. */
  lemma UnchangedIsSafe(r: Record, now: Time)
    requires Invariant(r)
    ensures Safe(PutHeld(r.task), r.task)
    ensures forall body :: FinishPut(r, r.task, body, now) == Handle(r, Put(body), now)
    ensures CanSubmit(r.task) ==> Safe(SubmitHeld, r.task)
    ensures CanDecide(r.task) ==> Safe(RejectHeld, r.task)
  {
  }

  // ---- Interleaved runs of one task ----

  datatype State = State(record: Record, held: seq<Held>)

  datatype Step =
    | AtOnce(request: Request)
    | PutReads
    | SubmitReads
    | RejectReads
    | Arrives(i: nat, arrival: Arrival)

  datatype Event = Event(step: Step, now: Time)

  ghost predicate Enabled(s: State, step: Step) {
    match step
    case AtOnce(request) => request.Retry? || request.Cancel? || request.ApprovePlan?
    case Arrives(i, a) => i < |s.held| && Fits(s.held[i], a)
    case _ => true
  }

  function Next(s: State, e: Event): State
    requires Enabled(s, e.step)
  {
    match e.step
    case AtOnce(request) => s.(record := Handle(s.record, request, e.now).0)
    case PutReads => s.(held := s.held + [PutHeld(s.record.task)])
    case SubmitReads => if CanSubmit(s.record.task) then s.(held := s.held + [SubmitHeld]) else s
    case RejectReads => if CanDecide(s.record.task) then s.(held := s.held + [RejectHeld]) else s
    case Arrives(i, a) => State(Finish(s.record, s.held[i], a, e.now), s.held[..i] + s.held[i + 1..])
  }

  ghost predicate Run(s: State, events: seq<Event>)
    decreases |events|
  {
    events == [] || (Enabled(s, events[0].step) && Run(Next(s, events[0]), events[1..]))
  }

  ghost function Final(s: State, events: seq<Event>): State
    requires Run(s, events)
    decreases |events|
  {
    if events == [] then s else Final(Next(s, events[0]), events[1..])
  }

  /** Every body arrives while its handler is safe. */
  ghost predicate SafeRun(s: State, events: seq<Event>)
    requires Run(s, events)
    decreases |events|
  {
    events == [] ||
    (&& (events[0].step.Arrives? ==> Safe(s.held[events[0].step.i], s.record.task))
     && SafeRun(Next(s, events[0]), events[1..]))
  }

  ghost predicate StateOk(s: State) {
    Invariant(s.record) && forall i :: 0 <= i < |s.held| ==> HeldOk(s.held[i])
  }

  lemma NextKeeps(s: State, e: Event)
    requires StateOk(s) && Enabled(s, e.step)
    requires e.step.Arrives? ==> Safe(s.held[e.step.i], s.record.task)
    ensures StateOk(Next(s, e))
  {
    match e.step
    case AtOnce(request) => HandleKeeps(s.record, request, e.now);
    case Arrives(i, a) => FinishKeeps(s.record, s.held[i], a, e.now);
    case _ =>
  }

  lemma {:induction false} SafeRunKeeps(s: State, events: seq<Event>)
    requires StateOk(s) && Run(s, events) && SafeRun(s, events)
    ensures StateOk(Final(s, events))
    decreases |events|
  {
    if events != [] {
      NextKeeps(s, events[0]);
      SafeRunKeeps(Next(s, events[0]), events[1..]);
    }
  }

  /** On every interleaved run of a new task whose bodies arrive while their handlers are
      safe, all rules hold at the end. */
  lemma SafeInterleavingsAreConsistent(human: bool, events: seq<Event>)
    requires Run(State(NewTask(human), []), events) && SafeRun(State(NewTask(human), []), events)
    ensures Consistent(Final(State(NewTask(human), []), events).record)
  {
    NewTaskOk(human);
    SafeRunKeeps(State(NewTask(human), []), events);
  }

  /** And only there, as far as one arrival can tell: what is not safe can be made to
      break a rule. */
  lemma UnsafeArrivalBreaks(r: Record, h: Held, now: Time) returns (a: Arrival)
    requires Invariant(r) && HeldOk(h) && !Safe(h, r.task)
    ensures Fits(h, a) && !Invariant(Finish(r, h, a, now))
  {
    match h
    case PutHeld(read) =>
      LatePutKeepsInvariantExactlyWhen(r, read, now);
      var body :| !Invariant(FinishPut(r, read, body, now).0);
      a := BodyArrives(body);
    case SubmitHeld =>
      LateSubmitKeepsInvariantExactlyWhen(r, "plan");
      a := PlanArrives("plan");
    case RejectHeld =>
      LateRejectKeepsInvariantExactlyWhen(r, "");
      a := ReasonArrives("");
  }

  /** A task that is over stays over on every safe interleaved run. */
  lemma {:induction false} OverStaysOver(s: State, events: seq<Event>)
    requires StateOk(s) && Run(s, events) && SafeRun(s, events) && Over(s.record.task)
    ensures Final(s, events).record.task.status == s.record.task.status
    decreases |events|
  {
    if events != [] {
      NextKeeps(s, events[0]);
      NextKeepsOver(s, events[0]);
      OverStaysOver(Next(s, events[0]), events[1..]);
    }
  }

  lemma NextKeepsOver(s: State, e: Event)
    requires Enabled(s, e.step) && Over(s.record.task)
    requires e.step.Arrives? ==> Safe(s.held[e.step.i], s.record.task)
    ensures Next(s, e).record.task.status == s.record.task.status
  {
    match e.step
    case AtOnce(request) => HandleKeepsOver(s.record, request, e.now);
    case Arrives(i, a) =>
      if a.BodyArrives? {
        LatePutStatusExactlyWhen(s.held[i].read, s.record.task, e.now);
        assert AlongEdge(s.record.task.status, LatePut(s.held[i].read, s.record.task, a.body, e.now).status);
      }
    case _ =>
  }

  ghost predicate Dated(task: Task) {
    Terminal(task.status) ==> task.completedAt.Some?
  }

  lemma NextDates(s: State, e: Event)
    requires Enabled(s, e.step) && Dated(s.record.task)
    ensures Dated(Next(s, e).record.task)
  {
    if e.step.Arrives? && e.step.arrival.BodyArrives? {
      LatePutCompletes(s.held[e.step.i].read, s.record.task, e.step.arrival.body, e.now);
    }
  }

  /** One rule needs no condition: on every interleaved run, safe or not, a finished task
      has a completion time. */
  lemma {:induction false} FinishedTasksAreDated(s: State, events: seq<Event>)
    requires Run(s, events) && Dated(s.record.task)
    ensures Dated(Final(s, events).record.task)
    decreases |events|
  {
    if events != [] {
      NextDates(s, events[0]);
      FinishedTasksAreDated(Next(s, events[0]), events[1..]);
    }
  }
}
