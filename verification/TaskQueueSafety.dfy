/** What every sequence of uninterrupted task requests keeps. */
module TaskQueueSafety {
  import opened Wrappers
  import opened TaskQueue

  // ---- The invariant of a record ----

  ghost predicate RowOk(task: Task) {
    && !BadAssignee(task.status, task.assignee)
    && (Terminal(task.status) ==> task.completedAt.Some?)
  }

  /** A submitted plan is the text last submitted. */
  ghost predicate PlanOk(r: Record) {
    r.task.planStatus.Submitted? ==>
      r.submissions != [] && r.task.plan == Some(r.submissions[|r.submissions| - 1])
  }

  ghost predicate AlongEdge(from: Status, to: Status) {
    to == from || to in ValidTransitions(from)
  }

  /** A plan may be submitted at any time; only a submitted one is decided. */
  ghost predicate AlongPlanEdge(from: PlanStatus, to: PlanStatus) {
    to == from || to.Submitted? || (from.Submitted? && !to.NoPlan?)
  }

  /** Every change of status was along an edge, and the last status is current. */
  ghost predicate StatusesOk(statuses: seq<Status>, current: Status) {
    && statuses != [] && statuses[0] == Pending && statuses[|statuses| - 1] == current
    && forall i :: 0 < i < |statuses| ==> statuses[i] in ValidTransitions(statuses[i - 1])
  }

  ghost predicate PlanStatusesOk(statuses: seq<PlanStatus>, current: PlanStatus) {
    && statuses != [] && statuses[0] == NoPlan && statuses[|statuses| - 1] == current
    && forall i :: 0 < i < |statuses| ==> AlongPlanEdge(statuses[i - 1], statuses[i])
  }

  ghost predicate HistoryOk(r: Record) {
    StatusesOk(r.statuses, r.task.status) && PlanStatusesOk(r.planStatuses, r.task.planStatus)
  }

  ghost predicate Invariant(r: Record) {
    RowOk(r.task) && PlanOk(r) && HistoryOk(r)
  }

  // ---- Writing a row ----

  lemma StatusesKeptExactlyWhen(statuses: seq<Status>, from: Status, to: Status)
    requires StatusesOk(statuses, from)
    ensures StatusesOk(Noted(statuses, from, to), to) <==> AlongEdge(from, to)
  {
    var t := statuses + [to];
    assert t[|statuses| - 1] == from && t[|statuses|] == to;
    assert forall i :: 0 <= i < |statuses| ==> t[i] == statuses[i];
  }

  lemma PlanStatusesKeptExactlyWhen(statuses: seq<PlanStatus>, from: PlanStatus, to: PlanStatus)
    requires PlanStatusesOk(statuses, from)
    ensures PlanStatusesOk(Noted(statuses, from, to), to) <==> AlongPlanEdge(from, to)
  {
    var t := statuses + [to];
    assert t[|statuses| - 1] == from && t[|statuses|] == to;
    assert forall i :: 0 <= i < |statuses| ==> t[i] == statuses[i];
  }

  /** What a new row has to meet. */
  ghost predicate GoodWrite(r: Record, task: Task) {
    RowOk(task) && AlongEdge(r.task.status, task.status) && AlongPlanEdge(r.task.planStatus, task.planStatus)
  }

  lemma WriteKeepsExactlyWhen(r: Record, task: Task, submissions: seq<string>)
    requires Invariant(r)
    ensures var t := WithTask(r, task).(submissions := submissions);
            Invariant(t) <==> GoodWrite(r, task) && PlanOk(t)
  {
    StatusesKeptExactlyWhen(r.statuses, r.task.status, task.status);
    PlanStatusesKeptExactlyWhen(r.planStatuses, r.task.planStatus, task.planStatus);
  }

  // ---- The handlers ----

  /** An accepted PUT, applied to the row it was decided on. */
  lemma PutKeeps(task: Task, body: Body, now: Time)
    requires RowOk(task) && PreparePut(task, body, now).Accepted?
    ensures var t := ApplyUpdates(task, PreparePut(task, body, now).updates);
            && RowOk(t)
            && AlongEdge(task.status, t.status)
            && t.planStatus == task.planStatus
            && (task.planStatus.Submitted? ==> t.plan == task.plan)
  {
  }

  lemma FinishPutKeeps(r: Record, body: Body, now: Time)
    requires Invariant(r)
    ensures Invariant(FinishPut(r, r.task, body, now).0)
  {
    var reply := PreparePut(r.task, body, now);
    if reply.Accepted? {
      PutKeeps(r.task, body, now);
      WriteKeepsExactlyWhen(r, ApplyUpdates(r.task, reply.updates), r.submissions);
    }
  }

  lemma SubmitKeeps(r: Record, plan: string)
    requires Invariant(r) && CanSubmit(r.task)
    ensures Invariant(FinishSubmit(r, plan).0)
  {
    var task := r.task.(plan := Some(plan), planStatus := Submitted, status := AwaitingApproval);
    WriteKeepsExactlyWhen(r, task, r.submissions + [plan]);
  }

  lemma RejectKeeps(r: Record, reason: string)
    requires Invariant(r) && CanDecide(r.task)
    ensures Invariant(FinishReject(r, reason).0)
  {
    var task := r.task.(planStatus := PlanRejected, planRejectedReason := Some(reason), status := InProgress);
    WriteKeepsExactlyWhen(r, task, r.submissions);
  }

  lemma HandleKeeps(r: Record, request: Request, now: Time)
    requires Invariant(r)
    ensures Invariant(Handle(r, request, now).0)
  {
    var task := r.task;
    match request
    case Put(body) => FinishPutKeeps(r, body, now);
    case Retry =>
      WriteKeepsExactlyWhen(r, task.(status := Pending, assignee := None, error := None, result := None,
                                     retryCount := task.retryCount + 1, completedAt := None), r.submissions);
    case Cancel => WriteKeepsExactlyWhen(r, task.(status := Cancelled, completedAt := Some(now)), r.submissions);
    case SubmitPlan(plan) => if CanSubmit(task) { SubmitKeeps(r, plan); }
    case ApprovePlan =>
      WriteKeepsExactlyWhen(r, task.(planStatus := PlanApproved, status := InProgress), r.submissions);
    case RejectPlan(reason) => if CanDecide(task) { RejectKeeps(r, reason); }
  }

  // ---- Runs ----

  datatype Event = Event(id: TaskId, request: Request, now: Time)

  function After(records: map<TaskId, Record>, e: Event): map<TaskId, Record> {
    HandleAt(records, e.id, e.request, e.now).0
  }

  function Final(records: map<TaskId, Record>, events: seq<Event>): map<TaskId, Record>
    decreases |events|
  {
    if events == [] then records else Final(After(records, events[0]), events[1..])
  }

  ghost predicate AllOk(records: map<TaskId, Record>) {
    forall id :: id in records ==> Invariant(records[id])
  }

  lemma AfterKeeps(records: map<TaskId, Record>, e: Event)
    requires AllOk(records)
    ensures AllOk(After(records, e)) && After(records, e).Keys == records.Keys
  {
    if e.id in records {
      HandleKeeps(records[e.id], e.request, e.now);
    }
  }

  lemma {:induction false} RunKeeps(records: map<TaskId, Record>, events: seq<Event>)
    requires AllOk(records)
    ensures AllOk(Final(records, events))
    decreases |events|
  {
    if events != [] {
      AfterKeeps(records, events[0]);
      RunKeeps(After(records, events[0]), events[1..]);
    }
  }

  lemma NewTaskOk(human: bool)
    ensures Invariant(NewTask(human))
  {
  }

  /** What the invariant says in full. */
  ghost predicate Consistent(r: Record) {
    && (forall i :: 0 < i < |r.statuses| ==> r.statuses[i] in ValidTransitions(r.statuses[i - 1]))
    && (forall i :: 0 < i < |r.planStatuses| ==> AlongPlanEdge(r.planStatuses[i - 1], r.planStatuses[i]))
    && (r.task.status.Pending? ==> r.task.assignee == None)
    && (r.task.status.Assigned? ==> r.task.assignee.Some? && r.task.assignee.value != "")
    && (Terminal(r.task.status) ==> r.task.completedAt.Some?)
    && (r.task.planStatus.Submitted? ==>
          r.submissions != [] && r.task.plan == Some(r.submissions[|r.submissions| - 1]))
  }

  /** After any sequence of uninterrupted requests on freshly created tasks: both
      histories walk along edges, pending tasks have no assignee, assigned ones have
      one, finished ones have a completion time, and a submitted plan is the one last
      submitted. */
  lemma TasksStayConsistent(records: map<TaskId, Record>, events: seq<Event>, id: TaskId)
    requires forall k :: k in records ==> records[k] == NewTask(records[k].task.human)
    requires id in Final(records, events)
    ensures Consistent(Final(records, events)[id])
  {
    forall k | k in records ensures Invariant(records[k]) {
      NewTaskOk(records[k].task.human);
    }
    RunKeeps(records, events);
  }

  /** What gets approved is what was submitted last, and approving does not change it. */
  lemma ApprovalIsOfTheLatestPlan(r: Record, now: Time)
    requires Invariant(r) && Handle(r, ApprovePlan, now).1 == 200
    ensures r.submissions != []
    ensures Handle(r, ApprovePlan, now).0.task.plan == Some(r.submissions[|r.submissions| - 1])
    ensures Handle(r, ApprovePlan, now).0.task.planStatus == PlanApproved
  {
  }

  ghost predicate Over(task: Task) {
    task.status.Completed? || task.status.Cancelled?
  }

  lemma HandleKeepsOver(r: Record, request: Request, now: Time)
    requires Over(r.task)
    ensures Handle(r, request, now).0.task.status == r.task.status
  {
  }

  /** Completed and cancelled are absorbing, whatever is requested without interruption. */
  lemma {:induction false} FinishedTasksStayFinished(records: map<TaskId, Record>, events: seq<Event>, id: TaskId)
    requires id in records && Over(records[id].task)
    ensures id in Final(records, events)
    ensures Final(records, events)[id].task.status == records[id].task.status
    decreases |events|
  {
    if events != [] {
      if events[0].id == id {
        HandleKeepsOver(records[events[0].id], events[0].request, events[0].now);
      }
      FinishedTasksStayFinished(After(records, events[0]), events[1..], id);
    }
  }
}
