/** Orchestrator tasks: the request handlers of daemon/src/api/task-queue.ts that
    change a task's row. */
module TaskQueue {
  import opened Wrappers

  type TaskId = nat
  type Time = int

  datatype Status = Pending | Assigned | InProgress | AwaitingApproval | Completed | Failed | Cancelled
  datatype PlanStatus = NoPlan | Submitted | PlanApproved | PlanRejected

  datatype Task = Task(
    status: Status, assignee: Option<string>,
    plan: Option<string>, planStatus: PlanStatus, planRejectedReason: Option<string>,
    assignedAt: Option<Time>, startedAt: Option<Time>, completedAt: Option<Time>,
    result: Option<string>, error: Option<string>, retryCount: nat,
    acknowledgedAt: Option<string>, human: bool)

  function ValidTransitions(from: Status): set<Status> {
    match from
    case Pending => {Assigned, Failed, Cancelled}
    case Assigned => {InProgress, Failed, Pending, Cancelled}
    case InProgress => {Completed, Failed, Cancelled, AwaitingApproval}
    case AwaitingApproval => {InProgress, Cancelled}
    case Completed => {}
    case Failed => {Pending, Completed, Cancelled}
    case Cancelled => {}
  }

  predicate Terminal(status: Status) {
    status.Completed? || status.Failed? || status.Cancelled?
  }

  // ---- Status words ----

  function ParseStatus(word: string): Option<Status> {
    if word == "pending" then Some(Pending)
    else if word == "assigned" then Some(Assigned)
    else if word == "in_progress" then Some(InProgress)
    else if word == "awaiting_approval" then Some(AwaitingApproval)
    else if word == "completed" then Some(Completed)
    else if word == "failed" then Some(Failed)
    else if word == "cancelled" then Some(Cancelled)
    else None
  }

  function Word(status: Status): string {
    match status
    case Pending => "pending"
    case Assigned => "assigned"
    case InProgress => "in_progress"
    case AwaitingApproval => "awaiting_approval"
    case Completed => "completed"
    case Failed => "failed"
    case Cancelled => "cancelled"
  }

  function Lower(word: string): (r: string)
    ensures |r| == |word|
  {
    if word == [] then []
    else [if 'A' <= word[0] <= 'Z' then word[0] + 32 as char else word[0]] + Lower(word[1..])
  }

  function NormalizeStatusAlias(word: string): string {
    var lower := Lower(word);
    if lower == "done" then "completed" else if lower == "wip" then "in_progress" else word
  }

  // ---- PUT ----

  /** A PUT body: an absent field is None, a null one Some(None). `otherUpdate` stands
      for work notes and outcome fields, `commsFeedback` for the two feedback fields,
      and `invalidField` for a field value that is rejected before anything is
      written. */
  datatype Body = Body(
    status: Option<string>, assignee: Option<Option<string>>, plan: Option<Option<string>>,
    result: Option<Option<string>>, error: Option<Option<string>>,
    otherUpdate: bool, commsFeedback: bool, acknowledgedAt: Option<Option<string>>,
    fromComms: bool, invalidField: bool)

  /** The columns an UPDATE statement sets. */
  datatype Updates = Updates(
    status: Option<Status>, assignee: Option<Option<string>>, plan: Option<Option<string>>,
    assignedAt: Option<Time>, startedAt: Option<Time>, completedAt: Option<Time>,
    result: Option<Option<string>>, error: Option<Option<string>>, acknowledgedAt: Option<Option<string>>)

  datatype Reply = Accepted(updates: Updates) | Refused(code: nat)

  predicate Blank(s: Option<string>) {
    s.None? || s.value == ""
  }

  /** True if the combination is refused. */
  predicate BadAssignee(status: Status, assignee: Option<string>) {
    || (status.Pending? && assignee.Some?)
    || (status.Assigned? && Blank(assignee))
  }

  predicate HasFeedback(body: Body) {
    body.commsFeedback || body.acknowledgedAt.Some?
  }

  predicate HasNonFeedback(body: Body) {
    || body.status.Some? || body.assignee.Some? || body.result.Some?
    || body.error.Some? || body.otherUpdate || body.plan.Some?
  }

  /** The escape valve looks at the status word before aliases are applied. */
  predicate EscapesFailed(task: Task, body: Body) {
    && task.status.Failed? && body.status.Some?
    && ParseStatus(body.status.value).Some?
    && ParseStatus(body.status.value).value in ValidTransitions(Failed)
  }

  /** What a PUT does, decided on the row it read. */
  function PreparePut(task: Task, body: Body, now: Time): Reply {
    if body.acknowledgedAt.Some? && !Terminal(task.status) then Refused(409)
    else if body.acknowledgedAt.Some? && task.human && !body.fromComms then Refused(403)
    else if Terminal(task.status) && !EscapesFailed(task, body) && (HasNonFeedback(body) || !HasFeedback(body))
    then Refused(409)
    else
      var target :=
        if body.status.None? then Some(task.status)
        else ParseStatus(NormalizeStatusAlias(body.status.value));
      if target.None? then Refused(400)
      else if body.status.Some? && target.value !in ValidTransitions(task.status) then Refused(409)
      else
        var changed := body.status.Some?;
        var assignee :=
          if body.assignee.Some? then body.assignee
          else if changed && target.value.Pending? then Some(None)
          else None;
        var finalAssignee := if assignee.Some? then assignee.value else task.assignee;
        if body.invalidField then Refused(400)
        else if body.plan.Some? && task.planStatus.Submitted? then Refused(409)
        else if BadAssignee(target.value, finalAssignee) then Refused(400)
        else
          var assignedNow := task.assignedAt.None? &&
            ((changed && target.value.Assigned?) || (body.assignee.Some? && !Blank(body.assignee.value)));
          Accepted(Updates(
            if changed then target else None,
            assignee,
            body.plan,
            if assignedNow then Some(now) else None,
            if changed && target.value.InProgress? && task.startedAt.None? then Some(now) else None,
            if changed && Terminal(target.value) then Some(now) else None,
            body.result, body.error, body.acknowledgedAt))
  }

  function Either<T>(update: Option<T>, current: T): T {
    if update.Some? then update.value else current
  }

  /** UPDATE tasks SET ... touches only the listed columns of the current row. */
  function ApplyUpdates(task: Task, u: Updates): Task {
    task.(status := Either(u.status, task.status),
          assignee := Either(u.assignee, task.assignee),
          plan := Either(u.plan, task.plan),
          assignedAt := if u.assignedAt.Some? then u.assignedAt else task.assignedAt,
          startedAt := if u.startedAt.Some? then u.startedAt else task.startedAt,
          completedAt := if u.completedAt.Some? then u.completedAt else task.completedAt,
          result := Either(u.result, task.result),
          error := Either(u.error, task.error),
          acknowledgedAt := Either(u.acknowledgedAt, task.acknowledgedAt))
  }

  // ---- The other handlers ----

  datatype Request =
    | Put(body: Body)
    | Retry
    | Cancel
    | SubmitPlan(plan: string)
    | ApprovePlan
    | RejectPlan(reason: string)

  /** A task row, the texts of its accepted plan submissions, and the statuses and plan
      statuses it has had. */
  datatype Record = Record(task: Task, submissions: seq<string>, statuses: seq<Status>, planStatuses: seq<PlanStatus>)

  function NewTask(human: bool): Record {
    Record(Task(Pending, None, None, NoPlan, None, None, None, None, None, None, 0, None, human),
           [], [Pending], [NoPlan])
  }

  function Noted<T(==)>(history: seq<T>, before: T, after: T): seq<T> {
    if after == before then history else history + [after]
  }

  function WithTask(r: Record, task: Task): Record {
    r.(task := task,
       statuses := Noted(r.statuses, r.task.status, task.status),
       planStatuses := Noted(r.planStatuses, r.task.planStatus, task.planStatus))
  }

  // ---- What three handlers do after waiting for the request body ----

  /** A PUT decides on the row it read, and writes the row that is there now. */
  function FinishPut(r: Record, read: Task, body: Body, now: Time): (Record, nat) {
    match PreparePut(read, body, now)
    case Refused(code) => (r, code)
    case Accepted(u) => (WithTask(r, ApplyUpdates(r.task, u)), 200)
  }

  /** A submission checked the status before; the plan is checked now. */
  function FinishSubmit(r: Record, plan: string): (Record, nat) {
    if plan == "" then (r, 400)
    else (WithTask(r, r.task.(plan := Some(plan), planStatus := Submitted, status := AwaitingApproval))
            .(submissions := r.submissions + [plan]), 200)
  }

  function FinishReject(r: Record, reason: string): (Record, nat) {
    (WithTask(r, r.task.(planStatus := PlanRejected, planRejectedReason := Some(reason), status := InProgress)), 200)
  }

  /** What submitting and deciding check on the row they read. */
  predicate CanSubmit(task: Task) {
    task.status.InProgress?
  }

  predicate CanDecide(task: Task) {
    task.status.AwaitingApproval? && task.planStatus.Submitted?
  }

  /** One request handled without interruption; the code is the HTTP status. */
  function Handle(r: Record, request: Request, now: Time): (Record, nat) {
    var task := r.task;
    match request
    case Put(body) => FinishPut(r, task, body, now)
    case Retry =>
      if !task.status.Failed? then (r, 409)
      else (WithTask(r, task.(status := Pending, assignee := None, error := None, result := None,
                              retryCount := task.retryCount + 1, completedAt := None)), 200)
    case Cancel =>
      if Terminal(task.status) then (r, 409)
      else (WithTask(r, task.(status := Cancelled, completedAt := Some(now))), 200)
    case SubmitPlan(plan) => if !CanSubmit(task) then (r, 409) else FinishSubmit(r, plan)
    case ApprovePlan =>
      if !CanDecide(task) then (r, 409)
      else (WithTask(r, task.(planStatus := PlanApproved, status := InProgress)), 200)
    case RejectPlan(reason) => if !CanDecide(task) then (r, 409) else FinishReject(r, reason)
  }

  /** A handler that read its row and goes on when the body is there, or that has
      answered. */
  datatype Read = Found(task: Task) | Answered(code: nat)

  /** A request for a task that may not exist. */
  function HandleAt(records: map<TaskId, Record>, id: TaskId, request: Request, now: Time): (map<TaskId, Record>, nat) {
    if id !in records then (records, 404)
    else var (r, code) := Handle(records[id], request, now); (records[id := r], code)
  }

  /** The table as it is written: each handler reads a row, fills an updates record or
      names its columns, and writes the row. */
  class Tasks {
    var records: map<TaskId, Record>

    constructor ()
      ensures records == map[]
    {
      records := map[];
    }

    method Create(id: TaskId, human: bool)
      requires id !in records
      modifies this
      ensures records == old(records)[id := NewTask(human)]
    {
      records := records[id := NewTask(human)];
    }

    method Write(id: TaskId, task: Task)
      requires id in records
      modifies this
      ensures records == old(records)[id := WithTask(old(records)[id], task)]
    {
      records := records[id := WithTask(records[id], task)];
    }

    /** Everything a PUT decides before it writes, on the row it has read. */
    method FillUpdates(task: Task, body: Body, now: Time) returns (reply: Reply)
      ensures reply == PreparePut(task, body, now)
    {
      if body.acknowledgedAt.Some? && !Terminal(task.status) {
        return Refused(409);
      }
      if body.acknowledgedAt.Some? && task.human && !body.fromComms {
        return Refused(403);
      }
      if Terminal(task.status) && !EscapesFailed(task, body) {
        if HasNonFeedback(body) || !HasFeedback(body) {
          return Refused(409);
        }
      }
      var updates := Updates(None, None, None, None, None, None, None, None, None);
      var targetStatus, targetAssignee := task.status, task.assignee;
      if body.status.Some? {
        var newStatus := ParseStatus(NormalizeStatusAlias(body.status.value));
        if newStatus.None? {
          return Refused(400);
        }
        if newStatus.value !in ValidTransitions(task.status) {
          return Refused(409);
        }
        targetStatus := newStatus.value;
        updates := updates.(status := newStatus);
        if targetStatus.Assigned? && task.assignedAt.None? {
          updates := updates.(assignedAt := Some(now));
        }
        if targetStatus.InProgress? && task.startedAt.None? {
          updates := updates.(startedAt := Some(now));
        }
        if Terminal(targetStatus) {
          updates := updates.(completedAt := Some(now));
        }
        if targetStatus.Pending? {
          targetAssignee := None;
          updates := updates.(assignee := Some(None));
        }
      }
      if body.assignee.Some? {
        targetAssignee := body.assignee.value;
        updates := updates.(assignee := Some(targetAssignee));
        if !Blank(targetAssignee) && task.assignedAt.None? && updates.assignedAt.None? {
          updates := updates.(assignedAt := Some(now));
        }
      }
      updates := updates.(result := body.result, error := body.error, acknowledgedAt := body.acknowledgedAt);
      if body.invalidField {
        return Refused(400);
      }
      if body.plan.Some? {
        if task.planStatus.Submitted? {
          return Refused(409);
        }
        updates := updates.(plan := body.plan);
      }
      if BadAssignee(targetStatus, targetAssignee) {
        return Refused(400);
      }
      return Accepted(updates);
    }

    /** A PUT before it waits for its body. */
    method ReadForPut(id: TaskId) returns (r: Read)
      ensures r == if id in records then Found(records[id].task) else Answered(404)
    {
      if id !in records {
        return Answered(404);
      }
      return Found(records[id].task);
    }

    /** And after: `task` is the row it read. */
    method PutTask(id: TaskId, task: Task, body: Body, now: Time) returns (code: nat)
      requires id in records
      modifies this
      ensures (records, code) == var (r, c) := FinishPut(old(records)[id], task, body, now); (old(records)[id := r], c)
    {
      var reply := FillUpdates(task, body, now);
      match reply
      case Refused(c) =>
        code := c;
        assert records == old(records)[id := old(records)[id]];
      case Accepted(updates) =>
        Write(id, ApplyUpdates(records[id].task, updates));
        code := 200;
    }

    method RetryTask(id: TaskId, now: Time) returns (code: nat)
      modifies this
      ensures (records, code) == HandleAt(old(records), id, Retry, now)
    {
      if id !in records {
        return 404;
      }
      var task := records[id].task;
      if !task.status.Failed? {
        assert records == old(records)[id := old(records)[id]];
        return 409;
      }
      var newRetryCount := task.retryCount + 1;
      Write(id, task.(status := Pending, assignee := None, error := None, result := None,
                      retryCount := newRetryCount, completedAt := None));
      return 200;
    }

    method CancelTask(id: TaskId, now: Time) returns (code: nat)
      modifies this
      ensures (records, code) == HandleAt(old(records), id, Cancel, now)
    {
      if id !in records {
        return 404;
      }
      var task := records[id].task;
      if Terminal(task.status) {
        assert records == old(records)[id := old(records)[id]];
        return 409;
      }
      Write(id, task.(status := Cancelled, completedAt := Some(now)));
      return 200;
    }

    /** A plan submission before it waits for its body. */
    method ReadForSubmit(id: TaskId) returns (r: Read)
      ensures r == if id !in records then Answered(404)
                   else if !CanSubmit(records[id].task) then Answered(409)
                   else Found(records[id].task)
    {
      if id !in records {
        return Answered(404);
      }
      var task := records[id].task;
      return if !task.status.InProgress? then Answered(409) else Found(task);
    }

    method SubmitPlanFor(id: TaskId, plan: string) returns (code: nat)
      requires id in records
      modifies this
      ensures (records, code) == var (r, c) := FinishSubmit(old(records)[id], plan); (old(records)[id := r], c)
    {
      if plan == "" {
        assert records == old(records)[id := old(records)[id]];
        return 400;
      }
      Write(id, records[id].task.(plan := Some(plan), planStatus := Submitted, status := AwaitingApproval));
      records := records[id := records[id].(submissions := records[id].submissions + [plan])];
      assert records == old(records)[id := records[id]];
      return 200;
    }

    method Approve(id: TaskId, now: Time) returns (code: nat)
      modifies this
      ensures (records, code) == HandleAt(old(records), id, ApprovePlan, now)
    {
      if id !in records {
        return 404;
      }
      var task := records[id].task;
      if !task.status.AwaitingApproval? || !task.planStatus.Submitted? {
        assert records == old(records)[id := old(records)[id]];
        return 409;
      }
      Write(id, task.(planStatus := PlanApproved, status := InProgress));
      return 200;
    }

    /** A rejection before it waits for its body. */
    method ReadForReject(id: TaskId) returns (r: Read)
      ensures r == if id !in records then Answered(404)
                   else if !CanDecide(records[id].task) then Answered(409)
                   else Found(records[id].task)
    {
      if id !in records {
        return Answered(404);
      }
      var task := records[id].task;
      if !task.status.AwaitingApproval? || !task.planStatus.Submitted? {
        return Answered(409);
      }
      return Found(task);
    }

    method Reject(id: TaskId, reason: string) returns (code: nat)
      requires id in records
      modifies this
      ensures (records, code) == var (r, c) := FinishReject(old(records)[id], reason); (old(records)[id := r], c)
    {
      Write(id, records[id].task.(planStatus := PlanRejected, planRejectedReason := Some(reason),
                                  status := InProgress));
      return 200;
    }
  }
}
