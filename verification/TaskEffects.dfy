/** What each task request writes and answers (daemon/src/api/task-queue.ts), column by
    column and code by code. */
module TaskEffects {
  import opened Wrappers
  import opened TaskQueue
  import opened TaskInterleaving

  // ---- Words ----

  /** What a status word means: the status of that name, or one of two aliases in any case. */
  ghost predicate Means(word: string, status: Status) {
    || word == Word(status)
    || (status.Completed? && Lower(word) == "done")
    || (status.InProgress? && Lower(word) == "wip")
  }

  lemma WordsMean(word: string, status: Status)
    ensures ParseStatus(NormalizeStatusAlias(word)) == Some(status) <==> Means(word, status)
  {
    WordsParse(status);
    assert |Lower(word)| == |word|;
    assert |"done"| == 4 && |"wip"| == 3;
    if word == Word(status) {
    } else if Lower(word) == "done" {
      WordsParse(Completed);
    } else if Lower(word) == "wip" {
      WordsParse(InProgress);
    }
  }

  ghost predicate Unknown(word: string) {
    forall status :: !Means(word, status)
  }

  lemma UnknownExactlyWhen(word: string)
    ensures Unknown(word) <==> ParseStatus(NormalizeStatusAlias(word)) == None
  {
    forall status ensures Means(word, status) <==> ParseStatus(NormalizeStatusAlias(word)) == Some(status) {
      WordsMean(word, status);
    }
    if ParseStatus(NormalizeStatusAlias(word)).Some? {
      assert Means(word, ParseStatus(NormalizeStatusAlias(word)).value);
    }
  }

  /** The table of status changes, by name. */
  ghost predicate Leads(from: string, to: string) {
    || (from == "pending" && to in {"assigned", "failed", "cancelled"})
    || (from == "assigned" && to in {"in_progress", "failed", "pending", "cancelled"})
    || (from == "in_progress" && to in {"completed", "failed", "cancelled", "awaiting_approval"})
    || (from == "awaiting_approval" && to in {"in_progress", "cancelled"})
    || (from == "failed" && to in {"pending", "completed", "cancelled"})
  }

  lemma TransitionsAre(from: Status, to: Status)
    ensures to in ValidTransitions(from) <==> Leads(Word(from), Word(to))
  {
  }

  lemma TerminalExactlyWhen(status: Status)
    ensures Terminal(status) <==> Word(status) in {"completed", "failed", "cancelled"}
  {
  }

  // ---- What a PUT writes ----

  /** The column is the body's, where the body has the field, and the current row's
      otherwise. */
  ghost predicate Taken<T(!new)>(field: Option<T>, current: T, written: T) {
    written == match field case Some(v) => v case None => current
  }

  ghost predicate AsksFor(body: Body, status: Status) {
    body.status.Some? && Means(body.status.value, status)
  }

  /** A name that is given, and not empty. */
  ghost predicate Names(assignee: Option<Option<string>>) {
    assignee.Some? && assignee.value.Some? && assignee.value.value != ""
  }

  lemma PutFields(r: Record, read: Task, body: Body, now: Time)
    requires FinishPut(r, read, body, now).1 == 200
    ensures var t := FinishPut(r, read, body, now).0.task;
            && Taken(body.result, r.task.result, t.result)
            && Taken(body.error, r.task.error, t.error)
            && Taken(body.acknowledgedAt, r.task.acknowledgedAt, t.acknowledgedAt)
            && Taken(body.plan, r.task.plan, t.plan)
            && t.planStatus == r.task.planStatus && t.planRejectedReason == r.task.planRejectedReason
            && t.retryCount == r.task.retryCount && t.human == r.task.human
    ensures FinishPut(r, read, body, now).0.submissions == r.submissions
  {
  }

  /** The status is the one the body asks for, and the assignee the body's, except that a
      task that becomes pending has none. */
  lemma PutStatus(r: Record, read: Task, body: Body, now: Time)
    requires FinishPut(r, read, body, now).1 == 200
    ensures var t := FinishPut(r, read, body, now).0.task;
            && (body.status.None? ==> t.status == r.task.status)
            && (body.status.Some? ==> Means(body.status.value, t.status) && Leads(Word(read.status), Word(t.status)))
            && (if AsksFor(body, Pending) then t.assignee == None
                else Taken(body.assignee, r.task.assignee, t.assignee))
  {
    if body.status.Some? {
      var target := ParseStatus(NormalizeStatusAlias(body.status.value));
      UnknownExactlyWhen(body.status.value);
      WordsMean(body.status.value, target.value);
      WordsMean(body.status.value, Pending);
      TransitionsAre(read.status, target.value);
    }
  }

  /** The times of the first assignment and the first start are set exactly then, by the row
      that was read; the completion time is set exactly when the body asks for an end. */
  lemma PutTimes(r: Record, read: Task, body: Body, now: Time)
    requires FinishPut(r, read, body, now).1 == 200
    ensures var t := FinishPut(r, read, body, now).0.task;
            && t.assignedAt == (if read.assignedAt == None && (AsksFor(body, Assigned) || Names(body.assignee))
                                then Some(now) else r.task.assignedAt)
            && t.startedAt == (if read.startedAt == None && AsksFor(body, InProgress)
                               then Some(now) else r.task.startedAt)
            && t.completedAt == (if AsksFor(body, Completed) || AsksFor(body, Failed) || AsksFor(body, Cancelled)
                                 then Some(now) else r.task.completedAt)
  {
    if body.status.Some? {
      WordsMean(body.status.value, Assigned);
      WordsMean(body.status.value, InProgress);
      WordsMean(body.status.value, Completed);
      WordsMean(body.status.value, Failed);
      WordsMean(body.status.value, Cancelled);
    }
  }

  // ---- What a PUT answers ----

  ghost predicate Finished(read: Task) {
    read.status.Completed? || read.status.Failed? || read.status.Cancelled?
  }

  /** An acknowledgement of a task that goes on. */
  ghost predicate AcknowledgesEarly(read: Task, body: Body) {
    body.acknowledgedAt.Some? && !Finished(read)
  }

  /** An acknowledgement, by another agent, of a finished task a human asked for. */
  ghost predicate AcknowledgesForHuman(read: Task, body: Body) {
    body.acknowledgedAt.Some? && Finished(read) && read.human && !body.fromComms
  }

  /** More than feedback, or nothing at all, about a finished task, unless it asks to leave
      the failed status by one of its three ways out, by its name. */
  ghost predicate TouchesFinished(read: Task, body: Body) {
    && Finished(read)
    && !(read.status.Failed? && body.status.Some? && body.status.value in {"pending", "completed", "cancelled"})
    && (|| body.status.Some? || body.assignee.Some? || body.result.Some? || body.error.Some?
        || body.otherUpdate || body.plan.Some?
        || !(body.commsFeedback || body.acknowledgedAt.Some?))
  }

  ghost predicate UnknownStatus(body: Body) {
    body.status.Some? && Unknown(body.status.value)
  }

  ghost predicate NoEdge(read: Task, body: Body) {
    exists status :: AsksFor(body, status) && !Leads(Word(read.status), Word(status))
  }

  ghost predicate ChangesWaitingPlan(read: Task, body: Body) {
    body.plan.Some? && read.planStatus.Submitted?
  }

  /** The row would be pending with an assignee, or assigned without one. */
  ghost predicate Misassigns(read: Task, body: Body) {
    || (AsksFor(body, Pending) && body.assignee.Some? && body.assignee.value.Some?)
    || (body.status.None? && read.status.Pending? &&
        match body.assignee case Some(a) => a.Some? case None => read.assignee.Some?)
    || ((AsksFor(body, Assigned) || (body.status.None? && read.status.Assigned?)) &&
        match body.assignee
        case Some(a) => a.None? || a.value == ""
        case None => read.assignee.None? || read.assignee.value == "")
  }

  /** The first objection wins. */
  function Answer(early: bool, human: bool, finished: bool, unknown: bool, edge: bool,
                  invalid: bool, plan: bool, misassigned: bool): nat
  {
    if early then 409 else if human then 403 else if finished then 409
    else if unknown then 400 else if edge then 409
    else if invalid then 400 else if plan then 409
    else if misassigned then 400 else 200
  }

  lemma ParsedExactlyWhen(word: string, status: Status)
    ensures ParseStatus(word) == Some(status) <==> word == Word(status)
  {
    WordsParse(status);
  }

  lemma EscapesExactlyWhen(read: Task, body: Body)
    ensures EscapesFailed(read, body) <==>
              read.status.Failed? && body.status.Some? && body.status.value in {"pending", "completed", "cancelled"}
  {
    if body.status.Some? {
      ParsedExactlyWhen(body.status.value, Pending);
      ParsedExactlyWhen(body.status.value, Completed);
      ParsedExactlyWhen(body.status.value, Cancelled);
    }
  }

  lemma NoEdgeExactlyWhen(read: Task, body: Body)
    requires body.status.Some?
    ensures var target := Target(read, body);
            NoEdge(read, body) <==> target.Some? && target.value !in ValidTransitions(read.status)
  {
    var target := ParseStatus(NormalizeStatusAlias(body.status.value));
    forall status
      ensures AsksFor(body, status) <==> target == Some(status)
      ensures status in ValidTransitions(read.status) <==> Leads(Word(read.status), Word(status))
    {
      WordsMean(body.status.value, status);
      TransitionsAre(read.status, status);
    }
    if target.Some? && target.value !in ValidTransitions(read.status) {
      assert AsksFor(body, target.value);
    }
  }

  lemma MisassignsExactlyWhen(read: Task, body: Body)
    requires !UnknownStatus(body)
    ensures Target(read, body).Some?
    ensures Misassigns(read, body) <==> BadAssignee(Target(read, body).value, FinalAssignee(read, body))
  {
    if body.status.Some? {
      UnknownExactlyWhen(body.status.value);
      WordsMean(body.status.value, Pending);
      WordsMean(body.status.value, Assigned);
    }
  }

  /** The status and the assignee a PUT would leave, as far as its status is known. */
  function Target(read: Task, body: Body): Option<Status> {
    if body.status.None? then Some(read.status) else ParseStatus(NormalizeStatusAlias(body.status.value))
  }

  function FinalAssignee(read: Task, body: Body): Option<string> {
    if body.assignee.Some? then body.assignee.value
    else if body.status.Some? && Target(read, body) == Some(Pending) then None else read.assignee
  }

  /** The checks in the order in which they are made. */
  lemma PutChecks(read: Task, body: Body, now: Time)
    ensures var target := Target(read, body);
            var code := match PreparePut(read, body, now) case Refused(code) => code case Accepted(_) => 200;
            code == Answer(AcknowledgesEarly(read, body), AcknowledgesForHuman(read, body),
                           Terminal(read.status) && !EscapesFailed(read, body) &&
                           (HasNonFeedback(body) || !HasFeedback(body)),
                           target.None?,
                           body.status.Some? && target.Some? && target.value !in ValidTransitions(read.status),
                           body.invalidField, ChangesWaitingPlan(read, body),
                           target.Some? && BadAssignee(target.value, FinalAssignee(read, body)))
  {
  }

  /** What a PUT is answered, for every row and body. */
  lemma PutAnswers(r: Record, read: Task, body: Body, now: Time)
    ensures FinishPut(r, read, body, now).1 ==
              Answer(AcknowledgesEarly(read, body), AcknowledgesForHuman(read, body), TouchesFinished(read, body),
                     UnknownStatus(body), NoEdge(read, body), body.invalidField,
                     ChangesWaitingPlan(read, body), Misassigns(read, body))
  {
    PutChecks(read, body, now);
    EscapesExactlyWhen(read, body);
    UnknownStatusExactlyWhen(read, body);
    if body.status.Some? {
      NoEdgeExactlyWhen(read, body);
    }
    if !UnknownStatus(body) {
      MisassignsExactlyWhen(read, body);
    }
  }

  lemma UnknownStatusExactlyWhen(read: Task, body: Body)
    ensures UnknownStatus(body) <==> Target(read, body).None?
  {
    if body.status.Some? {
      UnknownExactlyWhen(body.status.value);
    }
  }

  /** A refused PUT writes nothing; and 403 is answered exactly to another agent that
      acknowledges a finished task a human asked for. */
  lemma RefusedPutWritesNothing(r: Record, read: Task, body: Body, now: Time)
    ensures FinishPut(r, read, body, now).1 in {200, 400, 403, 409}
    ensures FinishPut(r, read, body, now).1 != 200 ==> FinishPut(r, read, body, now).0 == r
    ensures FinishPut(r, read, body, now).1 == 403 <==> AcknowledgesForHuman(read, body)
  {
    PutAnswers(r, read, body, now);
  }

  // ---- The other requests ----

  /** Nothing but the named columns changes. */
  ghost predicate SameBut(t: Task, u: Task, status: Status) {
    u == t.(status := status, assignee := u.assignee, plan := u.plan, planStatus := u.planStatus,
            planRejectedReason := u.planRejectedReason, completedAt := u.completedAt,
            result := u.result, error := u.error, retryCount := u.retryCount)
  }

  /** A retry is for failed tasks: pending again, without assignee, result, error and
      completion time, and counted. */
  lemma RetryDoes(r: Record, now: Time)
    ensures var (s, code) := Handle(r, Retry, now);
            && (code == 200 <==> Word(r.task.status) == "failed") && (code != 200 ==> code == 409 && s == r)
            && (code == 200 ==>
                  && SameBut(r.task, s.task, Pending)
                  && s.task.assignee == None && s.task.result == None && s.task.error == None
                  && s.task.completedAt == None && s.task.retryCount == r.task.retryCount + 1
                  && s.task.plan == r.task.plan && s.task.planStatus == r.task.planStatus
                  && s.task.planRejectedReason == r.task.planRejectedReason)
  {
  }

  /** A cancel is for unfinished tasks: cancelled now, and nothing else. */
  lemma CancelDoes(r: Record, now: Time)
    ensures var (s, code) := Handle(r, Cancel, now);
            && (code == 200 <==> !Finished(r.task)) && (code != 200 ==> code == 409 && s == r)
            && (code == 200 ==> s.task == r.task.(status := Cancelled, completedAt := Some(now)))
  {
  }

  /** A submission is for tasks in progress, of a text that is not empty; it waits for
      approval. */
  lemma SubmitDoes(r: Record, plan: string, now: Time)
    ensures var (s, code) := Handle(r, SubmitPlan(plan), now);
            && (code == 409 <==> !r.task.status.InProgress?)
            && (code == 400 <==> r.task.status.InProgress? && plan == "")
            && (code != 200 ==> s == r)
            && (r.task.status.InProgress? && plan != "" ==>
                  && code == 200 && s.submissions == r.submissions + [plan]
                  && s.task == r.task.(status := AwaitingApproval, planStatus := Submitted, plan := Some(plan)))
  {
  }

  /** A decision is for a submitted plan of a task that waits for it; the task goes on with
      the plan as it was, and a rejection leaves its reason. */
  lemma DecisionDoes(r: Record, reason: string, now: Time)
    ensures var waiting := r.task.status.AwaitingApproval? && r.task.planStatus.Submitted?;
            var (a, approved) := Handle(r, ApprovePlan, now);
            var (b, rejected) := Handle(r, RejectPlan(reason), now);
            && approved == rejected == (if waiting then 200 else 409)
            && (!waiting ==> a == b == r)
            && (waiting ==>
                  && a.task == r.task.(status := InProgress, planStatus := PlanApproved)
                  && b.task == r.task.(status := InProgress, planStatus := PlanRejected,
                                       planRejectedReason := Some(reason)))
  {
  }
}
