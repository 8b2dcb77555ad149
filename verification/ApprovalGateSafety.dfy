/** Agreement of the pending map, the promise and the audit row of every approval
    gate, on every interleaving of what may settle it, across restarts of the daemon. */
module ApprovalGateSafety {
  import opened Wrappers
  import opened JsStrings
  import opened ApprovalGate

  datatype Step =
    | OpenStep(id: ApprovalId, ctx: Context, config: PolicyConfig, delivery: Delivery, now: Time)
    | TimeoutStep(id: ApprovalId, now: Time)
    | DeliveryFailsStep(id: ApprovalId, now: Time)
    | DecideStep(id: ApprovalId, approved: bool, decider: string, now: Time)
    | RestartStep
    | SweepStep(now: Time)
    | RecordSendStep(agent: string, recipients: seq<JsString>)

  /** Ids are fresh (random UUIDs). The sweep is for processes without a pending gate;
      see SweepIsForStartup. */
  ghost predicate Legal(s: State, step: Step) {
    match step
    case OpenStep(id, _, _, _, _) => id !in s.rows
    case SweepStep(_) => s.pending == {}
    case _ => true
  }

  ghost function Next(env: Env, s: State, step: Step): State {
    match step
    case OpenStep(id, ctx, config, delivery, now) => Open(env, s, id, ctx, config, delivery, now)
    case TimeoutStep(id, now) => TimeoutFires(s, id, now)
    case DeliveryFailsStep(id, now) => Deny(s, id, now)
    case DecideStep(id, approved, decider, now) => ResolveGate(s, id, approved, decider, now).0
    case RestartStep => Restart(s)
    case SweepStep(now) => Sweep(s, now)
    case RecordSendStep(agent, recipients) => RecordSuccessfulSend(env, s, agent, recipients)
  }

  ghost predicate Undecided(s: State, id: ApprovalId) {
    id in s.rows && s.rows[id].decidedAt.None?
  }

  /** One gate: it is pending exactly while it belongs to this process and its row is
      undecided, which is exactly while its closure is not resolved; and the promise
      says what the row says. */
  ghost predicate GateAgrees(s: State, id: ApprovalId) {
    && (id in s.rows ==> (s.rows[id].decidedAt.None? <==> s.rows[id].decision.Pending?))
    && (id in s.pending <==> id in s.gates && Undecided(s, id))
    && (id in s.timers <==> id in s.pending)
    && (id in s.gates ==>
          && id in s.rows
          && (s.gates[id].resolved <==> id !in s.pending)
          && (s.gates[id].outcome.Waiting? ==> !s.gates[id].resolved)
          && (s.gates[id].outcome.Returned? ==>
                && s.gates[id].resolved
                && (s.gates[id].outcome.approved <==> s.rows[id].decision.Approved?)))
  }

  ghost predicate Agreement(s: State) {
    forall id :: GateAgrees(s, id)
  }

  lemma DenyKeeps(s: State, id: ApprovalId, now: Time)
    requires Agreement(s)
    ensures Agreement(Deny(s, id, now))
  {
    assert GateAgrees(s, id);
    forall other ensures GateAgrees(Deny(s, id, now), other) {
      assert GateAgrees(s, other);
    }
  }

  /** The other gates agree as before. */
  lemma InsertedAgrees(s: State, t: State, id: ApprovalId)
    requires Agreement(s) && GateAgrees(t, id)
    requires t.rows.Keys == s.rows.Keys + {id} && t.gates.Keys == s.gates.Keys + {id}
    requires forall other :: other != id && other in s.rows ==> t.rows[other] == s.rows[other]
    requires forall other :: other != id && other in s.gates ==> t.gates[other] == s.gates[other]
    requires t.pending - {id} == s.pending - {id} && t.timers - {id} == s.timers - {id}
    ensures Agreement(t)
  {
    forall other ensures GateAgrees(t, other) {
      assert GateAgrees(s, other);
      assert other != id ==> (other in t.pending <==> other in s.pending - {id});
      assert other != id ==> (other in t.timers <==> other in s.timers - {id});
    }
  }

  lemma WaitingAgrees(s: State, id: ApprovalId, row: Row, outcome: Outcome)
    requires Agreement(s) && id !in s.rows && row.decision.Pending? && row.decidedAt.None? && !outcome.Returned?
    ensures Agreement(s.(rows := s.rows[id := row], gates := s.gates[id := Gate(false, outcome)],
                         pending := s.pending + {id}, timers := s.timers + {id}))
  {
    InsertedAgrees(s, s.(rows := s.rows[id := row], gates := s.gates[id := Gate(false, outcome)],
                         pending := s.pending + {id}, timers := s.timers + {id}), id);
  }

  lemma BypassAgrees(s: State, id: ApprovalId, row: Row)
    requires Agreement(s) && id !in s.rows && row.decision.Approved? && row.decidedAt.Some?
    ensures Agreement(s.(rows := s.rows[id := row], gates := s.gates[id := Gate(true, Returned(true))]))
  {
    assert GateAgrees(s, id);
    InsertedAgrees(s, s.(rows := s.rows[id := row], gates := s.gates[id := Gate(true, Returned(true))]), id);
  }

  lemma OpenKeeps(env: Env, s: State, id: ApprovalId, ctx: Context,
                  config: PolicyConfig, delivery: Delivery, now: Time)
    requires Agreement(s) && id !in s.rows
    ensures Agreement(Open(env, s, id, ctx, config, delivery, now))
  {
    var row := NewRow(env, ctx, NormalizeApprovalFor(config.requireApprovalFor), now);
    if !RequiresGate(env, s.known, config, ctx) {
      BypassAgrees(s, id, row.(decision := Approved, decider := System, decidedAt := Some(now)));
    } else {
      WaitingAgrees(s, id, row, if delivery.DeliveryThrows? then Threw else Waiting);
      var s1 := s.(rows := s.rows[id := row], gates := s.gates[id := Gate(false, Waiting)],
                   pending := s.pending + {id}, timers := s.timers + {id});
      if delivery.NoDelivery? {
        DenyKeeps(s1, id, now);
      } else if delivery.DeliveryThrows? {
        assert s1.gates[id := Gate(false, Threw)] == s.gates[id := Gate(false, Threw)];
      }
    }
  }

  lemma DecideKeeps(s: State, id: ApprovalId, approved: bool, decider: string, now: Time)
    requires Agreement(s)
    ensures Agreement(ResolveGate(s, id, approved, decider, now).0)
  {
    assert GateAgrees(s, id);
    var t := ResolveGate(s, id, approved, decider, now).0;
    forall other ensures GateAgrees(t, other) {
      assert GateAgrees(s, other);
    }
  }

  lemma RestartKeeps(s: State)
    requires Agreement(s)
    ensures Agreement(Restart(s))
  {
    forall id ensures GateAgrees(Restart(s), id) {
      assert GateAgrees(s, id);
    }
  }

  /** The sweep is safe at startup only: it keeps agreement exactly when no gate of this
      process is pending. */
  lemma SweepIsForStartup(s: State, now: Time)
    requires Agreement(s)
    ensures Agreement(Sweep(s, now)) <==> s.pending == {}
  {
    var t := Sweep(s, now);
    if s.pending == {} {
      forall id ensures GateAgrees(t, id) {
        assert GateAgrees(s, id);
      }
    } else {
      var id :| id in s.pending;
      assert GateAgrees(s, id);
      assert !GateAgrees(t, id);
    }
  }

  lemma RecordKeeps(env: Env, s: State, agent: string, recipients: seq<JsString>)
    requires Agreement(s)
    ensures Agreement(RecordSuccessfulSend(env, s, agent, recipients))
  {
    forall id ensures GateAgrees(RecordSuccessfulSend(env, s, agent, recipients), id) {
      assert GateAgrees(s, id);
    }
  }

  lemma NextKeeps(env: Env, s: State, step: Step)
    requires Agreement(s) && Legal(s, step)
    ensures Agreement(Next(env, s, step))
  {
    match step
    case OpenStep(id, ctx, config, delivery, now) => OpenKeeps(env, s, id, ctx, config, delivery, now);
    case TimeoutStep(id, now) => DenyKeeps(s, id, now);
    case DeliveryFailsStep(id, now) => DenyKeeps(s, id, now);
    case DecideStep(id, approved, decider, now) => DecideKeeps(s, id, approved, decider, now);
    case RestartStep => RestartKeeps(s);
    case SweepStep(now) => SweepIsForStartup(s, now);
    case RecordSendStep(agent, recipients) => RecordKeeps(env, s, agent, recipients);
  }

  // ---- Write once ----

  /** A decided row never changes, and an undecided one changes only its decision. */
  ghost predicate RowKept(s: State, t: State, id: ApprovalId) {
    id in s.rows ==>
      && id in t.rows
      && (s.rows[id].decidedAt.Some? ==> t.rows[id] == s.rows[id])
      && SameRequest(s.rows[id], t.rows[id])
  }

  /** The rows differ at most in their decision. */
  ghost predicate SameRequest(a: Row, b: Row) {
    b == a.(decision := b.decision, decider := b.decider, decidedAt := b.decidedAt)
  }

  /** A settled promise never changes while its process lives. */
  ghost predicate PromiseKept(s: State, t: State, id: ApprovalId) {
    id in s.gates && !s.gates[id].outcome.Waiting? ==> id in t.gates && t.gates[id].outcome == s.gates[id].outcome
  }

  lemma DecidedRowKept(rows: map<ApprovalId, Row>, id: ApprovalId, decision: Decision, decider: Decider, now: Time,
                       other: ApprovalId)
    requires other in rows
    ensures var after := DecideRow(rows, id, decision, decider, now);
            && other in after && SameRequest(rows[other], after[other])
            && (rows[other].decidedAt.Some? ==> after[other] == rows[other])
  {
  }

  lemma DenyWritesOnce(s: State, id: ApprovalId, now: Time, other: ApprovalId)
    ensures RowKept(s, Deny(s, id, now), other) && PromiseKept(s, Deny(s, id, now), other)
  {
    if other in s.rows {
      DecidedRowKept(s.rows, id, TimedOut, System, now, other);
    }
  }

  lemma DecideWritesOnce(s: State, id: ApprovalId, approved: bool, decider: string, now: Time, other: ApprovalId)
    ensures RowKept(s, ResolveGate(s, id, approved, decider, now).0, other)
    ensures PromiseKept(s, ResolveGate(s, id, approved, decider, now).0, other)
  {
    if other in s.rows {
      DecidedRowKept(s.rows, id, if approved then Approved else Rejected, Named(decider), now, other);
    }
  }

  /** A new row and a new gate, before any delivery. */
  lemma InsertedKeeps(s: State, t: State, id: ApprovalId, row: Row, gate: Gate, other: ApprovalId)
    requires t.rows == s.rows[id := row] && t.gates == s.gates[id := gate] && id !in s.rows && id !in s.gates
    ensures RowKept(s, t, other) && PromiseKept(s, t, other)
  {
  }

  lemma OpenWritesOnce(env: Env, s: State, id: ApprovalId, ctx: Context,
                       config: PolicyConfig, delivery: Delivery, now: Time, other: ApprovalId)
    requires id !in s.rows && id !in s.gates
    ensures RowKept(s, Open(env, s, id, ctx, config, delivery, now), other)
    ensures PromiseKept(s, Open(env, s, id, ctx, config, delivery, now), other)
  {
    var row := NewRow(env, ctx, NormalizeApprovalFor(config.requireApprovalFor), now);
    var t := Open(env, s, id, ctx, config, delivery, now);
    if !RequiresGate(env, s.known, config, ctx) {
      InsertedKeeps(s, t, id, row.(decision := Approved, decider := System, decidedAt := Some(now)),
                    Gate(true, Returned(true)), other);
    } else if delivery.NoDelivery? {
      var s1 := s.(rows := s.rows[id := row], gates := s.gates[id := Gate(false, Waiting)],
                   pending := s.pending + {id}, timers := s.timers + {id});
      InsertedKeeps(s, s1, id, row, Gate(false, Waiting), other);
      DenyWritesOnce(s1, id, now, other);
    } else {
      InsertedKeeps(s, t, id, row, Gate(false, if delivery.Delivering? then Waiting else Threw), other);
    }
  }

  lemma SweepWritesOnce(s: State, now: Time, other: ApprovalId)
    ensures RowKept(s, Sweep(s, now), other) && PromiseKept(s, Sweep(s, now), other)
  {
  }

  lemma NextWritesOnce(env: Env, s: State, step: Step, id: ApprovalId)
    requires Agreement(s) && Legal(s, step)
    ensures RowKept(s, Next(env, s, step), id)
    ensures step.RestartStep? || PromiseKept(s, Next(env, s, step), id)
  {
    match step
    case OpenStep(added, ctx, config, delivery, now) =>
      assert GateAgrees(s, added);
      OpenWritesOnce(env, s, added, ctx, config, delivery, now, id);
    case TimeoutStep(other, now) => DenyWritesOnce(s, other, now, id);
    case DeliveryFailsStep(other, now) => DenyWritesOnce(s, other, now, id);
    case DecideStep(other, approved, decider, now) => DecideWritesOnce(s, other, approved, decider, now, id);
    case RestartStep =>
    case SweepStep(now) => SweepWritesOnce(s, now, id);
    case RecordSendStep(_, _) =>
  }

  // ---- Runs ----

  ghost predicate LegalRun(env: Env, s: State, steps: seq<Step>)
    decreases |steps|
  {
    steps == [] || (Legal(s, steps[0]) && LegalRun(env, Next(env, s, steps[0]), steps[1..]))
  }

  ghost function Final(env: Env, s: State, steps: seq<Step>): State
    decreases |steps|
  {
    if steps == [] then s else Final(env, Next(env, s, steps[0]), steps[1..])
  }

  lemma {:induction false} RunKeeps(env: Env, s: State, steps: seq<Step>)
    requires Agreement(s) && LegalRun(env, s, steps)
    ensures Agreement(Final(env, s, steps))
    decreases |steps|
  {
    if steps != [] {
      NextKeeps(env, s, steps[0]);
      RunKeeps(env, Next(env, s, steps[0]), steps[1..]);
    }
  }

  /** The gates opened since the last restart, if those before were `ids`. */
  function OwnGates(ids: set<ApprovalId>, steps: seq<Step>): set<ApprovalId>
    decreases |steps|
  {
    if steps == [] then ids
    else OwnGates(match steps[0]
                  case RestartStep => {}
                  case OpenStep(id, _, _, _, _) => ids + {id}
                  case _ => ids, steps[1..])
  }

  lemma NextGates(env: Env, s: State, step: Step)
    ensures Next(env, s, step).gates.Keys ==
              if step.RestartStep? then {} else if step.OpenStep? then s.gates.Keys + {step.id} else s.gates.Keys
  {
  }

  lemma {:induction false} GatesAreOwn(env: Env, s: State, steps: seq<Step>)
    ensures Final(env, s, steps).gates.Keys == OwnGates(s.gates.Keys, steps)
    decreases |steps|
  {
    if steps != [] {
      NextGates(env, s, steps[0]);
      GatesAreOwn(env, Next(env, s, steps[0]), steps[1..]);
    }
  }

  /** From an empty database, on every run: the pending map is exactly the undecided
      rows of the gates this process opened, and a gate that returned true or false
      did so according to its row. */
  lemma AgreementOnRuns(env: Env, steps: seq<Step>, known: set<Contact>)
    requires LegalRun(env, State(map[], map[], {}, {}, known), steps)
    ensures var t := Final(env, State(map[], map[], {}, {}, known), steps);
            && t.pending == (set id | id in OwnGates({}, steps) && Undecided(t, id))
            && t.timers == t.pending
            && forall id :: id in t.gates && t.gates[id].outcome.Returned? ==>
                 id in t.rows && t.rows[id].decidedAt.Some? &&
                 if t.gates[id].outcome.approved then t.rows[id].decision.Approved?
                 else t.rows[id].decision.Rejected? || t.rows[id].decision.TimedOut?
  {
    var s := State(map[], map[], {}, {}, known);
    assert Agreement(s);
    RunKeeps(env, s, steps);
    GatesAreOwn(env, s, steps);
    assert s.gates.Keys == {};
    var t := Final(env, s, steps);
    forall id
      ensures id in t.pending <==> id in t.gates && Undecided(t, id)
      ensures id in t.timers <==> id in t.pending
      ensures GateAgrees(t, id)
    {
      assert GateAgrees(t, id);
    }
  }

  /** On any run, across restarts: a decided row is final. */
  lemma {:induction false} RowsDecidedOnce(env: Env, s: State, steps: seq<Step>, id: ApprovalId)
    requires Agreement(s) && LegalRun(env, s, steps)
    ensures RowKept(s, Final(env, s, steps), id)
    decreases |steps|
  {
    if steps != [] {
      var t := Next(env, s, steps[0]);
      NextWritesOnce(env, s, steps[0], id);
      NextKeeps(env, s, steps[0]);
      RowsDecidedOnce(env, t, steps[1..], id);
      RowKeptTwice(s, t, Final(env, t, steps[1..]), id);
    }
  }

  lemma RowKeptTwice(s: State, t: State, u: State, id: ApprovalId)
    requires RowKept(s, t, id) && RowKept(t, u, id)
    ensures RowKept(s, u, id)
  {
  }

  /** Without a restart: a gate settles at most once. */
  lemma {:induction false} GatesSettleOnce(env: Env, s: State, steps: seq<Step>, id: ApprovalId)
    requires Agreement(s) && LegalRun(env, s, steps)
    requires forall k :: 0 <= k < |steps| ==> !steps[k].RestartStep?
    ensures PromiseKept(s, Final(env, s, steps), id)
    decreases |steps|
  {
    if steps != [] {
      NextWritesOnce(env, s, steps[0], id);
      NextKeeps(env, s, steps[0]);
      GatesSettleOnce(env, Next(env, s, steps[0]), steps[1..], id);
    }
  }

  // ---- Restarts ----

  /** An undecided row whose process is gone. */
  ghost predicate Abandoned(s: State, id: ApprovalId) {
    Undecided(s, id) && id !in s.gates
  }

  ghost predicate TimedOutBySystem(s: State, id: ApprovalId) {
    id in s.rows && s.rows[id].decidedAt.Some? && s.rows[id].decision.TimedOut? && s.rows[id].decider.System?
  }

  ghost predicate RowUntouched(s: State, t: State, id: ApprovalId) {
    id in s.rows ==> id in t.rows && t.rows[id] == s.rows[id]
  }

  lemma DenyElsewhere(s: State, id: ApprovalId, now: Time, other: ApprovalId)
    requires other !in s.gates
    ensures RowUntouched(s, Deny(s, id, now), other)
  {
  }

  lemma DecideElsewhere(s: State, id: ApprovalId, approved: bool, decider: string, now: Time, other: ApprovalId)
    requires other !in s.pending
    ensures RowUntouched(s, ResolveGate(s, id, approved, decider, now).0, other)
  {
  }

  lemma OpenElsewhere(env: Env, s: State, id: ApprovalId, ctx: Context,
                      config: PolicyConfig, delivery: Delivery, now: Time, other: ApprovalId)
    requires other != id
    ensures RowUntouched(s, Open(env, s, id, ctx, config, delivery, now), other)
  {
  }

  lemma NextElsewhere(env: Env, s: State, step: Step, id: ApprovalId)
    requires Agreement(s) && Legal(s, step) && Abandoned(s, id) && !step.SweepStep?
    ensures RowUntouched(s, Next(env, s, step), id)
  {
    assert GateAgrees(s, id);
    match step
    case OpenStep(other, ctx, config, delivery, now) => OpenElsewhere(env, s, other, ctx, config, delivery, now, id);
    case TimeoutStep(other, now) => DenyElsewhere(s, other, now, id);
    case DeliveryFailsStep(other, now) => DenyElsewhere(s, other, now, id);
    case DecideStep(other, approved, decider, now) => DecideElsewhere(s, other, approved, decider, now, id);
    case _ =>
  }

  lemma NextAbandoned(env: Env, s: State, step: Step, id: ApprovalId)
    requires Agreement(s) && Legal(s, step) && Abandoned(s, id)
    ensures var t := Next(env, s, step);
            if step.SweepStep? then TimedOutBySystem(t, id) else Abandoned(t, id)
  {
    if !step.SweepStep? {
      NextElsewhere(env, s, step, id);
      NextGates(env, s, step);
    }
  }

  ghost predicate Swept(steps: seq<Step>) {
    exists k :: 0 <= k < |steps| && steps[k].SweepStep?
  }

  lemma SweptCons(steps: seq<Step>)
    requires steps != []
    ensures Swept(steps) <==> steps[0].SweepStep? || Swept(steps[1..])
  {
    if Swept(steps[1..]) {
      var k :| 0 <= k < |steps| - 1 && steps[1..][k].SweepStep?;
      assert steps[k + 1].SweepStep?;
    }
    if Swept(steps) && !steps[0].SweepStep? {
      var k :| 0 <= k < |steps| && steps[k].SweepStep?;
      assert steps[1..][k - 1].SweepStep?;
    }
  }

  /** A row abandoned by a restart is never approved nor rejected: it is timed out by
      the first sweep, and without a sweep it stays undecided for good. */
  lemma {:induction false} AbandonedIsNeverApproved(env: Env, s: State, steps: seq<Step>, id: ApprovalId)
    requires Agreement(s) && LegalRun(env, s, steps) && Abandoned(s, id)
    ensures var t := Final(env, s, steps);
            if Swept(steps) then TimedOutBySystem(t, id) else Abandoned(t, id)
    decreases |steps|
  {
    if steps != [] {
      var t := Next(env, s, steps[0]);
      NextAbandoned(env, s, steps[0], id);
      NextKeeps(env, s, steps[0]);
      SweptCons(steps);
      if steps[0].SweepStep? {
        RowsDecidedOnce(env, t, steps[1..], id);
      } else {
        AbandonedIsNeverApproved(env, t, steps[1..], id);
      }
    }
  }

  /** The pending map holds every undecided row. */
  ghost predicate NothingAbandoned(s: State) {
    forall id :: id in s.pending <==> Undecided(s, id)
  }

  /** A restart leaves undecided rows that nothing in memory can settle: those of the
      gates that were pending, and those abandoned before. So the pending map misses
      none exactly when no gate was pending and none was missed before. */
  lemma RestartAbandonsExactlyWhenPending(s: State)
    requires Agreement(s)
    ensures NothingAbandoned(Restart(s)) <==> s.pending == {} && NothingAbandoned(s)
    ensures forall id :: Abandoned(Restart(s), id) <==> id in s.pending || Abandoned(s, id)
  {
    forall id ensures Abandoned(Restart(s), id) <==> id in s.pending || Abandoned(s, id) {
      assert GateAgrees(s, id);
    }
    forall id ensures Undecided(Restart(s), id) <==> Undecided(s, id) {
    }
    if id :| id in s.pending {
      assert GateAgrees(s, id) && Undecided(Restart(s), id);
    }
    if id :| !(id in s.pending <==> Undecided(s, id)) {
      assert GateAgrees(s, id) && Undecided(Restart(s), id);
    }
  }

  ghost predicate RestartsAreSwept(steps: seq<Step>) {
    forall k :: 0 <= k < |steps| && steps[k].RestartStep? ==> k + 1 < |steps| && steps[k + 1].SweepStep?
  }

  lemma NextAbandonsNothing(env: Env, s: State, step: Step)
    requires Agreement(s) && Legal(s, step) && NothingAbandoned(s) && !step.RestartStep?
    ensures NothingAbandoned(Next(env, s, step))
  {
    var t := Next(env, s, step);
    NextKeeps(env, s, step);
    NextGates(env, s, step);
    forall id ensures id in t.pending <==> Undecided(t, id) {
      assert id in s.pending <==> Undecided(s, id);
      assert GateAgrees(s, id) && GateAgrees(t, id);
      NextWritesOnce(env, s, step, id);
    }
  }

  lemma RestartSweepAbandonsNothing(s: State, now: Time)
    ensures NothingAbandoned(Sweep(Restart(s), now))
  {
  }

  /** On runs in which every restart is followed by the sweep, the pending map is exactly
      the undecided rows of the whole table. */
  lemma {:induction false} SweptRestartsAbandonNothing(env: Env, s: State, steps: seq<Step>)
    requires Agreement(s) && NothingAbandoned(s) && LegalRun(env, s, steps) && RestartsAreSwept(steps)
    ensures NothingAbandoned(Final(env, s, steps))
    decreases |steps|
  {
    if steps != [] {
      var t := Next(env, s, steps[0]);
      NextKeeps(env, s, steps[0]);
      if steps[0].RestartStep? {
        assert steps[1].SweepStep?;
        RestartSweepAbandonsNothing(s, steps[1].now);
        NextKeeps(env, t, steps[1]);
        assert steps[1..][0] == steps[1] && steps[1..][1..] == steps[2..];
        SweptTail(steps, 2);
        SweptRestartsAbandonNothing(env, Next(env, t, steps[1]), steps[2..]);
      } else {
        NextAbandonsNothing(env, s, steps[0]);
        SweptTail(steps, 1);
        SweptRestartsAbandonNothing(env, t, steps[1..]);
      }
    }
  }

  lemma SweptTail(steps: seq<Step>, n: nat)
    requires RestartsAreSwept(steps) && n <= |steps|
    ensures RestartsAreSwept(steps[n..])
  {
    forall k | 0 <= k < |steps[n..]| && steps[n..][k].RestartStep?
      ensures k + 1 < |steps[n..]| && steps[n..][k + 1].SweepStep?
    {
      assert steps[n + k].RestartStep?;
    }
  }

  /** After a restart and the sweep nothing is undecided, and whatever the sweep
      decided is denied. */
  lemma SweepDenies(s: State, now: Time)
    ensures var t := Sweep(Restart(s), now);
            && t.pending == {} && t.rows.Keys == s.rows.Keys
            && forall id :: id in s.rows ==>
                 && t.rows[id].decidedAt.Some?
                 && (s.rows[id].decidedAt.None? ==> t.rows[id].decision.TimedOut? && t.rows[id].decider.System?)
                 && (s.rows[id].decidedAt.Some? ==> t.rows[id] == s.rows[id])
  {
  }

  /** What goes wrong with a sweep in a process with a pending gate: a human approval
      after it makes the gate return true although its row says it timed out. */
  lemma SweepThenApprove(s: State, id: ApprovalId, now: Time, decider: string, later: Time)
    requires Agreement(s) && id in s.pending && id in s.gates && s.gates[id].outcome.Waiting?
    ensures var t := ResolveGate(Sweep(s, now), id, true, decider, later).0;
            && id in t.gates && id in t.rows
            && t.gates[id].outcome == Returned(true) && t.rows[id].decision.TimedOut?
  {
    assert GateAgrees(s, id);
  }

  /** A human decision on a pending gate is what the row and the caller get; on any
      other id nothing changes, and the answer says whether the row was decided. An
      abandoned row is answered as if there were none. */
  lemma DecisionTakesEffect(s: State, id: ApprovalId, approved: bool, decider: string, now: Time)
    requires Agreement(s)
    ensures var (t, r) := ResolveGate(s, id, approved, decider, now);
            && (r == Ok <==> id in s.pending)
            && (r == Ok ==>
                  && id in t.rows && id in t.gates && id in s.gates
                  && t.rows[id].decision == (if approved then Approved else Rejected)
                  && t.rows[id].decider == Named(decider) && id !in t.pending
                  && (s.gates[id].outcome.Waiting? ==> t.gates[id].outcome == Returned(approved)))
            && (r != Ok ==> t == s)
            && (r == AlreadyResolved <==> id in s.rows && s.rows[id].decidedAt.Some?)
            && (Abandoned(s, id) ==> r == NotFound)
  {
    assert GateAgrees(s, id);
  }
}
