/** What the router does with a message: which channels it goes to, when it is sent, and
    why that was allowed. */
module RouterEffects {
  import opened Wrappers
  import opened JsStrings
  import opened ApprovalGate
  import Gate = ApprovalGateSafety
  import Effects = ApprovalGateEffects
  import opened ChannelRouter
  import opened ChannelRouterSafety

  // ---- Going on after the gate ----

  /** The delivery may go on: no gate was asked, or the channel had no policy, or the gate
      returned true. */
  ghost predicate MaySend(s: RouterState, f: Flight) {
    || f.link.Ungated?
    || f.link.PassedThrough?
    || (f.link.GatedBy? && f.link.id in s.gate.gates && s.gate.gates[f.link.id].outcome == Returned(true))
  }

  /** The gate has not settled, or is gone with its process. */
  ghost predicate MustWait(s: RouterState, f: Flight) {
    f.link.GatedBy? && (f.link.id in s.gate.gates ==> s.gate.gates[f.link.id].outcome.Waiting?)
  }

  /** An open delivery is sent, once and in its channel's rendering, exactly when it may; it
      is left as it is exactly when it must wait; otherwise it ends without a send. */
  lemma ContinueSends(format: (string, JsString) -> JsString, s: RouterState, i: nat)
    requires i < |s.flights| && !s.flights[i].done
    ensures var f, t := s.flights[i], Continue(format, s, i);
            && (MaySend(s, f) <==> t.sends == s.sends + [Send(i, format(f.channel, f.message.text))])
            && (!MaySend(s, f) ==> t.sends == s.sends)
            && (MustWait(s, f) <==> t == s)
            && (!MustWait(s, f) ==> t.flights == s.flights[i := f.(done := true)])
            && t.gate == s.gate && t.adapters == s.adapters && t.registered == s.registered
  {
    var f := s.flights[i];
    assert s.sends + [Send(i, format(f.channel, f.message.text))] != s.sends;
    assert s.flights[i := f.(done := true)] != s.flights;
  }

  /** A delivery that ended does nothing more. */
  lemma DoneStays(format: (string, JsString) -> JsString, s: RouterState, i: nat)
    requires i < |s.flights| ==> s.flights[i].done
    ensures Continue(format, s, i) == s
  {
  }

  /** A human decides about a waiting delivery, and it goes on: approved, it is sent once;
      rejected, never. */
  lemma DecisionThenContinue(env: Env, format: (string, JsString) -> JsString, s: RouterState, i: nat,
                             approved: bool, name: string, now: Time)
    requires Invariant(env, s) && i < |s.flights| && !s.flights[i].done && s.flights[i].link.GatedBy?
    requires s.flights[i].link.id in s.gate.pending && Effects.Settled(s.gate, s.flights[i].link.id, Waiting)
    ensures var f := s.flights[i];
            var decided := Next(env, format, s, GateStep(Gate.DecideStep(f.link.id, approved, name, now)));
            var t := Next(env, format, decided, ContinueStep(i));
            && t.sends == (if approved then s.sends + [Send(i, format(f.channel, f.message.text))] else s.sends)
            && t.flights[i].done
            && Next(env, format, t, ContinueStep(i)) == t
  {
    var f := s.flights[i];
    Effects.DecisionIsWritten(s.gate, f.link.id, approved, name, now);
    var decided := Next(env, format, s, GateStep(Gate.DecideStep(f.link.id, approved, name, now)));
    ContinueSends(format, decided, i);
    DoneStays(format, Continue(format, decided, i), i);
  }

  // ---- Starting ----

  /** Each channel begins its own delivery of the message. Without a gate it is sent at
      once; otherwise it waits for what the gate makes of it. */
  lemma BeginStarts(env: Env, format: (string, JsString) -> JsString, s: RouterState,
                    message: Message, channel: string, c: Circumstances)
    ensures var t := Begin(env, format, s, message, channel, c);
            var n := |s.flights|;
            && |t.flights| == n + 1 && t.flights[..n] == s.flights
            && t.flights[n].message == message && t.flights[n].channel == channel
            && (t.flights[n].hasPolicy <==> c.config.Some?)
            && (if s.registered then
                  && !t.flights[n].done && t.sends == s.sends
                  && t.flights[n].link == (if c.config.None? then PassedThrough
                                           else if c.insertFails then GateFailed else GatedBy(c.id))
                else
                  && t.flights[n].done && t.flights[n].link.Ungated?
                  && t.sends == s.sends + [Send(n, format(channel, message.text))])
            && (s.registered && c.config.Some? && !c.insertFails ==>
                  var ctx := Context(channel, message.recipients, message.text, message.sender);
                  t.gate == Gate.Next(env, s.gate, Gate.OpenStep(c.id, ctx, c.config.value, c.delivery, c.now)))
            && (!(s.registered && c.config.Some? && !c.insertFails) ==> t.gate == s.gate)
  {
  }

  /** A call without a channel list goes to every adapter, one with a list to the listed
      channels that have one. */
  lemma TargetsAre(adapters: seq<string>, channels: seq<string>)
    ensures channels == [] ==> Targets(adapters, channels) == adapters
    ensures channels != [] ==> forall c :: c in Targets(adapters, channels) <==> c in channels && c in adapters
  {
  }

  /** The deliveries from position `n` on are of the message, one for each target. */
  ghost predicate Carry(flights: seq<Flight>, n: nat, message: Message, targets: seq<string>) {
    |flights| == n + |targets| && forall i: nat :: i < |targets| ==> CarryAt(flights, n, message, targets, i)
  }

  ghost predicate CarryAt(flights: seq<Flight>, n: nat, message: Message, targets: seq<string>, i: nat) {
    && i < |targets| && n + i < |flights|
    && flights[n + i].message == message && flights[n + i].channel == targets[i]
  }

  lemma CarryOne(flights: seq<Flight>, n: nat, message: Message, targets: seq<string>, target: string, f: Flight)
    requires Carry(flights, n, message, targets) && f.message == message && f.channel == target
    ensures Carry(flights + [f], n, message, targets + [target])
  {
    forall i: nat | i <= |targets| ensures CarryAt(flights + [f], n, message, targets + [target], i) {
      assert i < |targets| ==> CarryAt(flights, n, message, targets, i);
    }
  }

  /** The call begins one delivery of the message for each target, in order. */
  lemma {:induction false} CallReachesAllTargets(env: Env, format: (string, JsString) -> JsString, s: RouterState,
                                                 message: Message, targets: seq<string>, cs: seq<Circumstances>)
    requires |targets| <= |cs|
    ensures var t := BeginAll(env, format, s, message, targets, cs);
            && s.flights <= t.flights && Carry(t.flights, |s.flights|, message, targets)
            && t.registered == s.registered
    decreases |targets|
  {
    if targets != [] {
      var n := |targets| - 1;
      CallReachesAllTargets(env, format, s, message, targets[..n], cs);
      var u, t := BeginAll(env, format, s, message, targets[..n], cs), BeginAll(env, format, s, message, targets, cs);
      BeginStarts(env, format, u, message, targets[n], cs[n]);
      assert t.flights == u.flights + [t.flights[|u.flights|]];
      CarryOne(u.flights, |s.flights|, message, targets[..n], targets[n], t.flights[|u.flights|]);
      assert targets[..n] + [targets[n]] == targets;
    }
  }

  // ---- The gate's part of a run ----

  function GatePart(step: Step): seq<Gate.Step> {
    match step
    case BeginStep(message, channel, c) =>
      if c.config.Some? && !c.insertFails
      then [Gate.OpenStep(c.id, ContextOf(message, channel), c.config.value, c.delivery, c.now)] else []
    case ContinueStep(_) => []
    case GateStep(g) => [g]
    case RestartStep => [Gate.RestartStep]
  }

  function GateRun(steps: seq<Step>): seq<Gate.Step> {
    if steps == [] then [] else GatePart(steps[0]) + GateRun(steps[1..])
  }

  lemma NextOfGate(env: Env, format: (string, JsString) -> JsString, s: RouterState, step: Step)
    requires s.registered && Legal(s, step)
    ensures var t := Next(env, format, s, step);
            && t.registered
            && (GatePart(step) == [] ==> t.gate == s.gate)
            && (GatePart(step) != [] ==>
                  && Gate.Legal(s.gate, GatePart(step)[0]) && t.gate == Gate.Next(env, s.gate, GatePart(step)[0])
                  && |GatePart(step)| == 1)
  {
  }

  /** What the router does to the gate is a run of the gate. */
  lemma {:induction false} RouterRunsTheGate(env: Env, format: (string, JsString) -> JsString, s: RouterState,
                                             steps: seq<Step>)
    requires s.registered && LegalRun(env, format, s, steps)
    ensures Gate.LegalRun(env, s.gate, GateRun(steps))
    ensures Gate.Final(env, s.gate, GateRun(steps)) == Final(env, format, s, steps).gate
    decreases |steps|
  {
    if steps != [] {
      NextOfGate(env, format, s, steps[0]);
      RouterRunsTheGate(env, format, Next(env, format, s, steps[0]), steps[1..]);
      if GatePart(steps[0]) == [] {
        assert GateRun(steps) == GateRun(steps[1..]);
      } else {
        assert GateRun(steps)[0] == GatePart(steps[0])[0] && GateRun(steps)[1..] == GateRun(steps[1..]);
      }
    }
  }

  // ---- Why a send was allowed ----

  /** No row is opened twice. */
  lemma {:induction false} OpenedOnce(env: Env, g: ApprovalGate.State, steps: seq<Gate.Step>, id: ApprovalId, k: nat)
    requires Gate.Agreement(g) && Gate.LegalRun(env, g, steps)
    requires id in g.rows && k < |steps| && steps[k].OpenStep?
    ensures steps[k].id != id
    decreases |steps|
  {
    if k > 0 {
      Gate.NextKeeps(env, g, steps[0]);
      Gate.NextWritesOnce(env, g, steps[0], id);
      OpenedOnce(env, Gate.Next(env, g, steps[0]), steps[1..], id, k - 1);
    }
  }

  /** A row that is there, and not approved, is never approved by the system. */
  lemma SystemApprovesAtOnce(env: Env, g: ApprovalGate.State, steps: seq<Gate.Step>, id: ApprovalId)
    requires Gate.Agreement(g) && Gate.LegalRun(env, g, steps)
    requires id in g.rows && !Effects.IsApproved(g, id) && Effects.IsApproved(Gate.Final(env, g, steps), id)
    ensures Gate.Final(env, g, steps).rows[id].decider.Named?
  {
    Effects.ApprovalsComeFrom(env, g, steps, id);
    if k: nat :| Effects.OpenedExempt(env, g, steps, id, k) {
      OpenedOnce(env, g, steps, id, k);
      assert false;
    }
  }

  lemma FlightStays(env: Env, format: (string, JsString) -> JsString, s: RouterState, step: Step, i: nat)
    requires i < |s.flights|
    ensures var t := Next(env, format, s, step);
            i < |t.flights| && t.flights[i] == s.flights[i].(done := t.flights[i].done)
  {
  }

  lemma {:induction false} FlightsStay(env: Env, format: (string, JsString) -> JsString, s: RouterState,
                                       steps: seq<Step>, i: nat)
    requires i < |s.flights|
    ensures var t := Final(env, format, s, steps);
            i < |t.flights| && t.flights[i] == s.flights[i].(done := t.flights[i].done)
    decreases |steps|
  {
    if steps != [] {
      FlightStays(env, format, s, steps[0], i);
      FlightsStay(env, format, Next(env, format, s, steps[0]), steps[1..], i);
    }
  }

  /** Step `j` began this delivery, and its message needed no human then. */
  ghost predicate BegunExempt(env: Env, format: (string, JsString) -> JsString, s: RouterState, steps: seq<Step>,
                              f: Flight, j: nat)
  {
    && j < |steps| && steps[j].BeginStep?
    && steps[j].message == f.message && steps[j].channel == f.channel
    && f.link == GatedBy(steps[j].circumstances.id) && steps[j].circumstances.config.Some?
    && Effects.Exempt(env, Final(env, format, s, steps[..j]).gate.known,
                      steps[j].circumstances.config.value.requireApprovalFor, ContextOf(f.message, f.channel))
  }

  lemma BegunLater(env: Env, format: (string, JsString) -> JsString, s: RouterState, steps: seq<Step>,
                   f: Flight, j: nat)
    requires steps != [] && BegunExempt(env, format, Next(env, format, s, steps[0]), steps[1..], f, j)
    ensures BegunExempt(env, format, s, steps, f, j + 1)
  {
    assert steps[..j + 1][1..] == steps[1..][..j] && steps[..j + 1][0] == steps[0];
  }

  /** A delivery begins: if its row ends up approved by the system, it was exempt. */
  lemma FirstStepExempt(env: Env, format: (string, JsString) -> JsString, s: RouterState, steps: seq<Step>, i: nat)
    requires Invariant(env, s) && LegalRun(env, format, s, steps) && steps != []
    requires i == |s.flights| && i < |Next(env, format, s, steps[0]).flights|
    requires var t := Final(env, format, s, steps);
             i < |t.flights| && t.flights[i].link.GatedBy? && Effects.IsApproved(t.gate, t.flights[i].link.id) &&
             t.gate.rows[t.flights[i].link.id].decider.System?
    ensures BegunExempt(env, format, s, steps, Final(env, format, s, steps).flights[i], 0)
  {
    var t, c := Next(env, format, s, steps[0]), steps[0].circumstances;
    FlightsStay(env, format, t, steps[1..], i);
    BeginStarts(env, format, s, steps[0].message, steps[0].channel, c);
    assert t.flights[i].link == GatedBy(c.id);
    var ctx := ContextOf(steps[0].message, steps[0].channel);
    Effects.OpenDecides(env, s.gate, c.id, ctx, c.config.value, c.delivery, c.now);
    NextKeeps(env, format, s, steps[0]);
    RouterRunsTheGate(env, format, t, steps[1..]);
    assert steps[..0] == [];
    if !Effects.Exempt(env, s.gate.known, c.config.value.requireApprovalFor, ctx) {
      SystemApprovesAtOnce(env, t.gate, GateRun(steps[1..]), c.id);
      assert false;
    }
  }

  lemma {:induction false} SystemApprovalsWereExempt(env: Env, format: (string, JsString) -> JsString, s: RouterState,
                                                     steps: seq<Step>, i: nat) returns (j: nat)
    requires Invariant(env, s) && LegalRun(env, format, s, steps) && i >= |s.flights|
    requires var t := Final(env, format, s, steps);
             i < |t.flights| && t.flights[i].link.GatedBy? && Effects.IsApproved(t.gate, t.flights[i].link.id) &&
             t.gate.rows[t.flights[i].link.id].decider.System?
    ensures BegunExempt(env, format, s, steps, Final(env, format, s, steps).flights[i], j)
    decreases |steps|
  {
    var t := Next(env, format, s, steps[0]);
    if i < |t.flights| {
      FirstStepExempt(env, format, s, steps, i);
      j := 0;
    } else {
      NextKeeps(env, format, s, steps[0]);
      var k := SystemApprovalsWereExempt(env, format, t, steps[1..], i);
      BegunLater(env, format, s, steps, Final(env, format, s, steps).flights[i], k);
      j := k + 1;
    }
  }

  /** Step `j` was the approval of a human, by name. */
  ghost predicate ApprovedAt(steps: seq<Step>, id: ApprovalId, name: string, j: nat) {
    && j < |steps| && steps[j].GateStep? && steps[j].step.DecideStep?
    && steps[j].step.id == id && steps[j].step.approved && steps[j].step.decider == name
  }

  lemma {:induction false} HumanStep(steps: seq<Step>, id: ApprovalId, name: string, k: nat) returns (j: nat)
    requires Effects.ApprovedBy(GateRun(steps), id, name, k)
    ensures ApprovedAt(steps, id, name, j)
    decreases |steps|
  {
    var n := |GatePart(steps[0])|;
    if k < n {
      assert GateRun(steps)[k] == GatePart(steps[0])[k];
      j := 0;
    } else {
      assert GateRun(steps)[k] == GateRun(steps[1..])[k - n];
      var i := HumanStep(steps[1..], id, name, k - n);
      j := i + 1;
    }
  }

  /** The row of a delivery is approved because its message needed no human when it began,
      or because a human approved it on this run. */
  ghost predicate Allowed(env: Env, format: (string, JsString) -> JsString, s: RouterState, steps: seq<Step>,
                          f: Flight, decider: Decider)
  {
    f.link.GatedBy? &&
    match decider
    case System => exists j: nat :: BegunExempt(env, format, s, steps, f, j)
    case Named(name) => exists j: nat :: ApprovedAt(steps, f.link.id, name, j)
    case Placeholder => false
  }

  lemma ApprovedIsAllowed(env: Env, format: (string, JsString) -> JsString, adapters: seq<string>,
                          known: set<Contact>, steps: seq<Step>, i: nat)
    requires LegalRun(env, format, Fresh(adapters, known), steps)
    requires var t := Final(env, format, Fresh(adapters, known), steps);
             i < |t.flights| && t.flights[i].link.GatedBy? && Effects.IsApproved(t.gate, t.flights[i].link.id)
    ensures var t := Final(env, format, Fresh(adapters, known), steps);
            Allowed(env, format, Fresh(adapters, known), steps, t.flights[i],
                    t.gate.rows[t.flights[i].link.id].decider)
  {
    var s := Fresh(adapters, known);
    var t := Final(env, format, s, steps);
    var id := t.flights[i].link.id;
    FreshIsFine(env, adapters, known);
    RouterRunsTheGate(env, format, s, steps);
    Effects.ApprovedRowsAreJustified(env, GateRun(steps), known, id);
    match t.gate.rows[id].decider
    case System =>
      var j := SystemApprovalsWereExempt(env, format, s, steps, i);
    case Named(name) =>
      var k: nat :| Effects.ApprovedBy(GateRun(steps), id, name, k);
      var j := HumanStep(steps, id, name, k);
  }

  /** On every run with the gate registered: whatever was sent on a channel with a policy was
      exempt when its delivery began, or approved by a human. */
  lemma EverySendWasAllowed(env: Env, format: (string, JsString) -> JsString, adapters: seq<string>,
                            known: set<Contact>, steps: seq<Step>, k: nat)
    requires LegalRun(env, format, Fresh(adapters, known), steps)
    requires k < |Final(env, format, Fresh(adapters, known), steps).sends|
    ensures var t := Final(env, format, Fresh(adapters, known), steps);
            && t.sends[k].flight < |t.flights|
            && var f := t.flights[t.sends[k].flight];
               f.hasPolicy ==>
                 && f.link.GatedBy? && f.link.id in t.gate.rows
                 && Allowed(env, format, Fresh(adapters, known), steps, f, t.gate.rows[f.link.id].decider)
  {
    EverySendWasApproved(env, format, adapters, known, steps);
    var t := Final(env, format, Fresh(adapters, known), steps);
    assert Covered(env, t, k);
    if t.flights[t.sends[k].flight].hasPolicy {
      ApprovedIsAllowed(env, format, adapters, known, steps, t.sends[k].flight);
    }
  }
}
