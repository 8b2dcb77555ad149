/** What each operation of the approval gate does, and where approvals come from. */
module ApprovalGateEffects {
  import opened Wrappers
  import opened JsStrings
  import opened ApprovalGate
  import opened ApprovalGateSafety

  // ---- Opening a gate ----

  /** The policy a word stands for; an unknown word is the strictest. */
  function Meaning(word: PolicyWord): Policy {
    if word.WordFirstTimeRecipient? then FirstTimeRecipient
    else if word.WordExternalOnly? then ExternalOnly
    else if word.WordNever? then Never
    else All
  }

  /** A send that needs no human. */
  ghost predicate Exempt(env: Env, known: set<Contact>, word: PolicyWord, ctx: Context) {
    || word.WordNever?
    || (word.WordFirstTimeRecipient? &&
        forall i :: 0 <= i < |ctx.recipients| ==>
          Contact(ctx.sender, env.lower(Trim(ctx.recipients[i]))) in known)
  }

  /** The same on the configured text. */
  lemma ExemptExactlyWhen(env: Env, known: set<Contact>, raw: string, ctx: Context)
    ensures Exempt(env, known, ReadWord(raw), ctx) <==>
              || raw == "never"
              || (raw == "first_time_recipient" &&
                  forall r :: r in ctx.recipients ==> Contact(ctx.sender, env.lower(Trim(r))) in known)
  {
  }

  lemma GatedUnlessExempt(env: Env, known: set<Contact>, config: PolicyConfig, ctx: Context)
    ensures RequiresGate(env, known, config, ctx) <==> !Exempt(env, known, config.requireApprovalFor, ctx)
  {
    if Exempt(env, known, config.requireApprovalFor, ctx) {
      forall r | r in ctx.recipients && config.requireApprovalFor.WordFirstTimeRecipient?
        ensures IsKnownRecipient(env, known, ctx.sender, r)
      {
        var i :| 0 <= i < |ctx.recipients| && ctx.recipients[i] == r;
        assert Contact(ctx.sender, env.lower(Trim(ctx.recipients[i]))) in known;
      }
    } else if config.requireApprovalFor.WordFirstTimeRecipient? {
      var i :| 0 <= i < |ctx.recipients| && Contact(ctx.sender, env.lower(Trim(ctx.recipients[i]))) !in known;
      assert ctx.recipients[i] in ctx.recipients;
    }
  }

  ghost predicate Decided(s: State, id: ApprovalId, decision: Decision, decider: Decider, at: Option<Time>) {
    id in s.rows && s.rows[id].decision == decision && s.rows[id].decider == decider && s.rows[id].decidedAt == at
  }

  ghost predicate Settled(s: State, id: ApprovalId, outcome: Outcome) {
    id in s.gates && s.gates[id].outcome == outcome
  }

  /** Opening a fresh gate: an exempt send is approved by the system at once; any other
      waits, undecided, for a human, unless its card cannot be handed out: then it is timed
      out by the system, or has thrown. */
  lemma OpenDecides(env: Env, s: State, id: ApprovalId, ctx: Context, config: PolicyConfig,
                    delivery: Delivery, now: Time)
    requires Agreement(s) && id !in s.rows
    ensures var t := Open(env, s, id, ctx, config, delivery, now);
            if Exempt(env, s.known, config.requireApprovalFor, ctx) then
              && Decided(t, id, Approved, System, Some(now)) && Settled(t, id, Returned(true))
              && t.pending == s.pending && t.timers == s.timers
            else
              match delivery
              case Delivering =>
                && Decided(t, id, Pending, Placeholder, None) && Settled(t, id, Waiting)
                && t.pending == s.pending + {id} && t.timers == s.timers + {id}
              case DeliveryThrows =>
                && Decided(t, id, Pending, Placeholder, None) && Settled(t, id, Threw)
                && t.pending == s.pending + {id} && t.timers == s.timers + {id}
              case NoDelivery =>
                && Decided(t, id, TimedOut, System, Some(now)) && Settled(t, id, Returned(false))
                && t.pending == s.pending && t.timers == s.timers
  {
    assert GateAgrees(s, id);
    GatedUnlessExempt(env, s.known, config, ctx);
    assert s.pending + {id} - {id} == s.pending && s.timers + {id} - {id} == s.timers;
  }

  /** The row records what is to be sent, to whom, by whom, and when; every other row and
      gate is left alone. */
  lemma OpenRecords(env: Env, s: State, id: ApprovalId, ctx: Context, config: PolicyConfig,
                    delivery: Delivery, now: Time, other: ApprovalId)
    requires Agreement(s) && id !in s.rows
    ensures var t := Open(env, s, id, ctx, config, delivery, now);
            && id in t.rows
            && t.rows[id].contentHash == env.hashText(ctx.rawContent)
            && t.rows[id].recipientHash == HashRecipientSet(env, ctx.recipients)
            && t.rows[id].sender == ctx.sender && t.rows[id].channel == ctx.channel
            && t.rows[id].policy == Meaning(config.requireApprovalFor)
            && t.rows[id].createdAt == now && t.known == s.known
            && (other != id ==>
                  && (other in t.rows <==> other in s.rows) && (other in t.gates <==> other in s.gates)
                  && (other in s.rows ==> t.rows[other] == s.rows[other])
                  && (other in s.gates ==> t.gates[other] == s.gates[other]))
  {
    assert GateAgrees(s, id);
  }

  // ---- Settling a gate ----

  /** A timeout, and a card that could not be delivered, deny a gate that is pending, and
      do nothing to any other. */
  lemma DenialTakesEffect(s: State, id: ApprovalId, now: Time)
    requires Agreement(s)
    ensures TimeoutFires(s, id, now) == Deny(s, id, now)
    ensures var t := Deny(s, id, now);
            if id in s.pending then
              && Decided(t, id, TimedOut, System, Some(now))
              && (Settled(s, id, Waiting) ==> Settled(t, id, Returned(false)))
              && t.pending == s.pending - {id} && t.timers == s.timers - {id}
            else
              t == s
  {
    assert GateAgrees(s, id);
  }

  /** A human decision on a pending gate is written with the human's name and the time, and
      returned to the caller that waits. */
  lemma DecisionIsWritten(s: State, id: ApprovalId, approved: bool, name: string, now: Time)
    requires Agreement(s) && id in s.pending
    ensures var (t, r) := ResolveGate(s, id, approved, name, now);
            && r == Ok
            && Decided(t, id, if approved then Approved else Rejected, Named(name), Some(now))
            && (Settled(s, id, Waiting) ==> Settled(t, id, Returned(approved)))
            && t.pending == s.pending - {id} && t.timers == s.timers - {id}
  {
    assert GateAgrees(s, id);
  }

  /** The sweep writes the time of the sweep. */
  lemma SweepIsWritten(s: State, id: ApprovalId, now: Time)
    requires Undecided(s, id)
    ensures Decided(Sweep(s, now), id, TimedOut, System, Some(now))
  {
  }

  // ---- Where approvals come from ----

  ghost predicate IsApproved(s: State, id: ApprovalId) {
    id in s.rows && s.rows[id].decision.Approved?
  }

  /** Step `k` opened the gate, and the send was exempt then. */
  ghost predicate OpenedExempt(env: Env, s: State, steps: seq<Step>, id: ApprovalId, k: nat) {
    && k < |steps| && steps[k].OpenStep? && steps[k].id == id
    && Exempt(env, Final(env, s, steps[..k]).known, steps[k].config.requireApprovalFor, steps[k].ctx)
  }

  /** Step `k` was the approval of a human, by name. */
  ghost predicate ApprovedBy(steps: seq<Step>, id: ApprovalId, name: string, k: nat) {
    k < |steps| && steps[k].DecideStep? && steps[k].id == id && steps[k].approved && steps[k].decider == name
  }

  /** Why a row is approved: the system approved it when it was opened, exempt; or a human
      did, whose name it carries. */
  ghost predicate Justified(env: Env, s: State, steps: seq<Step>, id: ApprovalId, decider: Decider) {
    match decider
    case System => exists k: nat :: OpenedExempt(env, s, steps, id, k)
    case Named(name) => exists k: nat :: ApprovedBy(steps, id, name, k)
    case Placeholder => false
  }

  lemma JustifiedLater(env: Env, s: State, steps: seq<Step>, id: ApprovalId, decider: Decider)
    requires steps != [] && Justified(env, Next(env, s, steps[0]), steps[1..], id, decider)
    ensures Justified(env, s, steps, id, decider)
  {
    var t := Next(env, s, steps[0]);
    match decider
    case System =>
      var k: nat :| OpenedExempt(env, t, steps[1..], id, k);
      assert steps[..k + 1][1..] == steps[1..][..k] && steps[..k + 1][0] == steps[0];
      assert OpenedExempt(env, s, steps, id, k + 1);
    case Named(name) =>
      var k: nat :| ApprovedBy(steps[1..], id, name, k);
      assert ApprovedBy(steps, id, name, k + 1);
  }

  /** A step that approves a row is an opening of an exempt send or a human's approval. */
  lemma ApprovingStep(env: Env, s: State, step: Step, id: ApprovalId)
    requires Agreement(s) && Legal(s, step) && !IsApproved(s, id) && IsApproved(Next(env, s, step), id)
    ensures var decider := Next(env, s, step).rows[id].decider;
            || (decider.System? && step.OpenStep? && step.id == id
                && Exempt(env, s.known, step.config.requireApprovalFor, step.ctx))
            || (step.DecideStep? && step.id == id && step.approved && decider == Named(step.decider))
  {
    assert GateAgrees(s, id);
    match step
    case OpenStep(added, ctx, config, delivery, now) =>
      OpenDecides(env, s, added, ctx, config, delivery, now);
      OpenRecords(env, s, added, ctx, config, delivery, now, id);
    case TimeoutStep(other, now) => DenialTakesEffect(s, other, now);
    case DeliveryFailsStep(other, now) => DenialTakesEffect(s, other, now);
    case DecideStep(other, approved, name, now) =>
    case _ =>
  }

  lemma {:induction false} ApprovalsComeFrom(env: Env, s: State, steps: seq<Step>, id: ApprovalId)
    requires Agreement(s) && LegalRun(env, s, steps)
    requires !IsApproved(s, id) && IsApproved(Final(env, s, steps), id)
    ensures Justified(env, s, steps, id, Final(env, s, steps).rows[id].decider)
    decreases |steps|
  {
    var t := Next(env, s, steps[0]);
    NextKeeps(env, s, steps[0]);
    if IsApproved(t, id) {
      ApprovingStep(env, s, steps[0], id);
      assert GateAgrees(t, id);
      RowsDecidedOnce(env, t, steps[1..], id);
      if t.rows[id].decider.System? {
        assert steps[..0] == [];
        assert OpenedExempt(env, s, steps, id, 0);
      } else {
        assert ApprovedBy(steps, id, steps[0].decider, 0);
      }
    } else {
      ApprovalsComeFrom(env, t, steps[1..], id);
      JustifiedLater(env, s, steps, id, Final(env, s, steps).rows[id].decider);
    }
  }

  /** On every run from an empty database: whatever row is approved, it was exempt when it
      was opened, or a human approved it. */
  lemma ApprovedRowsAreJustified(env: Env, steps: seq<Step>, known: set<Contact>, id: ApprovalId)
    requires LegalRun(env, State(map[], map[], {}, {}, known), steps)
    requires IsApproved(Final(env, State(map[], map[], {}, {}, known), steps), id)
    ensures var s := State(map[], map[], {}, {}, known);
            Justified(env, s, steps, id, Final(env, s, steps).rows[id].decider)
  {
    var s := State(map[], map[], {}, {}, known);
    assert Agreement(s);
    ApprovalsComeFrom(env, s, steps, id);
  }
}
