/** The approval gate of daemon/src/comms/approval-gate.ts: one pending promise per
    outbound send, settled by whichever comes first of a human decision, the timeout
    and a card-delivery failure, with an audit row in the database. */
module ApprovalGate {
  import opened Wrappers
  import opened JsStrings

  datatype ApprovalId = ApprovalId(uuid: string)
  datatype Digest = Digest(hex: string)
  type Time = int

  /** What the gate takes from outside: Unicode lower-casing, SHA-256 of a text, and
      SHA-256 of the JSON form of a list of addresses. */
  datatype Env = Env(
    lower: JsString -> JsString,
    hashText: JsString -> Digest,
    hashList: seq<JsString> -> Digest)

  datatype Policy = All | FirstTimeRecipient | ExternalOnly | Never
  /** The configured word, as far as it is known. */
  datatype PolicyWord = WordAll | WordFirstTimeRecipient | WordExternalOnly | WordNever | OtherWord
  datatype PolicyConfig = PolicyConfig(requireApprovalFor: PolicyWord)

  datatype Context = Context(channel: string, recipients: seq<JsString>, rawContent: JsString, sender: string)

  datatype Decision = Pending | Approved | Rejected | TimedOut

  /** Who decided; the row starts with a placeholder. */
  datatype Decider = Placeholder | System | Named(name: string)

  datatype Row = Row(
    decision: Decision, decider: Decider, decidedAt: Option<Time>,
    contentHash: Digest, recipientHash: Digest,
    sender: string, channel: string, policy: Policy, createdAt: Time)

  /** The promise a caller of the gate waits on. */
  datatype Outcome = Waiting | Returned(approved: bool) | Threw

  /** The closure of one gate call: its `resolved` flag and its promise. */
  datatype Gate = Gate(resolved: bool, outcome: Outcome)

  /** What happens when the card is handed to the delivery function. */
  datatype Delivery = NoDelivery | Delivering | DeliveryThrows

  datatype Resolution = Ok | NotFound | AlreadyResolved

  /** An agent and a canonical address it has sent to. */
  datatype Contact = Contact(agent: string, address: JsString)

  datatype State = State(
    rows: map<ApprovalId, Row>,
    gates: map<ApprovalId, Gate>,
    pending: set<ApprovalId>,
    timers: set<ApprovalId>,
    known: set<Contact>)

  // ---- Recipients ----

  function Canonical(env: Env, address: JsString): JsString {
    env.lower(Trim(address))
  }

  function CanonicalList(env: Env, recipients: seq<JsString>): seq<JsString> {
    if recipients == [] then []
    else
      var n := |recipients| - 1;
      CanonicalList(env, recipients[..n]) + [Canonical(env, recipients[n])]
  }

  lemma {:induction false} CanonicalListIs(env: Env, recipients: seq<JsString>, i: nat)
    requires i < |recipients|
    ensures |CanonicalList(env, recipients)| == |recipients|
    ensures CanonicalList(env, recipients)[i] == env.lower(Trim(recipients[i]))
  {
    var n := |recipients| - 1;
    if i < n {
      CanonicalListIs(env, recipients[..n], i);
    } else if n > 0 {
      CanonicalListIs(env, recipients[..n], 0);
    }
  }

  function HashRecipientSet(env: Env, recipients: seq<JsString>): Digest {
    env.hashList(Sort(CanonicalList(env, recipients)))
  }

  /** The recipient-set hash depends on the multiset of canonical addresses and not
      on their order; and where the hash has no collision it identifies it. */
  lemma RecipientHashIgnoresOrder(env: Env, a: seq<JsString>, b: seq<JsString>)
    ensures multiset(CanonicalList(env, a)) == multiset(CanonicalList(env, b)) ==>
              HashRecipientSet(env, a) == HashRecipientSet(env, b)
    ensures (forall x, y :: env.hashList(x) == env.hashList(y) ==> x == y) &&
            HashRecipientSet(env, a) == HashRecipientSet(env, b) ==>
              multiset(CanonicalList(env, a)) == multiset(CanonicalList(env, b))
  {
    SortCanonical(CanonicalList(env, a), CanonicalList(env, b));
  }

  // ---- Policy ----

  function ReadWord(raw: string): PolicyWord {
    if raw == "all" then WordAll
    else if raw == "first_time_recipient" then WordFirstTimeRecipient
    else if raw == "external_only" then WordExternalOnly
    else if raw == "never" then WordNever
    else OtherWord
  }

  function NormalizeApprovalFor(word: PolicyWord): Policy {
    match word
    case WordAll => All
    case WordFirstTimeRecipient => FirstTimeRecipient
    case WordExternalOnly => ExternalOnly
    case WordNever => Never
    case OtherWord => All
  }

  predicate IsKnownRecipient(env: Env, known: set<Contact>, agent: string, recipient: JsString) {
    Contact(agent, Canonical(env, recipient)) in known
  }

  /** Fail-closed: a send skips the human exactly under "never", or under
      "first_time_recipient" when this agent has sent to every recipient before. */
  predicate RequiresGate(env: Env, known: set<Contact>, config: PolicyConfig, ctx: Context): (gated: bool)
    ensures !gated <==>
              || config.requireApprovalFor.WordNever?
              || (config.requireApprovalFor.WordFirstTimeRecipient? &&
                  forall r :: r in ctx.recipients ==> Contact(ctx.sender, Canonical(env, r)) in known)
  {
    match NormalizeApprovalFor(config.requireApprovalFor)
    case Never => false
    case All => true
    case FirstTimeRecipient => exists r | r in ctx.recipients :: !IsKnownRecipient(env, known, ctx.sender, r)
    case ExternalOnly => true
  }

  lemma HumanIsSkippedExactlyWhen(env: Env, known: set<Contact>, raw: string, ctx: Context)
    ensures !RequiresGate(env, known, PolicyConfig(ReadWord(raw)), ctx) <==>
              || raw == "never"
              || (raw == "first_time_recipient" &&
                  forall r :: r in ctx.recipients ==> Contact(ctx.sender, Canonical(env, r)) in known)
  {
  }

  // ---- Rows ----

  /** UPDATE ... WHERE approval_id = ? AND decided_at IS NULL */
  function DecideRow(rows: map<ApprovalId, Row>, id: ApprovalId, decision: Decision, decider: Decider, now: Time)
    : map<ApprovalId, Row>
  {
    if id in rows && rows[id].decidedAt.None?
    then rows[id := rows[id].(decision := decision, decider := decider, decidedAt := Some(now))]
    else rows
  }

  /** Resolving a settled promise again has no effect. */
  function Resolve(g: Gate, approved: bool): Gate {
    Gate(true, if g.outcome.Waiting? then Returned(approved) else g.outcome)
  }

  function NewRow(env: Env, ctx: Context, policy: Policy, now: Time): Row {
    Row(Pending, Placeholder, None, env.hashText(ctx.rawContent), HashRecipientSet(env, ctx.recipients),
        ctx.sender, ctx.channel, policy, now)
  }

  // ---- Steps ----

  /** The `resolved` branch shared by the timeout and the delivery failures. */
  function Deny(s: State, id: ApprovalId, now: Time): State {
    if id !in s.gates || s.gates[id].resolved then s
    else s.(gates := s.gates[id := Resolve(s.gates[id], false)],
            pending := s.pending - {id},
            timers := s.timers - {id},
            rows := DecideRow(s.rows, id, TimedOut, System, now))
  }

  /** approvalGate up to the point where its caller starts to wait. */
  function Open(env: Env, s: State, id: ApprovalId, ctx: Context,
                config: PolicyConfig, delivery: Delivery, now: Time): State
  {
    var row := NewRow(env, ctx, NormalizeApprovalFor(config.requireApprovalFor), now);
    if !RequiresGate(env, s.known, config, ctx) then
      s.(rows := s.rows[id := row.(decision := Approved, decider := System, decidedAt := Some(now))],
         gates := s.gates[id := Gate(true, Returned(true))])
    else
      var s1 := s.(rows := s.rows[id := row],
                   gates := s.gates[id := Gate(false, Waiting)],
                   pending := s.pending + {id}, timers := s.timers + {id});
      match delivery
      case Delivering => s1
      case DeliveryThrows => s1.(gates := s1.gates[id := Gate(false, Threw)])
      case NoDelivery => Deny(s1, id, now)
  }

  function TimeoutFires(s: State, id: ApprovalId, now: Time): State {
    if id in s.timers then Deny(s, id, now) else s
  }

  function ResolveGate(s: State, id: ApprovalId, approved: bool, decider: string, now: Time): (State, Resolution) {
    if id !in s.pending then
      (s, if id !in s.rows then NotFound else if s.rows[id].decidedAt.Some? then AlreadyResolved else NotFound)
    else
      var s1 := s.(rows := DecideRow(s.rows, id, if approved then Approved else Rejected, Named(decider), now));
      (if id !in s1.gates || s1.gates[id].resolved then s1
       else s1.(gates := s1.gates[id := Resolve(s1.gates[id], approved)],
                pending := s1.pending - {id}, timers := s1.timers - {id}),
       Ok)
  }

  /** A daemon restart: the process memory is gone, the rows stay. */
  function Restart(s: State): State {
    s.(gates := map[], pending := {}, timers := {})
  }

  function Sweep(s: State, now: Time): State {
    s.(rows := map id | id in s.rows ::
         if s.rows[id].decidedAt.None?
         then s.rows[id].(decision := TimedOut, decider := System, decidedAt := Some(now))
         else s.rows[id])
  }

  function RecordSuccessfulSend(env: Env, s: State, agent: string, recipients: seq<JsString>): State {
    s.(known := Remember(env, s.known, agent, recipients))
  }

  function Remember(env: Env, known: set<Contact>, agent: string, recipients: seq<JsString>)
    : set<Contact>
  {
    if recipients == [] then known
    else
      var n := |recipients| - 1;
      Remember(env, known, agent, recipients[..n]) + {Contact(agent, Canonical(env, recipients[n]))}
  }

  /** All recipients become known to the agent that sent, and nobody else. */
  lemma {:induction false} RememberExactly(env: Env, known: set<Contact>, agent: string,
                                           recipients: seq<JsString>, who: string, address: JsString)
    ensures Contact(who, address) in Remember(env, known, agent, recipients) <==>
              Contact(who, address) in known || (who == agent && address in CanonicalList(env, recipients))
  {
    if recipients != [] {
      var n := |recipients| - 1;
      RememberExactly(env, known, agent, recipients[..n], who, address);
    }
  }

  /** The module as it is written, one mutable field per module variable and table. */
  class GateKeeper {
    const env: Env
    var rows: map<ApprovalId, Row>
    var gates: map<ApprovalId, Gate>
    var pending: set<ApprovalId>
    var timers: set<ApprovalId>
    var known: set<Contact>

    ghost function View(): State
      reads this
    {
      State(rows, gates, pending, timers, known)
    }

    constructor (env: Env)
      ensures this.env == env && View() == State(map[], map[], {}, {}, {})
    {
      this.env := env;
      rows, gates, pending, timers, known := map[], map[], {}, {}, {};
    }

    method UpdateUndecided(id: ApprovalId, decision: Decision, decider: Decider, now: Time)
      modifies `rows
      ensures rows == DecideRow(old(rows), id, decision, decider, now)
    {
      if id in rows && rows[id].decidedAt.None? {
        rows := rows[id := rows[id].(decision := decision, decider := decider, decidedAt := Some(now))];
      }
    }

    /** The gate's closure: mark it resolved, forget it, settle its promise. */
    method Close(id: ApprovalId, approved: bool)
      requires id in gates
      modifies `gates, `pending, `timers
      ensures gates == old(gates)[id := Resolve(old(gates)[id], approved)]
      ensures pending == old(pending) - {id} && timers == old(timers) - {id}
    {
      pending, timers := pending - {id}, timers - {id};
      if gates[id].outcome.Waiting? {
        gates := gates[id := Gate(true, Returned(approved))];
      } else {
        gates := gates[id := gates[id].(resolved := true)];
      }
    }

    method DenyUnlessResolved(id: ApprovalId, now: Time)
      modifies this
      ensures View() == Deny(old(View()), id, now)
    {
      if id !in gates || gates[id].resolved {
        return;
      }
      Close(id, false);
      UpdateUndecided(id, TimedOut, System, now);
    }

    method OnTimeout(id: ApprovalId, now: Time)
      requires id in timers
      modifies this
      ensures View() == TimeoutFires(old(View()), id, now)
    {
      DenyUnlessResolved(id, now);
    }

    method ApprovalGate(id: ApprovalId, ctx: Context,
                        config: Option<PolicyConfig>, delivery: Delivery, now: Time) returns (passed: bool)
      requires id !in rows
      modifies this
      ensures passed <==> config.None?
      ensures View() == if config.None? then old(View())
                        else Open(env, old(View()), id, ctx, config.value, delivery, now)
    {
      if config.None? {
        return true;
      }
      var row := NewRow(env, ctx, NormalizeApprovalFor(config.value.requireApprovalFor), now);
      if !RequiresGate(env, known, config.value, ctx) {
        rows := rows[id := row.(decision := Approved, decider := System, decidedAt := Some(now))];
        gates := gates[id := Gate(true, Returned(true))];
        return false;
      }
      rows := rows[id := row];
      gates := gates[id := Gate(false, Waiting)];
      timers := timers + {id};
      pending := pending + {id};
      match delivery {
        case Delivering =>
        case DeliveryThrows => gates := gates[id := Gate(false, Threw)];
        case NoDelivery => DenyUnlessResolved(id, now);
      }
      return false;
    }

    method ResolvePending(id: ApprovalId, approved: bool, decider: string, now: Time) returns (r: Resolution)
      modifies this
      ensures (View(), r) == ResolveGate(old(View()), id, approved, decider, now)
    {
      if id !in pending {
        if id !in rows { return NotFound; }
        if rows[id].decidedAt.Some? { return AlreadyResolved; }
        return NotFound;
      }
      UpdateUndecided(id, if approved then Approved else Rejected, Named(decider), now);
      if id in gates && !gates[id].resolved {
        Close(id, approved);
      }
      return Ok;
    }

    /** The startup sweep visits the undecided rows in any order. */
    method SweepStaleApprovals(now: Time) returns (swept: nat)
      modifies `rows
      ensures View() == Sweep(old(View()), now)
      ensures swept == |set id | id in old(rows) && old(rows)[id].decidedAt.None?|
    {
      var undecided := set id | id in rows && rows[id].decidedAt.None?;
      var todo := undecided;
      swept := 0;
      while todo != {}
        invariant todo <= undecided && swept == |undecided| - |todo|
        invariant rows.Keys == old(rows).Keys
        invariant forall id :: id in rows ==>
          rows[id] == (if id in undecided && id !in todo
                       then old(rows)[id].(decision := TimedOut, decider := System, decidedAt := Some(now))
                       else old(rows)[id])
        decreases todo
      {
        var id :| id in todo;
        UpdateUndecided(id, TimedOut, System, now);
        todo := todo - {id};
        swept := swept + 1;
      }
    }

    method RecordSend(agent: string, recipients: seq<JsString>)
      modifies `known
      ensures View() == RecordSuccessfulSend(env, old(View()), agent, recipients)
    {
      for i := 0 to |recipients|
        invariant known == Remember(env, old(known), agent, recipients[..i])
      {
        known := known + {Contact(agent, Canonical(env, recipients[i]))};
        assert recipients[..i + 1][..i] == recipients[..i];
      }
      assert recipients[..|recipients|] == recipients;
    }
  }
}
