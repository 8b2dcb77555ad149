/** The outbound path of daemon/src/comms/channel-router.ts with the approval gate
    registered as its outbound gate. */
module ChannelRouter {
  import opened Wrappers
  import opened Sequences
  import opened JsStrings
  import opened ApprovalGate

  datatype Message = Message(text: JsString, recipients: seq<JsString>, sender: string)

  /** What one channel's delivery waits for: nothing (no gate registered), a gate that
      lets a channel without policy through, a gate call with an audit row, or a gate
      call that threw before it wrote its row. */
  datatype Link = Ungated | PassedThrough | GatedBy(id: ApprovalId) | GateFailed

  /** One channel of one routeMessage call; `done` once its entry in the results
      record is settled or its process is gone. */
  datatype Flight = Flight(message: Message, channel: string, hasPolicy: bool, link: Link, done: bool)

  /** One call of adapter.send, naming the flight it belongs to. */
  datatype Send = Send(flight: nat, text: JsString)

  datatype RouterState = RouterState(
    gate: ApprovalGate.State,
    registered: bool,
    adapters: seq<string>,
    flights: seq<Flight>,
    sends: seq<Send>)

  /** Everything outside that one channel's delivery meets before it first waits. */
  datatype Circumstances = Circumstances(
    id: ApprovalId, config: Option<PolicyConfig>, delivery: Delivery, insertFails: bool, now: Time)

  function ContextOf(message: Message, channel: string): Context {
    Context(channel, message.recipients, message.text, message.sender)
  }

  /** The channel's adapter may rewrite the text; the gate hashes the original. */
  function Begin(env: Env, format: (string, JsString) -> JsString, s: RouterState,
                 message: Message, channel: string, c: Circumstances): RouterState
  {
    var flight := Flight(message, channel, c.config.Some?, Ungated, false);
    if !s.registered then
      s.(flights := s.flights + [flight.(done := true)],
         sends := s.sends + [Send(|s.flights|, format(channel, message.text))])
    else if c.config.None? then
      s.(flights := s.flights + [flight.(link := PassedThrough)])
    else if c.insertFails then
      s.(flights := s.flights + [flight.(link := GateFailed)])
    else
      s.(flights := s.flights + [flight.(link := GatedBy(c.id))],
         gate := Open(env, s.gate, c.id, ContextOf(message, channel), c.config.value, c.delivery, c.now))
  }

  datatype Verdict = NotYet | Go | Stop

  function VerdictFor(s: RouterState, link: Link): Verdict {
    match link
    case Ungated => Go
    case PassedThrough => Go
    case GateFailed => Stop
    case GatedBy(id) =>
      if id !in s.gate.gates then NotYet
      else match s.gate.gates[id].outcome
        case Waiting => NotYet
        case Returned(approved) => if approved then Go else Stop
        case Threw => Stop
  }

  /** The rest of one channel's delivery, run at any time after its gate settled. */
  function Continue(format: (string, JsString) -> JsString, s: RouterState, i: nat): RouterState {
    if i >= |s.flights| || s.flights[i].done then s
    else
      var flight := s.flights[i];
      match VerdictFor(s, flight.link)
      case NotYet => s
      case Stop => s.(flights := s.flights[i := flight.(done := true)])
      case Go => s.(flights := s.flights[i := flight.(done := true)],
                    sends := s.sends + [Send(i, format(flight.channel, flight.message.text))])
  }

  /** A daemon restart: nothing that was waiting goes on. */
  function RestartRouter(s: RouterState): RouterState {
    s.(gate := Restart(s.gate),
       flights := seq(|s.flights|, i requires 0 <= i < |s.flights| => s.flights[i].(done := true)))
  }

  /** The targets of a call: the listed channels that have an adapter, or all. */
  function Targets(adapters: seq<string>, channels: seq<string>): seq<string> {
    if channels == [] then adapters else Keep(adapters, channels)
  }

  function Keep(adapters: seq<string>, channels: seq<string>): (r: seq<string>)
    ensures forall c :: c in r <==> c in channels && c in adapters
    ensures forall c :: multiset(r)[c] == if c in adapters then multiset(channels)[c] else 0
    ensures Subsequence(r, channels)
  {
    if channels == [] then []
    else
      var front, last := channels[..|channels| - 1], channels[|channels| - 1];
      var kept := Keep(adapters, front);
      assert channels == front + [last];
      SubsequenceSnoc(kept, front, last);
      if last in adapters then kept + [last] else kept
  }

  function BeginAll(env: Env, format: (string, JsString) -> JsString, s: RouterState,
                    message: Message, targets: seq<string>, cs: seq<Circumstances>): RouterState
    requires |targets| <= |cs|
    decreases |targets|
  {
    if targets == [] then s
    else
      var n := |targets| - 1;
      Begin(env, format, BeginAll(env, format, s, message, targets[..n], cs), message, targets[n], cs[n])
  }

  /** The router as it is written: its own fields beside the gate it was given. */
  class Router {
    const keeper: GateKeeper
    const format: (string, JsString) -> JsString
    var registered: bool
    var adapters: seq<string>
    var flights: seq<Flight>
    ghost var sends: seq<Send>

    ghost function View(): RouterState
      reads this, keeper
    {
      RouterState(keeper.View(), registered, adapters, flights, sends)
    }

    constructor (keeper: GateKeeper, format: (string, JsString) -> JsString)
      ensures this.keeper == keeper && this.format == format
      ensures View() == RouterState(keeper.View(), false, [], [], [])
    {
      this.keeper, this.format := keeper, format;
      registered, adapters, flights, sends := false, [], [], [];
    }

    method RegisterOutboundGate()
      modifies `registered
      ensures View() == old(View()).(registered := true)
    {
      registered := true;
    }

    method RegisterAdapter(name: string)
      modifies `adapters
      ensures View() == old(View()).(adapters :=
                                      if name in old(adapters) then old(adapters) else old(adapters) + [name])
    {
      if name !in adapters {
        adapters := adapters + [name];
      }
    }

    method BeginChannel(message: Message, channel: string, c: Circumstances)
      requires c.id !in keeper.rows
      modifies this, keeper
      ensures View() == Begin(keeper.env, format, old(View()), message, channel, c)
      ensures registered == old(registered) && adapters == old(adapters)
      ensures keeper.rows.Keys <= old(keeper.rows.Keys) + {c.id}
    {
      var n := |flights|;
      flights := flights + [Flight(message, channel, c.config.Some?, Ungated, false)];
      if registered {
        if c.config.Some? && c.insertFails {
          flights := flights[n := flights[n].(link := GateFailed)];
        } else {
          var passed := keeper.ApprovalGate(c.id, ContextOf(message, channel), c.config, c.delivery, c.now);
          flights := flights[n := flights[n].(link := if passed then PassedThrough else GatedBy(c.id))];
        }
      } else {
        sends := sends + [Send(n, format(channel, message.text))];
        flights := flights[n := flights[n].(done := true)];
      }
    }

    /** The synchronous part of routeMessage: every target runs up to its gate. */
    method RouteMessage(message: Message, channels: seq<string>, cs: seq<Circumstances>)
      requires |Targets(adapters, channels)| <= |cs|
      requires forall i :: 0 <= i < |cs| ==> cs[i].id !in keeper.rows
      requires forall i, j :: 0 <= i < j < |cs| ==> cs[i].id != cs[j].id
      modifies this, keeper
      ensures View() == BeginAll(keeper.env, format, old(View()), message, Targets(old(adapters), channels), cs)
    {
      var targets := if channels == [] then adapters else Keep(adapters, channels);
      assert targets[..0] == [];
      for i := 0 to |targets|
        invariant View() == BeginAll(keeper.env, format, old(View()), message, targets[..i], cs)
        invariant forall j :: i <= j < |cs| ==> cs[j].id !in keeper.rows
      {
        assert targets[..i + 1][..i] == targets[..i] && targets[..i + 1][i] == targets[i];
        BeginChannel(message, targets[i], cs[i]);
      }
      assert targets[..|targets|] == targets;
    }

    method ContinueFlight(i: nat)
      requires i < |flights|
      modifies this
      ensures View() == Continue(format, old(View()), i)
    {
      var flight := flights[i];
      if flight.done {
        return;
      }
      var go := true;
      if flight.link.GateFailed? {
        go := false;
      } else if flight.link.GatedBy? {
        var id := flight.link.id;
        if id !in keeper.gates || keeper.gates[id].outcome.Waiting? {
          return;
        }
        go := keeper.gates[id].outcome.Returned? && keeper.gates[id].outcome.approved;
      }
      flights := flights[i := flight.(done := true)];
      if go {
        sends := sends + [Send(i, format(flight.channel, flight.message.text))];
      }
    }
  }
}

/** Every outbound send on a channel with a policy has its own approved audit row. */
module ChannelRouterSafety {
  import opened Wrappers
  import opened JsStrings
  import opened ApprovalGate
  import Gate = ApprovalGateSafety
  import opened ChannelRouter

  datatype Step =
    | BeginStep(message: Message, channel: string, circumstances: Circumstances)
    | ContinueStep(i: nat)
    | GateStep(step: Gate.Step)
    | RestartStep

  ghost predicate Legal(s: RouterState, step: Step) {
    match step
    case BeginStep(_, _, c) => c.id !in s.gate.rows
    case GateStep(g) => !g.OpenStep? && !g.RestartStep? && Gate.Legal(s.gate, g)
    case _ => true
  }

  ghost function Next(env: Env, format: (string, JsString) -> JsString, s: RouterState, step: Step): RouterState {
    match step
    case BeginStep(message, channel, c) => Begin(env, format, s, message, channel, c)
    case ContinueStep(i) => Continue(format, s, i)
    case GateStep(g) => s.(gate := Gate.Next(env, s.gate, g))
    case RestartStep => RestartRouter(s)
  }

  /** The audit row of a flight describes its message. */
  ghost predicate Linked(env: Env, rows: map<ApprovalId, Row>, f: Flight) {
    && !f.link.Ungated?
    && (f.hasPolicy <==> !f.link.PassedThrough?)
    && (f.link.GatedBy? ==> f.link.id in rows && Describes(env, rows[f.link.id], f.message, f.channel))
  }

  ghost predicate Describes(env: Env, row: Row, message: Message, channel: string) {
    && row.contentHash == env.hashText(message.text)
    && row.recipientHash == HashRecipientSet(env, message.recipients)
    && row.channel == channel
    && row.sender == message.sender
  }

  ghost predicate FlightLinked(env: Env, s: RouterState, i: nat)
    requires i < |s.flights|
  {
    Linked(env, s.gate.rows, s.flights[i])
  }

  ghost predicate SendApproved(s: RouterState, k: nat)
    requires k < |s.sends|
  {
    var i := s.sends[k].flight;
    && i < |s.flights|
    && s.flights[i].done
    && !s.flights[i].link.GateFailed?
    && (s.flights[i].link.GatedBy? ==>
          var id := s.flights[i].link.id;
          && id in s.gate.rows && s.gate.rows[id].decidedAt.Some? && s.gate.rows[id].decision.Approved?
          && (id in s.gate.gates ==> s.gate.gates[id].outcome == Returned(true)))
  }

  ghost predicate OwnRow(s: RouterState, i: nat, j: nat)
    requires i < j < |s.flights|
  {
    s.flights[i].link.GatedBy? && s.flights[j].link.GatedBy? ==> s.flights[i].link.id != s.flights[j].link.id
  }

  ghost predicate Invariant(env: Env, s: RouterState) {
    && Gate.Agreement(s.gate)
    && s.registered
    && (forall i: nat :: i < |s.flights| ==> FlightLinked(env, s, i))
    && (forall i: nat, j: nat :: i < j < |s.flights| ==> OwnRow(s, i, j))
    && (forall k: nat :: k < |s.sends| ==> SendApproved(s, k))
    && (forall k: nat, l: nat :: k < l < |s.sends| ==> s.sends[k].flight != s.sends[l].flight)
  }

  /** No gate is opened for an old row, and a settled one keeps its outcome. */
  ghost predicate OutcomeKept(g: ApprovalGate.State, h: ApprovalGate.State, id: ApprovalId) {
    id in g.rows && id in h.gates ==>
      && id in g.gates
      && (!g.gates[id].outcome.Waiting? ==> h.gates[id].outcome == g.gates[id].outcome)
  }

  /** Any change of the gate that keeps its rows and outcomes keeps the router's side. */
  lemma RowsKept(env: Env, s: RouterState, t: RouterState)
    requires Invariant(env, s) && Gate.Agreement(t.gate)
    requires t == s.(gate := t.gate)
    requires forall id :: Gate.RowKept(s.gate, t.gate, id)
    requires forall id :: OutcomeKept(s.gate, t.gate, id)
    ensures Invariant(env, t)
  {
    forall i: nat | i < |t.flights| ensures FlightLinked(env, t, i) {
      assert FlightLinked(env, s, i);
      if s.flights[i].link.GatedBy? {
        assert Gate.RowKept(s.gate, t.gate, s.flights[i].link.id);
      }
    }
    forall i: nat, j: nat | i < j < |t.flights| ensures OwnRow(t, i, j) {
      assert OwnRow(s, i, j);
    }
    forall k: nat | k < |t.sends| ensures SendApproved(t, k) {
      assert SendApproved(s, k);
      var f := s.flights[s.sends[k].flight];
      if f.link.GatedBy? {
        assert Gate.RowKept(s.gate, t.gate, f.link.id);
        assert OutcomeKept(s.gate, t.gate, f.link.id);
      }
    }
  }

  lemma GateKeepsRows(env: Env, g: ApprovalGate.State, step: Gate.Step)
    requires Gate.Agreement(g) && Gate.Legal(g, step)
    ensures Gate.Agreement(Gate.Next(env, g, step))
    ensures forall id :: Gate.RowKept(g, Gate.Next(env, g, step), id)
    ensures forall id :: OutcomeKept(g, Gate.Next(env, g, step), id)
  {
    Gate.NextKeeps(env, g, step);
    Gate.NextGates(env, g, step);
    forall id
      ensures Gate.RowKept(g, Gate.Next(env, g, step), id)
      ensures OutcomeKept(g, Gate.Next(env, g, step), id)
    {
      Gate.NextWritesOnce(env, g, step, id);
    }
  }

  /** No flight waits for the row. */
  ghost predicate NotYetUsed(s: RouterState, link: Link) {
    forall i :: 0 <= i < |s.flights| && link.GatedBy? ==> s.flights[i].link != link
  }

  lemma AddFlight(env: Env, s: RouterState, flight: Flight)
    requires Invariant(env, s)
    ensures Linked(env, s.gate.rows, flight) && NotYetUsed(s, flight.link) ==>
              Invariant(env, s.(flights := s.flights + [flight]))
  {
    if Linked(env, s.gate.rows, flight) && NotYetUsed(s, flight.link) {
      var t := s.(flights := s.flights + [flight]);
      forall i: nat | i < |t.flights| ensures FlightLinked(env, t, i) {
        assert i < |s.flights| ==> FlightLinked(env, s, i);
      }
      forall i: nat, j: nat | i < j < |t.flights| ensures OwnRow(t, i, j) {
        assert j < |s.flights| ==> OwnRow(s, i, j);
      }
      forall k: nat | k < |t.sends| ensures SendApproved(t, k) {
        assert SendApproved(s, k);
      }
    }
  }

  lemma FreshIsNotUsed(env: Env, s: RouterState, id: ApprovalId)
    requires Invariant(env, s) && id !in s.gate.rows
    ensures NotYetUsed(s, GatedBy(id))
  {
    forall i: nat | i < |s.flights| ensures s.flights[i].link != GatedBy(id) {
      assert FlightLinked(env, s, i);
    }
  }

  /** A gate call that inserts its row. */
  lemma BeginGatedKeeps(env: Env, s: RouterState, message: Message, channel: string, c: Circumstances, done: bool)
    requires Invariant(env, s) && c.id !in s.gate.rows && c.config.Some?
    ensures var gate := Open(env, s.gate, c.id, ContextOf(message, channel), c.config.value, c.delivery, c.now);
            var flight := Flight(message, channel, true, GatedBy(c.id), done);
            Invariant(env, s.(gate := gate, flights := s.flights + [flight]))
  {
    var step := Gate.OpenStep(c.id, ContextOf(message, channel), c.config.value, c.delivery, c.now);
    GateKeepsRows(env, s.gate, step);
    var t := s.(gate := Gate.Next(env, s.gate, step));
    RowsKept(env, s, t);
    OpenDescribes(env, s.gate, message, channel, c);
    FreshIsNotUsed(env, s, c.id);
    AddFlight(env, t, Flight(message, channel, true, GatedBy(c.id), done));
  }

  lemma OpenDescribes(env: Env, g: ApprovalGate.State, message: Message, channel: string, c: Circumstances)
    requires c.config.Some?
    ensures var rows := Open(env, g, c.id, ContextOf(message, channel), c.config.value, c.delivery, c.now).rows;
            c.id in rows && Describes(env, rows[c.id], message, channel)
  {
  }

  lemma BeginKeeps(env: Env, format: (string, JsString) -> JsString, s: RouterState,
                   message: Message, channel: string, c: Circumstances)
    requires Invariant(env, s) && c.id !in s.gate.rows
    ensures Invariant(env, Begin(env, format, s, message, channel, c))
  {
    var flight := Flight(message, channel, c.config.Some?, Ungated, false);
    if c.config.None? {
      AddFlight(env, s, flight.(link := PassedThrough));
    } else if c.insertFails {
      AddFlight(env, s, flight.(link := GateFailed));
    } else {
      BeginGatedKeeps(env, s, message, channel, c, false);
    }
  }

  lemma MarkDone(env: Env, s: RouterState, i: nat)
    requires Invariant(env, s) && i < |s.flights|
    ensures Invariant(env, s.(flights := s.flights[i := s.flights[i].(done := true)]))
  {
    var t := s.(flights := s.flights[i := s.flights[i].(done := true)]);
    forall j: nat | j < |t.flights| ensures FlightLinked(env, t, j) {
      assert FlightLinked(env, s, j);
    }
    forall j: nat, k: nat | j < k < |t.flights| ensures OwnRow(t, j, k) {
      assert OwnRow(s, j, k);
    }
    forall k: nat | k < |t.sends| ensures SendApproved(t, k) {
      assert SendApproved(s, k);
    }
  }

  lemma ContinueKeeps(env: Env, format: (string, JsString) -> JsString, s: RouterState, i: nat)
    requires Invariant(env, s)
    ensures Invariant(env, Continue(format, s, i))
  {
    if i < |s.flights| && !s.flights[i].done && !VerdictFor(s, s.flights[i].link).NotYet? {
      var t := Continue(format, s, i);
      MarkDone(env, s, i);
      assert FlightLinked(env, s, i);
      forall k: nat | k < |s.sends| ensures s.sends[k].flight != i {
        assert SendApproved(s, k);
      }
      if VerdictFor(s, s.flights[i].link).Go? {
        if s.flights[i].link.GatedBy? {
          assert Gate.GateAgrees(s.gate, s.flights[i].link.id);
        }
        var m := s.(flights := s.flights[i := s.flights[i].(done := true)]);
        forall k: nat | k < |t.sends| ensures SendApproved(t, k) {
          if k < |s.sends| {
            assert SendApproved(m, k);
          }
        }
        forall j: nat | j < |t.flights| ensures FlightLinked(env, t, j) {
          assert FlightLinked(env, m, j);
        }
        forall j: nat, k: nat | j < k < |t.flights| ensures OwnRow(t, j, k) {
          assert OwnRow(m, j, k);
        }
      }
    }
  }

  lemma RestartKeeps(env: Env, s: RouterState)
    requires Invariant(env, s)
    ensures Invariant(env, RestartRouter(s))
  {
    var m := s.(gate := Restart(s.gate));
    GateKeepsRows(env, s.gate, Gate.RestartStep);
    RowsKept(env, s, m);
    var t := RestartRouter(s);
    forall j: nat | j < |t.flights| ensures FlightLinked(env, t, j) {
      assert FlightLinked(env, m, j);
    }
    forall j: nat, k: nat | j < k < |t.flights| ensures OwnRow(t, j, k) {
      assert OwnRow(m, j, k);
    }
    forall k: nat | k < |t.sends| ensures SendApproved(t, k) {
      assert SendApproved(m, k);
    }
  }

  lemma NextKeeps(env: Env, format: (string, JsString) -> JsString, s: RouterState, step: Step)
    requires Invariant(env, s) && Legal(s, step)
    ensures Invariant(env, Next(env, format, s, step))
  {
    match step
    case BeginStep(message, channel, c) => BeginKeeps(env, format, s, message, channel, c);
    case ContinueStep(i) => ContinueKeeps(env, format, s, i);
    case GateStep(g) =>
      GateKeepsRows(env, s.gate, g);
      RowsKept(env, s, s.(gate := Gate.Next(env, s.gate, g)));
    case RestartStep => RestartKeeps(env, s);
  }

  // ---- Runs ----

  ghost predicate LegalRun(env: Env, format: (string, JsString) -> JsString, s: RouterState, steps: seq<Step>)
    decreases |steps|
  {
    steps == [] || (Legal(s, steps[0]) && LegalRun(env, format, Next(env, format, s, steps[0]), steps[1..]))
  }

  ghost function Final(env: Env, format: (string, JsString) -> JsString, s: RouterState, steps: seq<Step>): RouterState
    decreases |steps|
  {
    if steps == [] then s else Final(env, format, Next(env, format, s, steps[0]), steps[1..])
  }

  lemma {:induction false} RunKeeps(env: Env, format: (string, JsString) -> JsString, s: RouterState, steps: seq<Step>)
    requires Invariant(env, s) && LegalRun(env, format, s, steps)
    ensures Invariant(env, Final(env, format, s, steps))
    decreases |steps|
  {
    if steps != [] {
      NextKeeps(env, format, s, steps[0]);
      RunKeeps(env, format, Next(env, format, s, steps[0]), steps[1..]);
    }
  }

  /** A send on a channel with a policy: its row is approved and carries the hashes of the
      original text and of the recipients, and its gate returned true, while it exists. */
  ghost predicate Covered(env: Env, s: RouterState, k: nat) {
    && k < |s.sends| && s.sends[k].flight < |s.flights|
    && var f := s.flights[s.sends[k].flight];
       f.hasPolicy ==>
         && f.link.GatedBy? && f.link.id in s.gate.rows
         && s.gate.rows[f.link.id].decision.Approved?
         && Describes(env, s.gate.rows[f.link.id], f.message, f.channel)
         && (f.link.id in s.gate.gates ==> s.gate.gates[f.link.id].outcome == Returned(true))
  }

  /** Two sends wait for different rows. */
  ghost predicate RowsDiffer(s: RouterState, k: nat, l: nat) {
    k < |s.sends| && l < |s.sends| && s.sends[k].flight < |s.flights| && s.sends[l].flight < |s.flights| ==>
      s.flights[s.sends[k].flight].link.GatedBy? ==>
        s.flights[s.sends[l].flight].link != s.flights[s.sends[k].flight].link
  }

  lemma SendsAreCovered(env: Env, s: RouterState, k: nat)
    requires Invariant(env, s) && k < |s.sends|
    ensures Covered(env, s, k)
  {
    assert SendApproved(s, k);
    assert FlightLinked(env, s, s.sends[k].flight);
  }

  lemma SendsHaveOwnRows(env: Env, s: RouterState, k: nat, l: nat)
    requires Invariant(env, s) && k < l < |s.sends|
    ensures RowsDiffer(s, k, l)
  {
    assert SendApproved(s, k) && SendApproved(s, l);
    var i, j := s.sends[k].flight, s.sends[l].flight;
    assert i < j ==> OwnRow(s, i, j);
    assert j < i ==> OwnRow(s, j, i);
  }

  /** A router with the gate registered, before anything was sent. */
  function Fresh(adapters: seq<string>, known: set<Contact>): RouterState {
    RouterState(ApprovalGate.State(map[], map[], {}, {}, known), true, adapters, [], [])
  }

  lemma FreshIsFine(env: Env, adapters: seq<string>, known: set<Contact>)
    ensures Invariant(env, Fresh(adapters, known))
  {
    assert Gate.Agreement(Fresh(adapters, known).gate);
  }

  /** On every run with the gate registered: every send is covered by an approved row, and
      no two share one. */
  lemma EverySendWasApproved(env: Env, format: (string, JsString) -> JsString, adapters: seq<string>,
                             known: set<Contact>, steps: seq<Step>)
    requires LegalRun(env, format, Fresh(adapters, known), steps)
    ensures var t := Final(env, format, Fresh(adapters, known), steps);
            && (forall k: nat :: k < |t.sends| ==> Covered(env, t, k))
            && (forall k: nat, l: nat :: k < l < |t.sends| ==> RowsDiffer(t, k, l))
  {
    FreshIsFine(env, adapters, known);
    RunKeeps(env, format, Fresh(adapters, known), steps);
    var t := Final(env, format, Fresh(adapters, known), steps);
    forall k: nat | k < |t.sends| ensures Covered(env, t, k) {
      SendsAreCovered(env, t, k);
    }
    forall k: nat, l: nat | k < l < |t.sends| ensures RowsDiffer(t, k, l) {
      SendsHaveOwnRows(env, t, k, l);
    }
  }

  // ---- What is sent ----

  ghost predicate Rendered(format: (string, JsString) -> JsString, s: RouterState) {
    forall k: nat :: k < |s.sends| ==> RenderedAt(format, s, k)
  }

  /** The text of a send is its channel's rendering of the message of its flight. */
  ghost predicate RenderedAt(format: (string, JsString) -> JsString, s: RouterState, k: nat)
    requires k < |s.sends|
  {
    && s.sends[k].flight < |s.flights|
    && var f := s.flights[s.sends[k].flight];
       s.sends[k].text == format(f.channel, f.message.text)
  }

  lemma NextRenders(env: Env, format: (string, JsString) -> JsString, s: RouterState, step: Step)
    requires Rendered(format, s)
    ensures Rendered(format, Next(env, format, s, step))
  {
    var t := Next(env, format, s, step);
    forall k: nat | k < |t.sends| ensures RenderedAt(format, t, k) {
      assert k < |s.sends| ==> RenderedAt(format, s, k);
    }
  }

  /** On every run: what goes out on a channel is the rendering of the very text whose
      hash the gate recorded. */
  lemma {:induction false} SendsCarryTheMessage(env: Env, format: (string, JsString) -> JsString,
                                                s: RouterState, steps: seq<Step>)
    requires Rendered(format, s)
    ensures Rendered(format, Final(env, format, s, steps))
    decreases |steps|
  {
    if steps != [] {
      NextRenders(env, format, s, steps[0]);
      SendsCarryTheMessage(env, format, Next(env, format, s, steps[0]), steps[1..]);
    }
  }
}

/** What the approval gate keeps from being sent, on every run of the router. */
module RouterDenials {
  import opened Wrappers
  import opened JsStrings
  import opened ApprovalGate
  import Gate = ApprovalGateSafety
  import opened ChannelRouter
  import opened ChannelRouterSafety

  /** The promise of the gate was rejected, or said no. */
  predicate Denied(outcome: Outcome) {
    outcome.Threw? || outcome == Returned(false)
  }

  ghost predicate NoSendFor(s: RouterState, id: ApprovalId) {
    forall k: nat :: k < |s.sends| ==> !SentFor(s, k, id)
  }

  ghost predicate SentFor(s: RouterState, k: nat, id: ApprovalId)
    requires k < |s.sends|
  {
    s.sends[k].flight < |s.flights| && s.flights[s.sends[k].flight].link == GatedBy(id)
  }

  /** The row exists, its gate is denied or gone with its process, and nothing was sent. */
  ghost predicate Barred(s: RouterState, id: ApprovalId) {
    && id in s.gate.rows
    && (id in s.gate.gates ==> Denied(s.gate.gates[id].outcome))
    && NoSendFor(s, id)
  }

  lemma ContinueBarred(format: (string, JsString) -> JsString, s: RouterState, i: nat, id: ApprovalId)
    requires Barred(s, id) && forall k: nat :: k < |s.sends| ==> s.sends[k].flight < |s.flights|
    ensures NoSendFor(Continue(format, s, i), id)
  {
    var t := Continue(format, s, i);
    forall k: nat | k < |t.sends| ensures !SentFor(t, k, id) {
      assert k < |s.sends| ==> !SentFor(s, k, id);
    }
  }

  lemma BeginBarred(env: Env, format: (string, JsString) -> JsString, s: RouterState,
                    message: Message, channel: string, c: Circumstances, id: ApprovalId)
    requires Barred(s, id) && forall k: nat :: k < |s.sends| ==> s.sends[k].flight < |s.flights|
    ensures NoSendFor(Begin(env, format, s, message, channel, c), id)
  {
    var t := Begin(env, format, s, message, channel, c);
    forall k: nat | k < |t.sends| ensures !SentFor(t, k, id) {
      assert k < |s.sends| ==> !SentFor(s, k, id);
    }
  }

  lemma SameSends(s: RouterState, t: RouterState, id: ApprovalId)
    requires NoSendFor(s, id) && t.sends == s.sends && |t.flights| == |s.flights|
    requires forall i :: 0 <= i < |s.flights| ==> t.flights[i].link == s.flights[i].link
    ensures NoSendFor(t, id)
  {
    forall k: nat | k < |t.sends| ensures !SentFor(t, k, id) {
      assert !SentFor(s, k, id);
    }
  }

  /** The gate's part of a step. */
  lemma GateBarred(env: Env, g: ApprovalGate.State, step: Gate.Step, id: ApprovalId)
    requires Gate.Agreement(g) && Gate.Legal(g, step)
    requires id in g.rows && (id in g.gates ==> Denied(g.gates[id].outcome))
    ensures var h := Gate.Next(env, g, step); id in h.rows && (id in h.gates ==> Denied(h.gates[id].outcome))
  {
    GateKeepsRows(env, g, step);
    assert Gate.RowKept(g, Gate.Next(env, g, step), id);
    assert OutcomeKept(g, Gate.Next(env, g, step), id);
  }

  lemma NextBarred(env: Env, format: (string, JsString) -> JsString, s: RouterState, step: Step, id: ApprovalId)
    requires Invariant(env, s) && Legal(s, step) && Barred(s, id)
    ensures Barred(Next(env, format, s, step), id)
  {
    forall k: nat | k < |s.sends| ensures s.sends[k].flight < |s.flights| {
      assert SendApproved(s, k);
    }
    match step
    case BeginStep(message, channel, c) =>
      BeginBarred(env, format, s, message, channel, c, id);
      if c.config.Some? {
        var open := Gate.OpenStep(c.id, ContextOf(message, channel), c.config.value, c.delivery, c.now);
        GateBarred(env, s.gate, open, id);
      }
    case ContinueStep(i) => ContinueBarred(format, s, i, id);
    case GateStep(g) =>
      GateBarred(env, s.gate, g, id);
      SameSends(s, Next(env, format, s, step), id);
    case RestartStep =>
      GateBarred(env, s.gate, Gate.RestartStep, id);
      SameSends(s, Next(env, format, s, step), id);
  }

  /** A gate that was denied sends nothing on any run, whether it threw after its row was
      written, said no, or timed out, and even if a human approves its row later. */
  lemma DeniedGateNeverSends(env: Env, format: (string, JsString) -> JsString, s: RouterState,
                             steps: seq<Step>, id: ApprovalId)
    requires Invariant(env, s) && LegalRun(env, format, s, steps)
    requires id in s.gate.gates && Denied(s.gate.gates[id].outcome)
    ensures NoSendFor(Final(env, format, s, steps), id)
  {
    assert Gate.GateAgrees(s.gate, id);
    forall k: nat | k < |s.sends| ensures !SentFor(s, k, id) {
      assert SendApproved(s, k);
    }
    BarredStays(env, format, s, steps, id);
  }

  lemma {:induction false} BarredStays(env: Env, format: (string, JsString) -> JsString, s: RouterState,
                                       steps: seq<Step>, id: ApprovalId)
    requires Invariant(env, s) && LegalRun(env, format, s, steps)
    ensures Barred(s, id) ==> Barred(Final(env, format, s, steps), id)
    decreases |steps|
  {
    if steps != [] && Barred(s, id) {
      NextBarred(env, format, s, steps[0], id);
      NextKeeps(env, format, s, steps[0]);
      BarredStays(env, format, Next(env, format, s, steps[0]), steps[1..], id);
    }
  }

  /** A gate call that threw before its row was written settles without a send. */
  lemma FailedGateSendsNothing(env: Env, s: RouterState, k: nat)
    requires Invariant(env, s) && k < |s.sends|
    ensures s.sends[k].flight < |s.flights| && !s.flights[s.sends[k].flight].link.GateFailed?
  {
    assert SendApproved(s, k);
  }
}
