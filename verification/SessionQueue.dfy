/** The per-session injection queue of daemon/src/agents/tmux.ts: a chain of promises
    per session, under any scheduling of the promise callbacks. */
module SessionQueue {
  import opened Wrappers

  type Session = string

  /** A queued body: waiting for the chain link before it, running, settled (with the
      promise its caller holds), or settled with its own chain link settled too. */
  datatype Phase = Waiting | Running | Settled(ok: bool) | Released(ok: bool)

  /** `prior` is the chain link the body was attached to. */
  datatype Entry = Entry(session: Session, prior: Option<nat>, phase: Phase)

  datatype State = State(entries: seq<Entry>, tails: map<Session, nat>, starts: seq<nat>)

  function Initial(): State {
    State([], map[], [])
  }

  function Enqueue(s: State, session: Session): State {
    var prior := if session in s.tails then Some(s.tails[session]) else None;
    s.(entries := s.entries + [Entry(session, prior, Waiting)],
       tails := s.tails[session := |s.entries|])
  }

  /** The callback of `prior.then(fn, fn)` may run once the prior link has settled. */
  predicate CanStart(s: State, i: nat) {
    && i < |s.entries| && s.entries[i].phase.Waiting?
    && (s.entries[i].prior.Some? ==>
          s.entries[i].prior.value < |s.entries| && s.entries[s.entries[i].prior.value].phase.Released?)
  }

  function SetPhase(s: State, i: nat, phase: Phase): State
    requires i < |s.entries|
  {
    s.(entries := s.entries[i := s.entries[i].(phase := phase)])
  }

  datatype Step = EnqueueStep(session: Session) | StartStep(i: nat) | SettleStep(i: nat, ok: bool) | ReleaseStep(i: nat)

  predicate Enabled(s: State, step: Step) {
    match step
    case EnqueueStep(_) => true
    case StartStep(i) => CanStart(s, i)
    case SettleStep(i, _) => i < |s.entries| && s.entries[i].phase.Running?
    case ReleaseStep(i) => i < |s.entries| && s.entries[i].phase.Settled?
  }

  function Next(s: State, step: Step): State
    requires Enabled(s, step)
  {
    match step
    case EnqueueStep(session) => Enqueue(s, session)
    case StartStep(i) => SetPhase(s, i, Running).(starts := s.starts + [i])
    case SettleStep(i, ok) => SetPhase(s, i, Settled(ok))
    case ReleaseStep(i) => SetPhase(s, i, Released(s.entries[i].phase.ok))
  }

  /** The map of chain tails as it is written, with the promises it creates. */
  class Queues {
    var entries: seq<Entry>
    var sessionQueues: map<Session, nat>
    ghost var starts: seq<nat>

    ghost function View(): State
      reads this
    {
      State(entries, sessionQueues, starts)
    }

    constructor ()
      ensures View() == Initial()
    {
      entries, sessionQueues, starts := [], map[], [];
    }

    /** Attach a body to the session's tail; its link becomes the new tail. */
    method EnqueueForSession(session: Session) returns (i: nat)
      modifies this
      ensures i == old(|entries|) && View() == Enqueue(old(View()), session)
    {
      var prior: Option<nat> := None;
      if session in sessionQueues {
        prior := Some(sessionQueues[session]);
      }
      i := |entries|;
      entries := entries + [Entry(session, prior, Waiting)];
      sessionQueues := sessionQueues[session := i];
    }

    method RunCallback(i: nat)
      requires CanStart(View(), i)
      modifies this
      ensures View() == Next(old(View()), StartStep(i))
    {
      entries := entries[i := entries[i].(phase := Running)];
      starts := starts + [i];
    }

    /** A body resolves or rejects; either way its link will settle. */
    method Settle(i: nat, ok: bool)
      requires i < |entries| && entries[i].phase.Running?
      modifies `entries
      ensures View() == Next(old(View()), SettleStep(i, ok))
    {
      entries := entries[i := entries[i].(phase := Settled(ok))];
    }

    method Release(i: nat)
      requires i < |entries| && entries[i].phase.Settled?
      modifies `entries
      ensures View() == Next(old(View()), ReleaseStep(i))
    {
      entries := entries[i := entries[i].(phase := Released(entries[i].phase.ok))];
    }
  }

  // ---- The invariant ----

  /** The entry is attached to the previous entry of its session. */
  ghost predicate Attached(s: State, i: nat)
    requires i < |s.entries|
  {
    var e := s.entries[i];
    && (e.prior.Some? ==> e.prior.value < i && s.entries[e.prior.value].session == e.session)
    && (forall k: nat :: k < i && s.entries[k].session == e.session ==> e.prior.Some? && k <= e.prior.value)
  }

  /** Whatever of a session has started, everything before it has been released. */
  ghost predicate Serial(s: State, i: nat, j: nat)
    requires i < j < |s.entries|
  {
    s.entries[i].session == s.entries[j].session && !s.entries[j].phase.Waiting? ==> s.entries[i].phase.Released?
  }

  ghost predicate TailIsLast(s: State, session: Session) {
    && (session in s.tails ==> s.tails[session] < |s.entries| && s.entries[s.tails[session]].session == session)
    && (forall k: nat :: k < |s.entries| && s.entries[k].session == session ==>
          session in s.tails && k <= s.tails[session])
  }

  ghost predicate Invariant(s: State) {
    && (forall i: nat :: i < |s.entries| ==> Attached(s, i))
    && (forall i: nat, j: nat :: i < j < |s.entries| ==> Serial(s, i, j))
    && (forall session :: TailIsLast(s, session))
    && StartsFollowEntries(s)
  }

  /** The entries of one session in enqueue order. */
  ghost function Enqueued(entries: seq<Entry>, session: Session): seq<nat> {
    if entries == [] then []
    else
      var n := |entries| - 1;
      Enqueued(entries[..n], session) + if entries[n].session == session then [n] else []
  }

  ghost function Started(s: State, starts: seq<nat>, session: Session): seq<nat> {
    if starts == [] then []
    else
      var n := |starts| - 1;
      Started(s, starts[..n], session) +
        if starts[n] < |s.entries| && s.entries[starts[n]].session == session then [starts[n]] else []
  }

  /** Every start names an entry that left the waiting phase, and conversely. */
  ghost predicate StartsFollowEntries(s: State) {
    && (forall k: nat :: k < |s.starts| ==> s.starts[k] < |s.entries| && !s.entries[s.starts[k]].phase.Waiting?)
    && (forall i: nat :: i < |s.entries| && !s.entries[i].phase.Waiting? ==> i in s.starts)
    && (forall k: nat, l: nat :: k < l < |s.starts| ==>
          s.starts[k] != s.starts[l] &&
          (s.entries[s.starts[k]].session == s.entries[s.starts[l]].session ==> s.starts[k] < s.starts[l]))
  }

  lemma EnqueueKeeps(s: State, session: Session)
    requires Invariant(s)
    ensures Invariant(Enqueue(s, session))
  {
    var t := Enqueue(s, session);
    assert TailIsLast(s, session);
    forall i: nat | i < |t.entries| ensures Attached(t, i) {
      if i < |s.entries| { assert Attached(s, i); }
    }
    forall i: nat, j: nat | i < j < |t.entries| ensures Serial(t, i, j) {
      if j < |s.entries| { assert Serial(s, i, j); }
    }
    forall x ensures TailIsLast(t, x) {
      assert TailIsLast(s, x);
    }
  }

  /** When a body starts, all earlier bodies of its session have been released. */
  lemma StartIsSerial(s: State, i: nat, k: nat)
    requires Invariant(s) && CanStart(s, i) && k < i && s.entries[k].session == s.entries[i].session
    ensures s.entries[k].phase.Released?
  {
    assert Attached(s, i);
    var p := s.entries[i].prior.value;
    if k < p {
      assert Serial(s, k, p);
    }
  }

  lemma PhaseKeeps(s: State, i: nat, phase: Phase)
    requires Invariant(s) && i < |s.entries| && !s.entries[i].phase.Waiting? && !phase.Waiting?
    requires s.entries[i].phase.Released? ==> phase.Released?
    ensures Invariant(SetPhase(s, i, phase))
  {
    var t := SetPhase(s, i, phase);
    forall k: nat | k < |t.entries| ensures Attached(t, k) {
      assert Attached(s, k);
    }
    forall k: nat, j: nat | k < j < |t.entries| ensures Serial(t, k, j) {
      assert Serial(s, k, j);
    }
    forall x ensures TailIsLast(t, x) {
      assert TailIsLast(s, x);
    }
  }

  lemma StartKeeps(s: State, i: nat)
    requires Invariant(s) && CanStart(s, i)
    ensures Invariant(Next(s, StartStep(i)))
  {
    var t := Next(s, StartStep(i));
    forall k: nat | k < |t.entries| ensures Attached(t, k) {
      assert Attached(s, k);
    }
    forall k: nat, j: nat | k < j < |t.entries| ensures Serial(t, k, j) {
      assert Serial(s, k, j);
      if j == i && s.entries[k].session == s.entries[i].session {
        StartIsSerial(s, i, k);
      }
    }
    forall x ensures TailIsLast(t, x) {
      assert TailIsLast(s, x);
    }
    forall k: nat | k < |s.starts| && s.entries[s.starts[k]].session == s.entries[i].session ensures s.starts[k] < i {
      assert i < s.starts[k] ==> Serial(s, i, s.starts[k]);
    }
  }

  lemma NextKeeps(s: State, step: Step)
    requires Invariant(s) && Enabled(s, step)
    ensures Invariant(Next(s, step))
  {
    match step
    case EnqueueStep(session) => EnqueueKeeps(s, session);
    case StartStep(i) => StartKeeps(s, i);
    case SettleStep(i, ok) => PhaseKeeps(s, i, Settled(ok));
    case ReleaseStep(i) => PhaseKeeps(s, i, Released(s.entries[i].phase.ok));
  }

  // ---- Runs ----

  ghost predicate EnabledRun(s: State, steps: seq<Step>)
    decreases |steps|
  {
    steps == [] || (Enabled(s, steps[0]) && EnabledRun(Next(s, steps[0]), steps[1..]))
  }

  ghost function Final(s: State, steps: seq<Step>): State
    requires EnabledRun(s, steps)
    decreases |steps|
  {
    if steps == [] then s else Final(Next(s, steps[0]), steps[1..])
  }

  lemma {:induction false} RunKeeps(s: State, steps: seq<Step>)
    requires Invariant(s) && EnabledRun(s, steps)
    ensures Invariant(Final(s, steps))
    decreases |steps|
  {
    if steps != [] {
      NextKeeps(s, steps[0]);
      RunKeeps(Next(s, steps[0]), steps[1..]);
    }
  }

  /** Under any scheduling: at most one body of a session is in flight. */
  lemma OneInFlight(steps: seq<Step>, i: nat, j: nat)
    requires EnabledRun(Initial(), steps)
    requires var t := Final(Initial(), steps);
             && i < |t.entries| && j < |t.entries| && t.entries[i].session == t.entries[j].session
             && t.entries[i].phase.Running? && t.entries[j].phase.Running?
    ensures i == j
  {
    assert Invariant(Initial());
    RunKeeps(Initial(), steps);
    var t := Final(Initial(), steps);
    assert i < j ==> Serial(t, i, j);
    assert j < i ==> Serial(t, j, i);
  }

  lemma {:induction false} EnqueuedMembers(entries: seq<Entry>, session: Session, i: nat)
    ensures i in Enqueued(entries, session) <==> i < |entries| && entries[i].session == session
    decreases |entries|
  {
    if entries != [] {
      EnqueuedMembers(entries[..|entries| - 1], session, i);
    }
  }

  lemma {:induction false} EnqueuedIncreases(entries: seq<Entry>, session: Session)
    ensures Increasing(Enqueued(entries, session))
    decreases |entries|
  {
    if entries != [] {
      var n := |entries| - 1;
      var front := Enqueued(entries[..n], session);
      EnqueuedIncreases(entries[..n], session);
      forall k | 0 <= k < |front| ensures front[k] < n {
        EnqueuedMembers(entries[..n], session, front[k]);
        assert front[k] in front;
      }
    }
  }

  lemma {:induction false} StartedMembers(s: State, starts: seq<nat>, session: Session, i: nat)
    ensures i in Started(s, starts, session) <==>
              i in starts && i < |s.entries| && s.entries[i].session == session
    decreases |starts|
  {
    if starts != [] {
      var n := |starts| - 1;
      StartedMembers(s, starts[..n], session, i);
      assert starts == starts[..n] + [starts[n]];
    }
  }

  lemma {:induction false} StartedIncreases(s: State, starts: seq<nat>, session: Session)
    requires starts <= s.starts && StartsFollowEntries(s)
    ensures Increasing(Started(s, starts, session))
    decreases |starts|
  {
    if starts != [] {
      var n := |starts| - 1;
      StartedIncreases(s, starts[..n], session);
      var front := Started(s, starts[..n], session);
      forall k | 0 <= k < |front| && s.entries[starts[n]].session == session ensures front[k] < starts[n] {
        StartedMembers(s, starts[..n], session, front[k]);
        var l: nat :| l < n && starts[l] == front[k];
        assert s.starts[l] == starts[l] && s.starts[n] == starts[n];
      }
    }
  }

  ghost predicate Increasing(r: seq<nat>) {
    forall k, l :: 0 <= k < l < |r| ==> r[k] < r[l]
  }

  /** What follows a prefix in an increasing listing is the next element. */
  lemma NextOfPrefix(front: seq<nat>, y: nat, q: seq<nat>)
    requires Increasing(q) && front <= q && y in q
    requires forall k :: 0 <= k < |front| ==> front[k] < y
    requires forall x :: x in q && x < y ==> x in front
    ensures front + [y] <= q
  {
    var n := |front|;
    var m: nat :| m < |q| && q[m] == y;
    assert forall k :: 0 <= k < n ==> q[k] == front[k] < y;
    assert n <= m && q[n] in q;
    assert q[n] !in front;
  }

  /** The listed part stays initial without its last element. */
  lemma InitialWithoutLast(front: seq<nat>, y: nat, q: seq<nat>)
    requires Increasing(front + [y])
    requires forall a, b :: a in q && b in front + [y] && a < b ==> a in front + [y]
    ensures Increasing(front) && forall k :: 0 <= k < |front| ==> front[k] < y
    ensures forall a, b :: a in q && b in front && a < b ==> a in front
  {
    var r := front + [y];
    assert forall k :: 0 <= k < |front| ==> r[k] == front[k];
    assert r[|front|] == y;
    forall a, b | a in q && b in front && a < b ensures a in front {
      assert b in r && a in r;
    }
  }

  /** An increasing listing of an initial part of an increasing listing is a prefix. */
  lemma {:induction false} IncreasingPrefix(r: seq<nat>, q: seq<nat>)
    requires Increasing(r) && Increasing(q)
    requires forall x :: x in r ==> x in q
    requires forall x, y :: x in q && y in r && x < y ==> x in r
    ensures r <= q
  {
    if r != [] {
      var r', y := r[..|r| - 1], r[|r| - 1];
      assert r == r' + [y];
      InitialWithoutLast(r', y, q);
      IncreasingPrefix(r', q);
      NextOfPrefix(r', y, q);
    }
  }

  /** Under any scheduling: the bodies of a session start in enqueue order, skipping
      none. */
  lemma StartsInEnqueueOrder(steps: seq<Step>, session: Session)
    requires EnabledRun(Initial(), steps)
    ensures var t := Final(Initial(), steps);
            Started(t, t.starts, session) <= Enqueued(t.entries, session)
  {
    assert Invariant(Initial());
    RunKeeps(Initial(), steps);
    var t := Final(Initial(), steps);
    var r, q := Started(t, t.starts, session), Enqueued(t.entries, session);
    StartedIncreases(t, t.starts, session);
    EnqueuedIncreases(t.entries, session);
    forall x: nat ensures x in q <==> x < |t.entries| && t.entries[x].session == session {
      EnqueuedMembers(t.entries, session, x);
    }
    forall x: nat ensures x in r <==> x in t.starts && x < |t.entries| && t.entries[x].session == session {
      StartedMembers(t, t.starts, session, x);
    }
    forall x, y | x in q && y in r && x < y ensures x in r {
      assert Serial(t, x, y);
    }
    IncreasingPrefix(r, q);
  }

  // ---- Progress ----

  ghost predicate Unfinished(s: State, session: Session, i: nat) {
    i < |s.entries| && s.entries[i].session == session && !s.entries[i].phase.Released?
  }

  ghost predicate Earliest(s: State, session: Session, i: nat) {
    Unfinished(s, session, i) && forall k: nat :: k < i ==> !Unfinished(s, session, k)
  }

  lemma {:induction false} FindEarliest(s: State, session: Session, i: nat) returns (e: nat)
    requires Unfinished(s, session, i)
    ensures Earliest(s, session, e)
  {
    if k: nat :| k < i && Unfinished(s, session, k) {
      e := FindEarliest(s, session, k);
    } else {
      e := i;
    }
  }

  /** No session is ever stuck, whatever the other sessions do and however its own
      bodies ended: some step of its earliest unfinished body is enabled. */
  lemma SessionsNeverStall(s: State, session: Session, i: nat) returns (e: nat)
    requires Invariant(s) && Unfinished(s, session, i)
    ensures Earliest(s, session, e)
    ensures match s.entries[e].phase
            case Waiting => Enabled(s, StartStep(e))
            case Running => Enabled(s, SettleStep(e, true)) && Enabled(s, SettleStep(e, false))
            case _ => Enabled(s, ReleaseStep(e))
  {
    e := FindEarliest(s, session, i);
    assert Attached(s, e);
    if s.entries[e].prior.Some? {
      assert !Unfinished(s, session, s.entries[e].prior.value);
    }
  }

  ghost function SessionOf(s: State, step: Step): Session
    requires Enabled(s, step)
  {
    match step
    case EnqueueStep(session) => session
    case StartStep(i) => s.entries[i].session
    case SettleStep(i, _) => s.entries[i].session
    case ReleaseStep(i) => s.entries[i].session
  }

  /** How a body ends is what its caller gets, whatever becomes of its chain link. */
  lemma OutcomeIsKept(s: State, i: nat, ok: bool)
    requires Enabled(s, SettleStep(i, ok))
    ensures var t := Next(s, SettleStep(i, ok));
            && t.entries == s.entries[i := s.entries[i].(phase := Settled(ok))]
            && Enabled(t, ReleaseStep(i))
            && Next(t, ReleaseStep(i)).entries == s.entries[i := s.entries[i].(phase := Released(ok))]
            && Next(t, ReleaseStep(i)).tails == s.tails && Next(t, ReleaseStep(i)).starts == s.starts
  {
    var t := Next(s, SettleStep(i, ok));
    assert Next(t, ReleaseStep(i)).entries == s.entries[i := s.entries[i].(phase := Released(ok))];
  }

  /** A body for a session without unfinished ones may start at once, and then runs. */
  lemma IdleSessionStartsAtOnce(s: State, session: Session)
    requires Invariant(s) && forall i: nat :: !Unfinished(s, session, i)
    ensures var t, n := Next(s, EnqueueStep(session)), |s.entries|;
            && Enabled(t, StartStep(n))
            && Next(t, StartStep(n)).entries[n].phase.Running? && Next(t, StartStep(n)).starts == s.starts + [n]
  {
    assert TailIsLast(s, session);
    assert session in s.tails ==> !Unfinished(s, session, s.tails[session]);
  }

  /** A step of one session neither enables nor disables a step of another. */
  lemma SessionsAreIndependent(s: State, a: Step, b: Step)
    requires Invariant(s) && Enabled(s, a)
    requires b.StartStep? || b.SettleStep? || b.ReleaseStep?
    requires b.i < |s.entries| && s.entries[b.i].session != SessionOf(s, a)
    ensures Enabled(Next(s, a), b) <==> Enabled(s, b)
  {
    assert Attached(s, b.i);
  }
}
