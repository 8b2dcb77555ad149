/** Timer requests while a snooze waits for its body. The snooze handler of
    daemon/src/api/timer.ts finds the timer fired, waits, and then snoozes the entry object
    it holds, whatever happened to it meanwhile; everything else is handled at once. */
module TimerInterleaving {
  import opened Wrappers
  import opened Timers
  import Atomic = TimersSafety

  /** One timer, the entry object that left memory in this process, if any, and how many
      snoozes wait. */
  datatype State = State(slot: Slot, removed: Option<Entry>, waiting: nat)

  datatype Step =
    | AtOnce(step: Atomic.Step)
    | SnoozeReads
    | SnoozeArrives(delay: int)
    | RemovedFires(after: Time)
    | RemovedNags(ok: bool)

  datatype Event = Event(step: Step, now: Time)

  predicate FiredNow(slot: Slot) {
    slot.entry.Some? && slot.entry.value.status.Fired?
  }

  predicate Enabled(s: State, step: Step) {
    step.SnoozeArrives? ==> s.waiting > 0
  }

  /** What leaves memory is cancelled first. */
  function RemovedBy(before: Slot, after: Slot, removed: Option<Entry>, now: Time): Option<Entry> {
    if before.entry.Some? && after.entry.None? then Some(CompletedEntry(before.entry.value, Cancelled, now))
    else removed
  }

  function WithRemoved(s: State, t: Slot): State {
    s.(slot := Slot(s.slot.entry, t.row), removed := t.entry)
  }

  /** A restart forgets the handlers and the removed object. That object's own timeout and
      nag interval work as those of an entry in memory. */
  function Next(s: State, e: Event, maxNag: int): State
    requires Enabled(s, e.step)
  {
    match e.step
    case AtOnce(step) =>
      var slot := Atomic.After(s.slot, Atomic.Event(step, e.now), maxNag);
      if step.RestartStep? then State(slot, None, 0)
      else State(slot, RemovedBy(s.slot, slot, s.removed, e.now), s.waiting)
    case SnoozeReads => if FiredNow(s.slot) then s.(waiting := s.waiting + 1) else s
    case SnoozeArrives(delay) =>
      var (slot, removed) := FinishSnooze(s.slot, s.removed, delay, e.now);
      State(slot, removed, s.waiting - 1)
    case RemovedFires(after) => WithRemoved(s, Fire(Slot(s.removed, s.slot.row), e.now, after))
    case RemovedNags(ok) => WithRemoved(s, NagTick(Slot(s.removed, s.slot.row), e.now, ok, maxNag))
  }

  // ---- The invariant ----

  /** Memory and database agree, a removed object is at rest, and a waiting snooze holds an
      object. */
  ghost predicate StateOk(s: State) {
    && Atomic.Agreement(s.slot)
    && (s.removed.Some? ==>
          && s.removed.value.handle.None? && s.removed.value.nag.None?
          && s.slot.entry.None? && s.slot.row == Some(RowOf(s.removed.value))
          && s.removed.value.status.Cancelled? && s.removed.value.completedAt.Some?)
    && (s.waiting > 0 ==> s.slot.entry.Some? || s.removed.Some?)
  }

  lemma RemovalRests(slot: Slot, step: Atomic.Step, now: Time, maxNag: int)
    requires Atomic.Agreement(slot) && slot.entry.Some? && !step.RestartStep?
    ensures var t := Atomic.After(slot, Atomic.Event(step, now), maxNag);
            t.entry.None? ==> t.row == Some(RowOf(CompletedEntry(slot.entry.value, Cancelled, now)))
  {
  }

  /** Without an entry in memory an uninterrupted request changes nothing of a cancelled
      row. */
  lemma AbsentStays(slot: Slot, step: Atomic.Step, now: Time, maxNag: int)
    requires Atomic.Agreement(slot) && slot.entry.None? && slot.row.Some? && !Active(slot.row.value.status)
    ensures Atomic.After(slot, Atomic.Event(step, now), maxNag) == slot
  {
  }

  lemma AtOnceKeeps(s: State, step: Atomic.Step, now: Time, maxNag: int)
    requires StateOk(s)
    ensures StateOk(Next(s, Event(AtOnce(step), now), maxNag))
  {
    Atomic.AfterKeeps(s.slot, Atomic.Event(step, now), maxNag);
    if !step.RestartStep? {
      if s.slot.entry.Some? {
        RemovalRests(s.slot, step, now, maxNag);
      } else if s.removed.Some? {
        AbsentStays(s.slot, step, now, maxNag);
      }
    }
  }

  /** A late snooze keeps memory and database in agreement exactly when the timer was not
      removed from memory meanwhile; otherwise it leaves an active row that nothing in
      memory can acknowledge. */
  lemma LateSnoozeAgreesExactlyWhenPresent(s: State, delay: int, now: Time, maxNag: int)
    requires StateOk(s) && s.waiting > 0
    ensures Atomic.Agreement(Next(s, Event(SnoozeArrives(delay), now), maxNag).slot) <==> s.slot.entry.Some?
    ensures s.slot.entry.Some? ==> StateOk(Next(s, Event(SnoozeArrives(delay), now), maxNag))
  {
  }

  /** It is the snooze that would be made now, whatever its delay, exactly when the timer is
      still fired. */
  lemma LateSnoozeIsTimelyExactlyWhenFired(s: State, now: Time, maxNag: int)
    requires StateOk(s) && s.waiting > 0
    ensures (forall delay :: Next(s, Event(SnoozeArrives(delay), now), maxNag).slot == Snooze(s.slot, delay, now).0)
       <==> FiredNow(s.slot)
  {
    if !FiredNow(s.slot) {
      var delay := s.slot.row.value.firesAt - now + 1;
      var t := Next(s, Event(SnoozeArrives(delay), now), maxNag).slot;
      assert t.row.value.firesAt != s.slot.row.value.firesAt;
    }
  }

  /** Otherwise it revives whatever is there: an acknowledged, expired or cancelled timer
      is snoozed again, with its completion time. */
  lemma LateSnoozeRevives(s: State, delay: int, now: Time, maxNag: int)
    requires StateOk(s) && s.waiting > 0
    ensures s.slot.row.Some?
    ensures var t := Next(s, Event(SnoozeArrives(delay), now), maxNag).slot;
            && t.row == Some(s.slot.row.value.(status := Snoozed, firesAt := now + delay, firedAt := None))
            && (!Active(s.slot.row.value.status) ==> t.row.value.completedAt.Some?)
  {
  }

  /** What one step does to a finished row: a late snooze revives it, deleting a timer that
      is still in memory marks it cancelled, and nothing else changes it. */
  lemma FinishedRowsStay(s: State, e: Event, maxNag: int)
    requires StateOk(s) && Enabled(s, e.step) && s.slot.row.Some? && !Active(s.slot.row.value.status)
    ensures var row, t := s.slot.row.value, Next(s, e, maxNag);
            t.slot.row == Some(
              if e.step.SnoozeArrives?
              then row.(status := Snoozed, firesAt := e.now + e.step.delay, firedAt := None)
              else if e.step.AtOnce? && e.step.step.DeleteStep? && s.slot.entry.Some?
              then row.(status := Cancelled, completedAt := Some(e.now))
              else row)
  {
    match e.step
    case AtOnce(step) => Atomic.FinishedRowsStay(s.slot, Atomic.Event(step, e.now), maxNag);
    case SnoozeArrives(delay) => LateSnoozeRevives(s, delay, e.now, maxNag);
    case _ =>
  }

  // ---- Runs ----

  ghost predicate Run(s: State, events: seq<Event>, maxNag: int)
    decreases |events|
  {
    events == [] || (Enabled(s, events[0].step) && Run(Next(s, events[0], maxNag), events[1..], maxNag))
  }

  ghost function Final(s: State, events: seq<Event>, maxNag: int): State
    requires Run(s, events, maxNag)
    decreases |events|
  {
    if events == [] then s else Final(Next(s, events[0], maxNag), events[1..], maxNag)
  }

  /** Every body arrives while its timer is in memory. */
  ghost predicate PresentRun(s: State, events: seq<Event>, maxNag: int)
    requires Run(s, events, maxNag)
    decreases |events|
  {
    events == [] ||
    ((events[0].step.SnoozeArrives? ==> s.slot.entry.Some?) &&
     PresentRun(Next(s, events[0], maxNag), events[1..], maxNag))
  }

  /** Every body arrives while its timer is still fired. */
  ghost predicate TimelyRun(s: State, events: seq<Event>, maxNag: int)
    requires Run(s, events, maxNag)
    decreases |events|
  {
    events == [] ||
    ((events[0].step.SnoozeArrives? ==> FiredNow(s.slot)) &&
     TimelyRun(Next(s, events[0], maxNag), events[1..], maxNag))
  }

  lemma NextKeeps(s: State, e: Event, maxNag: int)
    requires StateOk(s) && Enabled(s, e.step)
    requires e.step.SnoozeArrives? ==> s.slot.entry.Some?
    ensures StateOk(Next(s, e, maxNag))
  {
    match e.step
    case AtOnce(step) => AtOnceKeeps(s, step, e.now, maxNag);
    case SnoozeArrives(delay) => LateSnoozeAgreesExactlyWhenPresent(s, delay, e.now, maxNag);
    case _ =>
  }

  /** On every interleaved run of requests, arriving bodies, timeouts, nag ticks and restarts
      in which each body finds its timer in memory, memory and database agree. */
  lemma {:induction false} PresentRunsAgree(s: State, events: seq<Event>, maxNag: int)
    requires StateOk(s) && Run(s, events, maxNag) && PresentRun(s, events, maxNag)
    ensures StateOk(Final(s, events, maxNag))
    decreases |events|
  {
    if events != [] {
      NextKeeps(s, events[0], maxNag);
      PresentRunsAgree(Next(s, events[0], maxNag), events[1..], maxNag);
    }
  }

  lemma NothingIsOk()
    ensures StateOk(State(Slot(None, None), None, 0))
  {
  }

  /** The same requests without waiting. */
  function Uninterrupted(events: seq<Event>): seq<Atomic.Event> {
    if events == [] then []
    else
      (match events[0].step
       case AtOnce(step) => [Atomic.Event(step, events[0].now)]
       case SnoozeArrives(delay) => [Atomic.Event(Atomic.SnoozeStep(delay), events[0].now)]
       case _ => [])
      + Uninterrupted(events[1..])
  }

  lemma QuietSteps(s: State, e: Event, maxNag: int)
    requires StateOk(s) && Enabled(s, e.step) && !e.step.AtOnce? && !e.step.SnoozeArrives?
    ensures Next(s, e, maxNag).slot == s.slot
  {
  }

  /** If each body finds its timer still fired, the run is one of uninterrupted requests,
      and whatever holds of those holds of it. */
  lemma {:induction false} TimelyRunsAreUninterrupted(s: State, events: seq<Event>, maxNag: int)
    requires StateOk(s) && Run(s, events, maxNag) && TimelyRun(s, events, maxNag)
    ensures Final(s, events, maxNag).slot == Atomic.Final(s.slot, Uninterrupted(events), maxNag)
    decreases |events|
  {
    if events != [] {
      var e, rest := events[0], events[1..];
      NextKeeps(s, e, maxNag);
      TimelyRunsAreUninterrupted(Next(s, e, maxNag), rest, maxNag);
      if e.step.AtOnce? || e.step.SnoozeArrives? {
        assert Uninterrupted(events)[1..] == Uninterrupted(rest);
        if e.step.SnoozeArrives? {
          LateSnoozeIsTimelyExactlyWhenFired(s, e.now, maxNag);
        }
      } else {
        QuietSteps(s, e, maxNag);
        assert Uninterrupted(events) == Uninterrupted(rest);
      }
    }
  }
}
