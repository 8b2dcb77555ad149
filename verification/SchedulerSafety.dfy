/** What every run of the scheduler keeps for one task name. */
module SchedulerSafety {
  import opened Wrappers
  import opened Scheduler

  datatype Step =
    | TickStep
    | EndStep
    | ReloadStep(config: Option<Config>, started: bool)
    | AddStep(added: Config, started: bool)
    | StartStep
    | SleepStep(ms: int)
    | WakeStep
    | QueryStep

  datatype Event = Event(step: Step, env: Env)

  predicate Running(slot: Slot) {
    slot.task.Some? && slot.task.value.running
  }

  function After(slot: Slot, e: Event): Slot {
    match e.step
    case TickStep => Tick(slot, e.env)
    case EndStep => if Running(slot) then End(slot, e.env) else slot
    case ReloadStep(config, started) => Reload(slot, config, started, e.env)
    case AddStep(config, started) => Add(slot, config, started, e.env)
    case StartStep => Start(slot, e.env)
    case SleepStep(ms) => Sleep(slot, e.env.now + ms)
    case WakeStep => Wake(slot)
    case QueryStep => QuerySleep(slot, e.env)
  }

  /** Time does not go back, a running task is not removed, and the name keeps its
      schedule. */
  ghost predicate Legal(slot: Slot, e: Event, schedule: Schedule, clock: Time) {
    && clock <= e.env.now
    && match e.step
       case ReloadStep(config, _) =>
         if config.None? then !Running(slot) else config.value.schedule == schedule
       case AddStep(config, _) => config.schedule == schedule
       case _ => true
  }

  // ---- The invariant ----

  function Open(runs: seq<Run>): nat {
    if runs == [] then 0 else Open(runs[..|runs| - 1]) + if runs[|runs| - 1].end.None? then 1 else 0
  }

  /** All runs but possibly the last have ended, each new one a period after the end of
      the one before. */
  ghost predicate Spaced(runs: seq<Run>, schedule: Schedule) {
    && (forall i :: 0 <= i < |runs| - 1 ==> runs[i].end.Some?)
    && (schedule.Interval? ==> forall i :: 0 < i < |runs| && runs[i - 1].end.Some? ==>
          runs[i].start >= runs[i - 1].end.value + schedule.ms)
  }

  ghost predicate Invariant(slot: Slot, schedule: Schedule, clock: Time) {
    && Spaced(slot.runs, schedule)
    && (Running(slot) <==> slot.runs != [] && slot.runs[|slot.runs| - 1].end.None?)
    && (slot.task.Some? ==> slot.task.value.schedule == schedule)
    && (slot.runs != [] && slot.runs[|slot.runs| - 1].end.Some? ==>
          var last := slot.runs[|slot.runs| - 1].end.value;
          && last <= clock
          && (slot.task.Some? && slot.task.value.lastRunAt.Some? ==> slot.task.value.lastRunAt.value == last)
          && (slot.task.Some? && schedule.Interval? && slot.task.value.nextRunAt.Some? ==>
                slot.task.value.nextRunAt.value >= last + schedule.ms))
    && (slot.runs == [] && slot.task.Some? ==> slot.task.value.lastRunAt == None)
  }

  lemma CloseLast(runs: seq<Run>, now: Time)
    requires runs != [] && runs[|runs| - 1].end.None?
    ensures CloseRun(runs, now) == runs[..|runs| - 1] + [Run(runs[|runs| - 1].start, Some(now))]
  {
  }

  lemma TickKeeps(slot: Slot, env: Env, schedule: Schedule, clock: Time)
    requires Invariant(slot, schedule, clock) && clock <= env.now
    ensures Invariant(Tick(slot, env), schedule, env.now)
  {
  }

  lemma EndKeeps(slot: Slot, env: Env, schedule: Schedule, clock: Time)
    requires Invariant(slot, schedule, clock) && clock <= env.now && Running(slot)
    ensures Invariant(End(slot, env), schedule, env.now)
  {
    CloseLast(slot.runs, env.now);
  }

  lemma AfterKeeps(slot: Slot, e: Event, schedule: Schedule, clock: Time)
    requires Invariant(slot, schedule, clock) && Legal(slot, e, schedule, clock)
    ensures Invariant(After(slot, e), schedule, e.env.now)
  {
    match e.step
    case TickStep => TickKeeps(slot, e.env, schedule, clock);
    case EndStep => if Running(slot) { EndKeeps(slot, e.env, schedule, clock); }
    case _ =>
  }

  // ---- Runs ----

  ghost predicate LegalRun(slot: Slot, events: seq<Event>, schedule: Schedule, clock: Time)
    decreases |events|
  {
    events == [] ||
    (Legal(slot, events[0], schedule, clock) &&
     LegalRun(After(slot, events[0]), events[1..], schedule, events[0].env.now))
  }

  function Final(slot: Slot, events: seq<Event>): Slot
    decreases |events|
  {
    if events == [] then slot else Final(After(slot, events[0]), events[1..])
  }

  lemma {:induction false} RunKeeps(slot: Slot, events: seq<Event>, schedule: Schedule, clock: Time) returns (end: Time)
    requires Invariant(slot, schedule, clock) && LegalRun(slot, events, schedule, clock)
    ensures Invariant(Final(slot, events), schedule, end)
    decreases |events|
  {
    if events == [] {
      end := clock;
    } else {
      AfterKeeps(slot, events[0], schedule, clock);
      end := RunKeeps(After(slot, events[0]), events[1..], schedule, events[0].env.now);
    }
  }

  lemma {:induction false} AllButLastEnded(runs: seq<Run>)
    requires forall i :: 0 <= i < |runs| - 1 ==> runs[i].end.Some?
    ensures Open(runs) <= 1
    ensures runs != [] && runs[|runs| - 1].end.Some? ==> Open(runs) == 0
  {
    if runs != [] {
      var front := runs[..|runs| - 1];
      assert front != [] ==> front[|front| - 1] == runs[|runs| - 2];
      AllButLastEnded(front);
    }
  }

  /** On every run, for every task: no two executions overlap; and an interval task
      starts each execution at least a period after the previous one ended, however
      that one ended. */
  lemma ExecutionsAreSpaced(events: seq<Event>, schedule: Schedule, clock: Time)
    requires LegalRun(Slot(None, None, []), events, schedule, clock)
    ensures var runs := Final(Slot(None, None, []), events).runs;
            && Open(runs) <= 1
            && forall i :: 0 <= i < |runs| - 1 ==>
                 && runs[i].end.Some?
                 && (schedule.Interval? ==> runs[i + 1].start >= runs[i].end.value + schedule.ms)
  {
    var end := RunKeeps(Slot(None, None, []), events, schedule, clock);
    var runs := Final(Slot(None, None, []), events).runs;
    AllButLastEnded(runs);
    forall i | 0 <= i < |runs| - 1 && schedule.Interval? ensures runs[i + 1].start >= runs[i].end.value + schedule.ms {
      var j := i + 1;
      assert 0 < j < |runs| && runs[j - 1].end.Some?;
    }
  }

  /** A finished execution leaves the past: whether or not it threw, an interval task
      is not due again before its period has passed. */
  lemma NoHotLoop(slot: Slot, env: Env, later: Env)
    requires Running(slot) && slot.task.value.schedule.Interval?
    requires later.now < env.now + slot.task.value.schedule.ms
    ensures Tick(End(slot, env), later) == End(slot, env)
  {
  }

  // ---- Sleep ----

  ghost predicate LeavesSleepAlone(events: seq<Event>, until: Time) {
    forall i :: 0 <= i < |events| ==>
      !events[i].step.SleepStep? && !events[i].step.WakeStep? && events[i].env.now < until
  }

  /** Nothing starts a sleeping task before its wake time: not ticks, reloads, removal
      and re-adding, nor questions about its sleep. */
  lemma {:induction false} SleepersStayDown(slot: Slot, events: seq<Event>, until: Time)
    requires slot.wakeAt == Some(until) && LeavesSleepAlone(events, until)
    ensures Final(slot, events).wakeAt == Some(until)
    ensures |Final(slot, events).runs| == |slot.runs|
    decreases |events|
  {
    if events != [] {
      CloseKeepsLength(slot.runs, events[0].env.now);
      SleepersStayDown(After(slot, events[0]), events[1..], until);
    }
  }

  lemma {:induction false} CloseKeepsLength(runs: seq<Run>, now: Time)
    ensures |CloseRun(runs, now)| == |runs|
  {
    if runs != [] {
      CloseKeepsLength(runs[..|runs| - 1], now);
    }
  }

  // ---- A manual trigger ----

  /** triggerTask runs the task whatever its state. */
  function Trigger(slot: Slot, env: Env): Slot
    requires slot.task.Some?
  {
    Begin(slot, env)
  }

  /** It keeps executions apart exactly when the task is idle, or when it is skipped for
      want of a session. */
  lemma TriggerOverlapsExactlyWhenRunning(slot: Slot, env: Env, schedule: Schedule, clock: Time)
    requires Invariant(slot, schedule, clock) && slot.task.Some?
    ensures Open(Trigger(slot, env).runs) <= 1 <==>
              !slot.task.value.running || (slot.task.value.requiresSession && !env.session)
  {
    var runs := slot.runs;
    AllButLastEnded(runs);
    var more := runs + [Run(env.now, None)];
    assert more[..|runs|] == runs;
    if runs != [] && runs[|runs| - 1].end.None? {
      assert Open(runs) >= 1;
    }
  }

  // ---- Removal ----

  ghost predicate NeverOverlaps(slot: Slot, schedule: Schedule, clock: Time) {
    forall events :: LegalRun(slot, events, schedule, clock) ==> Open(Final(slot, events).runs) <= 1
  }

  function Later(a: Time, b: Time): Time {
    if a < b then b else a
  }

  /** The name is added again and ticks when it is due. */
  function AddedAndDue(slot: Slot, schedule: Schedule, now: Time): seq<Event> {
    var due := if schedule.Interval? then Later(now, now + schedule.ms) else now;
    var awake := if slot.wakeAt.Some? then Later(due, slot.wakeAt.value) else due;
    [Event(AddStep(Config(true, schedule, false, false), true), Env(now, true, true, Some(now))),
     Event(TickStep, Env(awake, true, true, None))]
  }

  lemma AddedRuns(slot: Slot, schedule: Schedule, now: Time)
    requires slot.task.None?
    ensures var events := AddedAndDue(slot, schedule, now);
            && LegalRun(slot, events, schedule, now)
            && Final(slot, events).runs == slot.runs + [Run(events[1].env.now, None)]
  {
    var events := AddedAndDue(slot, schedule, now);
    var added := After(slot, events[0]);
    assert events[1..] == [events[1]];
    assert Final(added, [events[1]]) == After(added, events[1]);
  }

  /** Removing a task, by reload or by removeTask, lets no later executions of its name
      overlap exactly when the task is not running: otherwise its execution goes on
      unknown to the scheduler, and the name can be added and run again. */
  lemma RemovalIsSafeExactlyWhenIdle(slot: Slot, schedule: Schedule, clock: Time)
    requires Invariant(slot, schedule, clock)
    ensures NeverOverlaps(Remove(slot), schedule, clock) <==> !Running(slot)
  {
    var removed := Remove(slot);
    if Running(slot) {
      var events := AddedAndDue(removed, schedule, clock);
      AddedRuns(removed, schedule, clock);
      TwoOpen(slot.runs, events[1].env.now);
      assert Open(Final(removed, events).runs) >= 2;
    } else {
      forall events | LegalRun(removed, events, schedule, clock) ensures Open(Final(removed, events).runs) <= 1 {
        var end := RunKeeps(removed, events, schedule, clock);
        AllButLastEnded(Final(removed, events).runs);
      }
    }
  }

  lemma TwoOpen(runs: seq<Run>, now: Time)
    requires runs != [] && runs[|runs| - 1].end.None?
    ensures Open(runs + [Run(now, None)]) >= 2
  {
    assert (runs + [Run(now, None)])[..|runs|] == runs;
  }
}
