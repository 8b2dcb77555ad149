/** When a task is run, and what each operation of the scheduler leaves behind
    (daemon/src/automation/scheduler.ts). */
module SchedulerEffects {
  import opened Wrappers
  import opened Scheduler
  import opened SchedulerSafety

  // ---- Ticks ----

  /** It is the task's time, and it is not asleep. */
  ghost predicate ItsTime(slot: Slot, now: Time) {
    && slot.task.Some? && slot.task.value.enabled && !slot.task.value.running
    && slot.task.value.nextRunAt.Some? && slot.task.value.nextRunAt.value <= now
    && (slot.wakeAt.Some? ==> slot.wakeAt.value <= now)
  }

  /** What the task needs is there: an idle agent, and a session. */
  ghost predicate MayRun(task: Task, env: Env) {
    (task.idleOnly ==> env.idle) && (task.requiresSession ==> env.session)
  }

  /** A tick runs a task exactly when it is its time and it may run; then it is marked
      running. Its time clears an expired sleep, whether it may run or not, and nothing else
      changes anything. */
  lemma TickRunsExactlyWhen(slot: Slot, env: Env)
    ensures var t := Tick(slot, env);
            && (ItsTime(slot, env.now) && MayRun(slot.task.value, env) <==> t.runs == slot.runs + [Run(env.now, None)])
            && (ItsTime(slot, env.now) && MayRun(slot.task.value, env) ==>
                  t.task == Some(slot.task.value.(running := true)))
            && (!(ItsTime(slot, env.now) && MayRun(slot.task.value, env)) ==>
                  t.task == slot.task && t.runs == slot.runs)
            && t.wakeAt == (if ItsTime(slot, env.now) then None else slot.wakeAt)
  {
    assert slot.runs + [Run(env.now, None)] != slot.runs;
  }

  // ---- The end of a run ----

  /** When the task is to run next: not at all if disabled, as its cron expression says, or a
      period after its last run, or after now if there was none. */
  ghost predicate Next(task: Task, env: Env, lastRunAt: Option<Time>, next: Option<Time>) {
    if !task.enabled then next == None
    else match task.schedule
      case Cron => next == env.cronNext
      case Interval(ms) => next == Some(ms + match lastRunAt case Some(t) => t case None => env.now)
  }

  /** The end of a run: the open run is closed, the task has run now, and is no longer
      running; it is next due as its schedule says. */
  lemma EndDoes(slot: Slot, env: Env)
    requires slot.task.Some? && slot.runs != [] && slot.runs[|slot.runs| - 1].end.None?
    ensures var t, n := End(slot, env), |slot.runs| - 1;
            && t.task.Some? && t.task.value.lastRunAt == Some(env.now) && !t.task.value.running
            && Next(slot.task.value, env, Some(env.now), t.task.value.nextRunAt)
            && t.runs == slot.runs[..n] + [Run(slot.runs[n].start, Some(env.now))]
            && t.wakeAt == slot.wakeAt
            && t.task.value == slot.task.value.(lastRunAt := Some(env.now), running := false,
                                                nextRunAt := t.task.value.nextRunAt)
  {
    CloseLast(slot.runs, env.now);
  }

  // ---- Configuration ----

  /** A task made from its configuration, that never ran. */
  ghost predicate Made(task: Task, c: Config, started: bool, env: Env) {
    && task.enabled == c.enabled && task.schedule == c.schedule
    && task.idleOnly == c.idleOnly && task.requiresSession == c.requiresSession
    && task.lastRunAt == None && !task.running
    && (if started then Next(task, env, None, task.nextRunAt) else task.nextRunAt == None)
  }

  /** Adding makes a task of a new name; a name that is there is left alone. */
  lemma AddDoes(slot: Slot, c: Config, started: bool, env: Env)
    ensures var t := Add(slot, c, started, env);
            && (slot.task.Some? ==> t == slot)
            && (slot.task.None? ==> t.task.Some? && Made(t.task.value, c, started, env))
            && t.runs == slot.runs && t.wakeAt == slot.wakeAt
  {
  }

  /** A reload forgets a name that is no longer configured, makes any other task anew, except
      that a running one goes on and takes over what it is told about being enabled and
      needing a session. */
  lemma ReloadDoes(slot: Slot, config: Option<Config>, started: bool, env: Env)
    ensures var t := Reload(slot, config, started, env);
            && t.runs == slot.runs && t.wakeAt == slot.wakeAt
            && (t.task.Some? <==> config.Some?)
            && (config.Some? ==>
                  var running := slot.task.Some? && slot.task.value.running;
                  && (!running ==> Made(t.task.value, config.value, started, env))
                  && (running ==>
                        && t.task.value.running
                        && t.task.value.enabled == config.value.enabled
                        && t.task.value.requiresSession == config.value.requiresSession
                        && t.task.value.schedule == slot.task.value.schedule
                        && t.task.value.idleOnly == slot.task.value.idleOnly
                        && t.task.value.lastRunAt == slot.task.value.lastRunAt
                        && t.task.value.nextRunAt == slot.task.value.nextRunAt))
  {
  }

  /** Starting the scheduler schedules every enabled task, and only those. */
  lemma StartDoes(slot: Slot, env: Env)
    requires slot.task.Some?
    ensures var t := Start(slot, env);
            && t.task.Some? && t.runs == slot.runs && t.wakeAt == slot.wakeAt
            && (slot.task.value.enabled ==>
                  Next(slot.task.value, env, slot.task.value.lastRunAt, t.task.value.nextRunAt))
            && t.task.value == slot.task.value.(nextRunAt := if slot.task.value.enabled then t.task.value.nextRunAt
                                                             else slot.task.value.nextRunAt)
  {
  }

  // ---- Sleep ----

  /** A known task sleeps until the time given and can be woken; asking drops a sleep that is
      over; no other operation touches an unknown name. */
  lemma SleepDoes(slot: Slot, wakeAt: Time, env: Env)
    ensures Sleep(slot, wakeAt).wakeAt == (if slot.task.Some? then Some(wakeAt) else slot.wakeAt)
    ensures Wake(slot).wakeAt == (if slot.task.Some? then None else slot.wakeAt)
    ensures QuerySleep(slot, env).wakeAt ==
              (if slot.wakeAt.Some? && slot.wakeAt.value <= env.now then None else slot.wakeAt)
    ensures Sleep(slot, wakeAt).task == Wake(slot).task == QuerySleep(slot, env).task == slot.task
    ensures Sleep(slot, wakeAt).runs == Wake(slot).runs == QuerySleep(slot, env).runs == slot.runs
  {
  }

  /** An interval task that may run does run again: at the first tick a period after the end
      of its last run, if it is awake then. */
  lemma RunsAgain(slot: Slot, env: Env, later: Env)
    requires slot.task.Some? && slot.task.value.enabled && slot.task.value.schedule.Interval?
    requires slot.runs != [] && slot.runs[|slot.runs| - 1].end.None?
    requires later.now >= env.now + slot.task.value.schedule.ms && MayRun(slot.task.value, later)
    requires slot.wakeAt.Some? ==> slot.wakeAt.value <= later.now
    ensures var ended := End(slot, env);
            Tick(ended, later).runs == ended.runs + [Run(later.now, None)]
  {
    EndDoes(slot, env);
    TickRunsExactlyWhen(End(slot, env), later);
  }
}
