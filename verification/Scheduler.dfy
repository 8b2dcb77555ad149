/** The tick loop of daemon/src/automation/scheduler.ts. Every operation treats each
    task name by itself, so the behaviour is given for one name at a time. */
module Scheduler {
  import opened Wrappers

  type Time = int
  type Name = string

  /** Cron expressions are evaluated by a library; the result is part of each step. */
  datatype Schedule = Cron | Interval(ms: int)

  datatype Config = Config(enabled: bool, schedule: Schedule, idleOnly: bool, requiresSession: bool)

  datatype Task = Task(
    enabled: bool, schedule: Schedule, idleOnly: bool, requiresSession: bool,
    nextRunAt: Option<Time>, lastRunAt: Option<Time>, running: bool)

  /** One execution: when it reached the task's handler or command, and when it ended. */
  datatype Run = Run(start: Time, end: Option<Time>)

  /** Everything the scheduler knows about one name, and the history of its runs. */
  datatype Slot = Slot(task: Option<Task>, wakeAt: Option<Time>, runs: seq<Run>)

  /** What a step sees from outside: the time, idleness, the session, the next cron
      occurrence. */
  datatype Env = Env(now: Time, idle: bool, session: bool, cronNext: Option<Time>)

  function ParseTask(c: Config): Task {
    Task(c.enabled, c.schedule, c.idleOnly, c.requiresSession, None, None, false)
  }

  function CalculateNextRun(task: Task, env: Env): Option<Time> {
    if !task.enabled then None
    else match task.schedule
      case Cron => env.cronNext
      case Interval(ms) => Some((if task.lastRunAt.Some? then task.lastRunAt.value else env.now) + ms)
  }

  function Due(task: Task, now: Time): bool {
    task.enabled && !task.running && task.nextRunAt.Some? && now >= task.nextRunAt.value
  }

  /** A run that needs a session but has none ends at once, without rescheduling. */
  function Begin(slot: Slot, env: Env): Slot
    requires slot.task.Some?
  {
    if slot.task.value.requiresSession && !env.session then slot
    else slot.(task := Some(slot.task.value.(running := true)), runs := slot.runs + [Run(env.now, None)])
  }

  function Tick(slot: Slot, env: Env): Slot {
    if slot.task.None? || !Due(slot.task.value, env.now) then slot
    else if slot.wakeAt.Some? && env.now < slot.wakeAt.value then slot
    else
      var awake := slot.(wakeAt := None);
      if slot.task.value.idleOnly && !env.idle then awake else Begin(awake, env)
  }

  function CloseRun(runs: seq<Run>, now: Time): seq<Run> {
    if runs == [] then runs
    else if runs[|runs| - 1].end.None? then runs[..|runs| - 1] + [Run(runs[|runs| - 1].start, Some(now))]
    else CloseRun(runs[..|runs| - 1], now) + [runs[|runs| - 1]]
  }

  /** The execution ends, whether its handler returned or threw. */
  function End(slot: Slot, env: Env): Slot
    requires slot.task.Some?
  {
    var task := slot.task.value.(lastRunAt := Some(env.now));
    slot.(task := Some(task.(nextRunAt := CalculateNextRun(task, env), running := false)),
          runs := CloseRun(slot.runs, env.now))
  }

  function Scheduled(c: Config, started: bool, env: Env): Task {
    var task := ParseTask(c);
    if started then task.(nextRunAt := CalculateNextRun(task, env)) else task
  }

  /** A task can be removed while it runs; its execution goes on. */
  function Remove(slot: Slot): Slot {
    slot.(task := None)
  }

  /** A running task keeps its object and takes over parts of its configuration. */
  function Reload(slot: Slot, config: Option<Config>, started: bool, env: Env): Slot {
    if config.None? then Remove(slot)
    else if slot.task.Some? && slot.task.value.running then
      slot.(task := Some(slot.task.value.(enabled := config.value.enabled,
                                          requiresSession := config.value.requiresSession)))
    else slot.(task := Some(Scheduled(config.value, started, env)))
  }

  function Add(slot: Slot, config: Config, started: bool, env: Env): Slot {
    if slot.task.Some? then slot else slot.(task := Some(Scheduled(config, started, env)))
  }

  function Start(slot: Slot, env: Env): Slot {
    if slot.task.Some? && slot.task.value.enabled
    then slot.(task := Some(slot.task.value.(nextRunAt := CalculateNextRun(slot.task.value, env)))) else slot
  }

  function Sleep(slot: Slot, wakeAt: Time): Slot {
    if slot.task.Some? then slot.(wakeAt := Some(wakeAt)) else slot
  }

  function Wake(slot: Slot): Slot {
    if slot.task.Some? then slot.(wakeAt := None) else slot
  }

  /** Asking for the sleep state drops an expired entry. */
  function QuerySleep(slot: Slot, env: Env): Slot {
    if slot.wakeAt.Some? && env.now >= slot.wakeAt.value then slot.(wakeAt := None) else slot
  }

  datatype TaskResult = TaskResult(success: bool, output: string)

  /** How an execution ends. */
  datatype Outcome = Finished(result: TaskResult) | Threw(message: string)

  /** The scheduler object as it is written. */
  class SchedulerObject {
    var tasks: map<Name, Task>
    var sleepUntil: map<Name, Time>
    var started: bool
    ghost var runs: map<Name, seq<Run>>

    ghost function SlotOf(name: Name): Slot
      reads this
    {
      Slot(if name in tasks then Some(tasks[name]) else None,
           if name in sleepUntil then Some(sleepUntil[name]) else None,
           if name in runs then runs[name] else [])
    }

    constructor ()
      ensures !started && forall name :: SlotOf(name) == Slot(None, None, [])
    {
      tasks, sleepUntil, started, runs := map[], map[], false, map[];
    }

    /** The part of the loop body of a tick that concerns one due task. */
    method TickTask(name: Name, env: Env)
      requires name in tasks
      modifies this
      ensures SlotOf(name) == Tick(old(SlotOf(name)), env)
      ensures started == old(started) && tasks.Keys == old(tasks).Keys
      ensures forall other :: other != name ==> SlotOf(other) == old(SlotOf(other))
    {
      var task := tasks[name];
      if !task.enabled || task.running || task.nextRunAt.None? || env.now < task.nextRunAt.value {
        return;
      }
      if name in sleepUntil {
        if env.now < sleepUntil[name] {
          return;
        }
        sleepUntil := sleepUntil - {name};
      }
      if task.idleOnly && !env.idle {
        return;
      }
      RunTask(name, env);
    }

    /** runTask up to its await; a skipped run has already reset its flag. */
    method RunTask(name: Name, env: Env)
      requires name in tasks
      modifies this
      ensures SlotOf(name) == Begin(old(SlotOf(name)), env)
      ensures started == old(started) && tasks.Keys == old(tasks).Keys && sleepUntil == old(sleepUntil)
      ensures forall other :: other != name ==> SlotOf(other) == old(SlotOf(other))
    {
      if tasks[name].requiresSession && !env.session {
        return;
      }
      tasks := tasks[name := tasks[name].(running := true)];
      runs := runs[name := (if name in runs then runs[name] else []) + [Run(env.now, None)]];
    }

    method TickAll(env: Name -> Env)
      modifies this
      ensures started == old(started)
      ensures forall name :: SlotOf(name) == Tick(old(SlotOf(name)), env(name))
    {
      var names := tasks.Keys;
      while names != {}
        invariant names <= tasks.Keys == old(tasks).Keys && started == old(started)
        invariant forall name :: SlotOf(name) ==
                    if name in names || name !in tasks then old(SlotOf(name)) else Tick(old(SlotOf(name)), env(name))
        decreases names
      {
        var name :| name in names;
        TickTask(name, env(name));
        names := names - {name};
      }
    }

    /** The rest of runTask. What the execution threw is caught and becomes a failure;
        either way the task moves on. */
    method EndRun(name: Name, env: Env, outcome: Outcome) returns (result: TaskResult)
      requires name in tasks
      modifies this
      ensures started == old(started)
      ensures result == if outcome.Threw? then TaskResult(false, outcome.message) else outcome.result
      ensures SlotOf(name) == End(old(SlotOf(name)), env)
      ensures forall other :: other != name ==> SlotOf(other) == old(SlotOf(other))
    {
      match outcome {
        case Finished(r) => result := r;
        case Threw(message) => result := TaskResult(false, message);
      }
      var task := tasks[name].(lastRunAt := Some(env.now));
      task := task.(nextRunAt := CalculateNextRun(task, env));
      tasks := tasks[name := task.(running := false)];
      runs := runs[name := CloseRun(if name in runs then runs[name] else [], env.now)];
    }

    method ReloadAll(configs: map<Name, Config>, env: Name -> Env)
      modifies this
      ensures started == old(started)
      ensures forall name :: SlotOf(name) ==
                Reload(old(SlotOf(name)), if name in configs then Some(configs[name]) else None, started, env(name))
    {
      tasks := map name | name in tasks && name in configs :: tasks[name];
      var names := configs.Keys;
      while names != {}
        invariant names <= configs.Keys && started == old(started)
        invariant forall name :: SlotOf(name) ==
                    if name in names then old(SlotOf(name))
                    else Reload(old(SlotOf(name)), if name in configs then Some(configs[name]) else None,
                                started, env(name))
        decreases names
      {
        var name :| name in names;
        assert SlotOf(name) == old(SlotOf(name));
        ReloadTask(name, configs[name], env(name));
        names := names - {name};
      }
    }

    /** The part of the loop body of a reload that concerns one configured task. */
    method ReloadTask(name: Name, config: Config, env: Env)
      modifies this
      ensures started == old(started)
      ensures SlotOf(name) == Reload(old(SlotOf(name)), Some(config), started, env)
      ensures forall other :: other != name ==> SlotOf(other) == old(SlotOf(other))
    {
      if name in tasks && tasks[name].running {
        tasks := tasks[name := tasks[name].(enabled := config.enabled, requiresSession := config.requiresSession)];
      } else {
        var scheduled := ParseTask(config);
        if scheduled.enabled && started {
          scheduled := scheduled.(nextRunAt := CalculateNextRun(scheduled, env));
        }
        tasks := tasks[name := scheduled];
      }
    }

    method RemoveTask(name: Name)
      modifies `tasks
      ensures SlotOf(name) == Remove(old(SlotOf(name)))
      ensures forall other :: other != name ==> SlotOf(other) == old(SlotOf(other))
    {
      tasks := tasks - {name};
    }

    method SleepTask(name: Name, ms: int, now: Time) returns (wakeAt: Option<Time>)
      modifies `sleepUntil
      ensures wakeAt == if name in tasks then Some(now + ms) else None
      ensures SlotOf(name) == Sleep(old(SlotOf(name)), now + ms)
      ensures forall other :: other != name ==> SlotOf(other) == old(SlotOf(other))
    {
      if name !in tasks {
        return None;
      }
      sleepUntil := sleepUntil[name := now + ms];
      return Some(now + ms);
    }

    method WakeTask(name: Name)
      modifies `sleepUntil
      ensures SlotOf(name) == Wake(old(SlotOf(name)))
      ensures forall other :: other != name ==> SlotOf(other) == old(SlotOf(other))
    {
      if name in tasks {
        sleepUntil := sleepUntil - {name};
      }
    }

    method AddTask(name: Name, config: Config, env: Env)
      modifies this
      ensures started == old(started)
      ensures SlotOf(name) == Add(old(SlotOf(name)), config, started, env)
      ensures forall other :: other != name ==> SlotOf(other) == old(SlotOf(other))
    {
      if name in tasks {
        return;
      }
      var task := ParseTask(config);
      if task.enabled && started {
        task := task.(nextRunAt := CalculateNextRun(task, env));
      }
      tasks := tasks[name := task];
    }

    method StartAll(env: Name -> Env)
      modifies this
      ensures started
      ensures forall name :: SlotOf(name) == if old(started) then old(SlotOf(name))
                                             else Start(old(SlotOf(name)), env(name))
    {
      if started {
        return;
      }
      started := true;
      tasks := map name | name in tasks ::
        if tasks[name].enabled then tasks[name].(nextRunAt := CalculateNextRun(tasks[name], env(name)))
        else tasks[name];
    }

    method GetTaskSleep(name: Name, env: Env) returns (until: Option<Time>)
      modifies `sleepUntil
      ensures SlotOf(name) == QuerySleep(old(SlotOf(name)), env) && until == SlotOf(name).wakeAt
      ensures forall other :: other != name ==> SlotOf(other) == old(SlotOf(other))
    {
      if name !in sleepUntil {
        return None;
      }
      if env.now >= sleepUntil[name] {
        sleepUntil := sleepUntil - {name};
        return None;
      }
      return Some(sleepUntil[name]);
    }
  }
}
