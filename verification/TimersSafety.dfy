/** What every run keeps for one timer, and when a fired timer expires. */
module TimersSafety {
  import opened Wrappers
  import opened Timers

  datatype Step =
    | CreateStep(session: string, delay: int)
    | FireStep(after: Time)
    | NagStep(ok: bool)
    | AckStep
    | SnoozeStep(delay: int)
    | DeleteStep
    | CancelStep(session: string)
    | RestartStep(alive: bool)

  datatype Event = Event(step: Step, now: Time)

  function After(slot: Slot, e: Event, maxNag: int): Slot {
    match e.step
    case CreateStep(session, delay) => Create(slot, session, delay, e.now)
    case FireStep(after) => Fire(slot, e.now, after)
    case NagStep(ok) => NagTick(slot, e.now, ok, maxNag)
    case AckStep => Ack(slot, e.now).0
    case SnoozeStep(delay) => Snooze(slot, delay, e.now).0
    case DeleteStep => Delete(slot, e.now).0
    case CancelStep(session) => CancelSession(slot, session, e.now)
    case RestartStep(alive) => Restart(slot, e.now, alive, maxNag)
  }

  /** Memory and database say the same; an active row has its entry in memory; the
      timeout is pending exactly while the timer is, and the nag interval runs exactly
      while it is fired. */
  ghost predicate Agreement(slot: Slot) {
    && (slot.entry.Some? ==>
          var e := slot.entry.value;
          && slot.row == Some(RowOf(e))
          && (e.nag.Some? <==> e.status.Fired?)
          && (e.handle.Some? <==> e.status.Pending? || e.status.Snoozed?)
          && (e.status.Fired? ==> e.firedAt.Some?)
          && (!Active(e.status) ==> e.completedAt.Some?)
          && (e.nag.Some? ==> e.nag.value.failures < MAX_CONSECUTIVE_FAILURES))
    && (slot.row.Some? ==>
          && (Active(slot.row.value.status) ==> slot.entry.Some?)
          && (slot.row.value.status.Fired? ==> slot.row.value.firedAt.Some?)
          && (!Active(slot.row.value.status) ==> slot.row.value.completedAt.Some?))
  }

  lemma AfterKeeps(slot: Slot, e: Event, maxNag: int)
    requires Agreement(slot)
    ensures Agreement(After(slot, e, maxNag))
  {
  }

  function Final(slot: Slot, events: seq<Event>, maxNag: int): Slot
    decreases |events|
  {
    if events == [] then slot else Final(After(slot, events[0], maxNag), events[1..], maxNag)
  }

  /** On every run of uninterrupted requests, timeouts, nag ticks and restarts. */
  lemma {:induction false} MemoryAndDatabaseAgree(slot: Slot, events: seq<Event>, maxNag: int)
    requires Agreement(slot)
    ensures Agreement(Final(slot, events, maxNag))
    decreases |events|
  {
    if events != [] {
      AfterKeeps(slot, events[0], maxNag);
      MemoryAndDatabaseAgree(After(slot, events[0], maxNag), events[1..], maxNag);
    }
  }

  lemma NothingAgrees()
    ensures Agreement(Slot(None, None))
  {
  }

  /** A restart loses nothing that is active: the entry comes back with the row's data
      and with its timeout or its nag interval, unless the timer expires there. */
  lemma RestartRebuilds(slot: Slot, now: Time, alive: bool, maxNag: int)
    requires Agreement(slot) && slot.entry.Some? && Active(slot.entry.value.status)
    ensures var e, t := slot.entry.value, Restart(slot, now, alive, maxNag);
            && t.entry.Some?
            && (if e.status.Fired? && (now - e.firedAt.value >= maxNag || !alive)
                then t.entry.value == CompletedEntry(e, Expired, now) && t.row == Some(RowOf(t.entry.value))
                else t.row == slot.row && RowOf(t.entry.value) == RowOf(e))
            && (e.status.Fired? && t.row == slot.row ==> t.entry.value.nag == Some(Nag(e.firedAt.value, 0)))
            && (!e.status.Fired? ==> t.entry.value.handle == Some(if e.firesAt > now then e.firesAt else now))
  {
  }

  /** Finished rows stay as they are, except that a finished timer that is still in
      memory can be deleted, which marks it cancelled. */
  lemma FinishedRowsStay(slot: Slot, e: Event, maxNag: int)
    requires Agreement(slot) && slot.row.Some? && !Active(slot.row.value.status)
    ensures var t := After(slot, e, maxNag);
            if e.step.DeleteStep? && slot.entry.Some?
            then t.row == Some(slot.row.value.(status := Cancelled, completedAt := Some(e.now)))
            else t.row == slot.row
  {
  }

  // ---- Expiry ----

  datatype Nagging = Nagging(now: Time, ok: bool)

  function NagRun(slot: Slot, ticks: seq<Nagging>, maxNag: int): Slot {
    if ticks == [] then slot
    else
      var n := |ticks| - 1;
      NagTick(NagRun(slot, ticks[..n], maxNag), ticks[n].now, ticks[n].ok, maxNag)
  }

  /** Tick `k` reaches the maximum duration, or is the third failure in a row. */
  ghost predicate Fatal(ticks: seq<Nagging>, firedAt: Time, maxNag: int, k: nat)
    requires k < |ticks|
  {
    || MaxReached(firedAt, ticks[k].now, maxNag)
    || (k >= 2 && !ticks[k].ok && !ticks[k - 1].ok && !ticks[k - 2].ok)
  }

  function FailuresInARow(ticks: seq<Nagging>): nat {
    if ticks == [] || ticks[|ticks| - 1].ok then 0 else 1 + FailuresInARow(ticks[..|ticks| - 1])
  }

  lemma ThreeInARow(ticks: seq<Nagging>)
    requires ticks != []
    ensures FailuresInARow(ticks) >= 3 <==>
              |ticks| >= 3 && !ticks[|ticks| - 1].ok && !ticks[|ticks| - 2].ok && !ticks[|ticks| - 3].ok
  {
    var n := |ticks|;
    var t1 := ticks[..n - 1];
    FailuresAtMost(t1);
    if n >= 2 {
      var t2 := t1[..n - 2];
      FailuresAtMost(t2);
      assert FailuresInARow(t1) == if ticks[n - 2].ok then 0 else 1 + FailuresInARow(t2);
      assert n >= 3 ==> (FailuresInARow(t2) >= 1 <==> !ticks[n - 3].ok);
    }
  }

  lemma {:induction false} FailuresAtMost(ticks: seq<Nagging>)
    ensures FailuresInARow(ticks) <= |ticks|
  {
    if ticks != [] {
      FailuresAtMost(ticks[..|ticks| - 1]);
    }
  }

  ghost predicate FreshlyFired(slot: Slot, firedAt: Time) {
    slot.entry.Some? && slot.entry.value.status.Fired? && slot.entry.value.nag == Some(Nag(firedAt, 0))
  }

  ghost predicate AnyFatal(ticks: seq<Nagging>, firedAt: Time, maxNag: int) {
    exists k: nat :: k < |ticks| && Fatal(ticks, firedAt, maxNag, k)
  }

  lemma FatalSnoc(ticks: seq<Nagging>, firedAt: Time, maxNag: int)
    requires ticks != []
    ensures AnyFatal(ticks, firedAt, maxNag) <==>
              AnyFatal(ticks[..|ticks| - 1], firedAt, maxNag) || Fatal(ticks, firedAt, maxNag, |ticks| - 1)
  {
    var n := |ticks| - 1;
    var front := ticks[..n];
    forall k: nat | k < n ensures Fatal(front, firedAt, maxNag, k) == Fatal(ticks, firedAt, maxNag, k) {
    }
    if AnyFatal(front, firedAt, maxNag) {
      var k: nat :| k < |front| && Fatal(front, firedAt, maxNag, k);
      assert Fatal(ticks, firedAt, maxNag, k);
    }
    if AnyFatal(ticks, firedAt, maxNag) {
      var k: nat :| k < |ticks| && Fatal(ticks, firedAt, maxNag, k);
      assert k < n ==> Fatal(front, firedAt, maxNag, k);
    }
  }

  /** A fired timer left alone expires at the tick that reaches the maximum duration or
      completes three failures in a row, and at no other. */
  lemma {:induction false} ExpiresExactlyWhen(slot: Slot, firedAt: Time, ticks: seq<Nagging>, maxNag: int)
    requires FreshlyFired(slot, firedAt)
    ensures var t := NagRun(slot, ticks, maxNag);
            && t.entry.Some?
            && (AnyFatal(ticks, firedAt, maxNag) ==> t.entry.value.status.Expired? && t.entry.value.nag == None)
            && (!AnyFatal(ticks, firedAt, maxNag) ==>
                  t.entry.value.status.Fired? && t.entry.value.nag == Some(Nag(firedAt, FailuresInARow(ticks))))
    decreases |ticks|
  {
    if ticks != [] {
      var n := |ticks| - 1;
      ExpiresExactlyWhen(slot, firedAt, ticks[..n], maxNag);
      FatalSnoc(ticks, firedAt, maxNag);
      ThreeInARow(ticks);
    }
  }

  /** Ticks every half minute whose injections succeed. */
  function HealthyTicks(firedAt: Time, n: nat): seq<Nagging> {
    seq(n, i requires 0 <= i < n => Nagging(firedAt + 30_000 * (i + 1), true))
  }

  /** With the default settings a timer that nobody acknowledges nags nineteen times and
      expires at the twentieth tick, ten minutes after it fired. */
  lemma TenMinutes(slot: Slot, firedAt: Time, n: nat)
    requires FreshlyFired(slot, firedAt)
    ensures NagRun(slot, HealthyTicks(firedAt, n), 600_000).entry.Some?
    ensures NagRun(slot, HealthyTicks(firedAt, n), 600_000).entry.value.status == if n >= 20 then Expired else Fired
  {
    var ticks := HealthyTicks(firedAt, n);
    ExpiresExactlyWhen(slot, firedAt, ticks, 600_000);
    forall k: nat | k < n ensures Fatal(ticks, firedAt, 600_000, k) <==> k >= 19 {
      assert ticks[k].now - firedAt == 30_000 * (k + 1);
    }
    if n >= 20 {
      assert Fatal(ticks, firedAt, 600_000, 19);
    }
  }
}
