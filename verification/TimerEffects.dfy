/** What each timer request, timeout and nag tick does, field by field
    (daemon/src/api/timer.ts). */
module TimerEffects {
  import opened Wrappers
  import opened Timers
  import opened TimersSafety

  /** The entry in memory, and the row with the same data. */
  ghost predicate Is(slot: Slot, session: string, status: Status, firesAt: Time, firedAt: Option<Time>,
                     completedAt: Option<Time>)
  {
    && slot.entry.Some? && slot.row.Some?
    && var e, r := slot.entry.value, slot.row.value;
       && e.session == session && e.status == status && e.firesAt == firesAt
       && e.firedAt == firedAt && e.completedAt == completedAt
       && r.session == session && r.status == status && r.firesAt == firesAt
       && r.firedAt == firedAt && r.completedAt == completedAt
  }

  /** The pending timeout, and the running nag interval. */
  ghost predicate Waits(slot: Slot, due: Option<Time>, nag: Option<Nag>) {
    slot.entry.Some? && slot.entry.value.handle == due && slot.entry.value.nag == nag
  }

  /** A new timer is pending, and due after its delay. */
  lemma CreateDoes(session: string, delay: int, now: Time)
    ensures var t := Create(Slot(None, None), session, delay, now);
            Is(t, session, Pending, now + delay, None, None) && Waits(t, Some(now + delay), None)
  {
  }

  /** When its timeout goes off it is fired, at that time, and nags from the end of its first
      injection on. */
  lemma FireDoes(slot: Slot, now: Time, after: Time)
    requires Agreement(slot) && slot.entry.Some? && slot.entry.value.handle.Some?
    ensures var e, t := slot.entry.value, Fire(slot, now, after);
            Is(t, e.session, Fired, e.firesAt, Some(now), e.completedAt) && Waits(t, None, Some(Nag(after, 0)))
  {
  }

  ghost predicate IsFired(slot: Slot) {
    slot.entry.Some? && slot.entry.value.status.Fired?
  }

  /** Acknowledging ends a fired timer as acknowledged, now. */
  lemma AckDoes(slot: Slot, now: Time)
    requires Agreement(slot)
    ensures var (t, code) := Ack(slot, now);
            && code == (if slot.entry.None? then 404 else if !IsFired(slot) then 409 else 200)
            && (code != 200 ==> t == slot)
            && (code == 200 ==>
                  var e := slot.entry.value;
                  Is(t, e.session, Acknowledged, e.firesAt, e.firedAt, Some(now)) && Waits(t, None, None))
  {
  }

  /** Snoozing a fired timer stops its nagging and makes it due after the delay. */
  lemma SnoozeDoes(slot: Slot, delay: int, now: Time)
    requires Agreement(slot)
    ensures var (t, code) := Snooze(slot, delay, now);
            && code == (if slot.entry.None? then 404 else if !IsFired(slot) then 409 else 200)
            && (code != 200 ==> t == slot)
            && (code == 200 ==>
                  var e := slot.entry.value;
                  && Is(t, e.session, Snoozed, now + delay, None, e.completedAt)
                  && Waits(t, Some(now + delay), None))
  {
  }

  /** The snooze after a wait does the same to whatever is in memory. */
  lemma FinishSnoozeDoes(slot: Slot, removed: Option<Entry>, delay: int, now: Time)
    requires Agreement(slot) && slot.entry.Some?
    ensures var (t, left) := FinishSnooze(slot, removed, delay, now);
            && left == removed
            && Is(t, slot.entry.value.session, Snoozed, now + delay, None, slot.entry.value.completedAt)
            && Waits(t, Some(now + delay), None)
  {
  }

  /** Deleting cancels a timer in memory and forgets it; without one it cancels an active
      row, of which there is none as long as memory and database agree. */
  lemma DeleteDoes(slot: Slot, now: Time)
    ensures var (t, code) := Delete(slot, now);
            && code == (if slot.entry.None? && slot.row.None? then 404 else 200)
            && (slot.entry.Some? && slot.row.Some? ==>
                  && t.entry == None && t.row.Some?
                  && t.row.value.status.Cancelled? && t.row.value.completedAt == Some(now))
            && (slot.entry.None? && slot.row.Some? && Active(slot.row.value.status) ==>
                  t == slot.(row := Some(slot.row.value.(status := Cancelled, completedAt := Some(now)))))
            && (slot.entry.None? && (slot.row.Some? ==> !Active(slot.row.value.status)) ==> t == slot)
  {
  }

  /** Cancelling a session does that to its active timers in memory, and to no others. */
  lemma CancelSessionDoes(slot: Slot, session: string, now: Time)
    requires Agreement(slot)
    ensures var t := CancelSession(slot, session, now);
            if slot.entry.Some? && slot.entry.value.session == session && Active(slot.entry.value.status)
            then t.entry == None && t.row == Some(slot.row.value.(status := Cancelled, completedAt := Some(now)))
            else t == slot
  {
  }

  /** A nag tick: a successful injection forgets the failures, a failed one adds one; the
      third in a row, or the maximum duration, expires the timer, now. */
  lemma NagDoes(slot: Slot, now: Time, ok: bool, maxNag: int)
    requires Agreement(slot) && IsFired(slot)
    ensures var e, t := slot.entry.value, NagTick(slot, now, ok, maxNag);
            var nag := e.nag.value;
            if (now - nag.firedAt) / 1000 * 1000 >= maxNag || (!ok && nag.failures == 2) then
              Is(t, e.session, Expired, e.firesAt, e.firedAt, Some(now)) && Waits(t, None, None)
            else
              && Is(t, e.session, Fired, e.firesAt, e.firedAt, e.completedAt)
              && Waits(t, None, Some(Nag(nag.firedAt, if ok then 0 else nag.failures + 1)))
  {
  }

  /** Through its life: set, fired, snoozed, fired again and acknowledged. */
  lemma Life(session: string, delay: int, made: Time, fired: Time, snoozed: Time, again: int,
             refired: Time, acked: Time)
    ensures var a := Create(Slot(None, None), session, delay, made);
            var b := Fire(a, fired, fired);
            var c := Snooze(b, again, snoozed).0;
            var d := Fire(c, refired, refired);
            var (e, code) := Ack(d, acked);
            && code == 200
            && Is(b, session, Fired, made + delay, Some(fired), None)
            && Is(c, session, Snoozed, snoozed + again, None, None)
            && Is(e, session, Acknowledged, snoozed + again, Some(refired), Some(acked)) && Waits(e, None, None)
  {
  }
}
