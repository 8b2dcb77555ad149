/** Timers of daemon/src/api/timer.ts: a timer fires, nags until it is acknowledged,
    and expires by itself. The memory entry and the database row of one timer are
    given together; injecting a message is one atomic step. */
module Timers {
  import opened Wrappers

  type Time = int
  type TimerId = string

  const MAX_CONSECUTIVE_FAILURES: nat := 3

  datatype Status = Pending | Fired | Acknowledged | Snoozed | Expired | Cancelled

  predicate Active(status: Status) {
    status.Pending? || status.Fired? || status.Snoozed?
  }

  /** A running nag interval: when the timer fired, and failures in a row. */
  datatype Nag = Nag(firedAt: Time, failures: nat)

  /** `handle` is the pending timeout, with its due time. */
  datatype Entry = Entry(
    session: string, status: Status, firesAt: Time, firedAt: Option<Time>, completedAt: Option<Time>,
    handle: Option<Time>, nag: Option<Nag>)

  datatype Row = Row(session: string, status: Status, firesAt: Time, firedAt: Option<Time>, completedAt: Option<Time>)

  datatype Slot = Slot(entry: Option<Entry>, row: Option<Row>)

  function RowOf(e: Entry): Row {
    Row(e.session, e.status, e.firesAt, e.firedAt, e.completedAt)
  }

  /** Store an entry and its row; the row must exist for the UPDATE to touch it. */
  function Store(slot: Slot, e: Entry): Slot {
    Slot(Some(e), if slot.row.Some? then Some(RowOf(e).(session := slot.row.value.session)) else None)
  }

  function CompletedEntry(e: Entry, status: Status, now: Time): Entry {
    e.(handle := None, nag := None, status := status, completedAt := Some(now))
  }

  function Create(slot: Slot, session: string, delay: int, now: Time): Slot {
    if slot.entry.Some? || slot.row.Some? then slot
    else
      var e := Entry(session, Pending, now + delay, None, None, Some(now + delay), None);
      Slot(Some(e), Some(RowOf(e)))
  }

  /** The timeout goes off; `after` is the time when the first message was injected. */
  function Fire(slot: Slot, now: Time, after: Time): Slot {
    if slot.entry.None? || slot.entry.value.handle.None? then slot
    else Store(slot, slot.entry.value.(handle := None, status := Fired, firedAt := Some(now),
                                       nag := Some(Nag(after, 0))))
  }

  /** Whole seconds nagged so far have reached the maximum. */
  predicate MaxReached(firedAt: Time, now: Time, maxNag: int) {
    (now - firedAt) / 1000 * 1000 >= maxNag
  }

  /** One tick of the nag interval; `ok` says whether the injection succeeded. */
  function NagTick(slot: Slot, now: Time, ok: bool, maxNag: int): Slot {
    if slot.entry.None? || slot.entry.value.nag.None? then slot
    else
      var e := slot.entry.value;
      var nag := e.nag.value;
      if !e.status.Fired? then slot.(entry := Some(e.(nag := None)))
      else if MaxReached(nag.firedAt, now, maxNag) then Store(slot, CompletedEntry(e, Expired, now))
      else if ok then slot.(entry := Some(e.(nag := Some(nag.(failures := 0)))))
      else if nag.failures + 1 >= MAX_CONSECUTIVE_FAILURES then Store(slot, CompletedEntry(e, Expired, now))
      else slot.(entry := Some(e.(nag := Some(nag.(failures := nag.failures + 1)))))
  }

  function Ack(slot: Slot, now: Time): (Slot, nat) {
    if slot.entry.None? then (slot, 404)
    else if !slot.entry.value.status.Fired? then (slot, 409)
    else (Store(slot, CompletedEntry(slot.entry.value, Acknowledged, now)), 200)
  }

  function SnoozedEntry(e: Entry, delay: int, now: Time): Entry {
    e.(nag := None, status := Snoozed, firesAt := now + delay, firedAt := None, handle := Some(now + delay))
  }

  function Snooze(slot: Slot, delay: int, now: Time): (Slot, nat) {
    if slot.entry.None? then (slot, 404)
    else if !slot.entry.value.status.Fired? then (slot, 409)
    else (Store(slot, SnoozedEntry(slot.entry.value, delay, now)), 200)
  }

  /** Snoozing after the wait for the request body: the entry is the object that was read,
      whatever became of it. If it was removed from memory, `removed` is what it became,
      and only it and the row change. */
  function FinishSnooze(slot: Slot, removed: Option<Entry>, delay: int, now: Time): (Slot, Option<Entry>) {
    if slot.entry.Some? then (Store(slot, SnoozedEntry(slot.entry.value, delay, now)), removed)
    else if removed.Some? then
      var t := Store(Slot(removed, slot.row), SnoozedEntry(removed.value, delay, now));
      (Slot(None, t.row), t.entry)
    else (slot, removed)
  }

  /** Cancelling looks in memory first and falls back to the database. */
  function Delete(slot: Slot, now: Time): (Slot, nat) {
    if slot.entry.Some? then (Store(slot, CompletedEntry(slot.entry.value, Cancelled, now)).(entry := None), 200)
    else if slot.row.None? then (slot, 404)
    else if Active(slot.row.value.status)
    then (slot.(row := Some(slot.row.value.(status := Cancelled, completedAt := Some(now)))), 200)
    else (slot, 200)
  }

  lemma OneFewer(active: set<TimerId>, ids: set<TimerId>, id: TimerId)
    requires id in ids
    ensures |active - (ids - {id})| == |active - ids| + if id in active then 1 else 0
  {
    assert active - (ids - {id}) == if id in active then (active - ids) + {id} else active - ids;
  }

  /** The active timers of a session. */
  function ActiveOf(timers: map<TimerId, Entry>, session: string): set<TimerId> {
    set id | id in timers && timers[id].session == session && Active(timers[id].status)
  }

  function CancelSession(slot: Slot, session: string, now: Time): Slot {
    if slot.entry.Some? && slot.entry.value.session == session && Active(slot.entry.value.status)
    then Store(slot, CompletedEntry(slot.entry.value, Cancelled, now)).(entry := None)
    else slot
  }

  /** The process restarts and reloads its timers. */
  function Restart(slot: Slot, now: Time, alive: bool, maxNag: int): Slot {
    if slot.row.None? || !Active(slot.row.value.status) then slot.(entry := None)
    else
      var r := slot.row.value;
      var e := Entry(r.session, r.status, r.firesAt, r.firedAt, r.completedAt, None, None);
      if r.status.Fired? then
        var firedAt := if r.firedAt.Some? then r.firedAt.value else now;
        if now - firedAt >= maxNag || !alive then Store(slot, CompletedEntry(e, Expired, now))
        else slot.(entry := Some(e.(nag := Some(Nag(firedAt, 0)))))
      else
        slot.(entry := Some(e.(handle := Some(if r.firesAt > now then r.firesAt else now))))
  }

  function SlotIn(timers: map<TimerId, Entry>, table: map<TimerId, Row>, id: TimerId): Slot {
    Slot(if id in timers then Some(timers[id]) else None, if id in table then Some(table[id]) else None)
  }

  ghost predicate OthersKept(id: TimerId, timers0: map<TimerId, Entry>, table0: map<TimerId, Row>,
                             timers: map<TimerId, Entry>, table: map<TimerId, Row>)
  {
    forall other :: other != id ==> SlotIn(timers, table, other) == SlotIn(timers0, table0, other)
  }

  // ---- Progress of the two loops ----

  ghost predicate CancelledOutside(ids: set<TimerId>, timers0: map<TimerId, Entry>, table0: map<TimerId, Row>,
                                   timers: map<TimerId, Entry>, table: map<TimerId, Row>, session: string, now: Time)
  {
    forall id :: SlotIn(timers, table, id) ==
                 if id in ids then SlotIn(timers0, table0, id)
                 else CancelSession(SlotIn(timers0, table0, id), session, now)
  }

  lemma CancelledStep(ids: set<TimerId>, timers0: map<TimerId, Entry>, table0: map<TimerId, Row>,
                      timers1: map<TimerId, Entry>, table1: map<TimerId, Row>,
                      timers: map<TimerId, Entry>, table: map<TimerId, Row>,
                      session: string, now: Time, id: TimerId)
    requires CancelledOutside(ids, timers0, table0, timers1, table1, session, now) && id in ids
    requires SlotIn(timers, table, id) == CancelSession(SlotIn(timers1, table1, id), session, now)
    requires OthersKept(id, timers1, table1, timers, table)
    ensures CancelledOutside(ids - {id}, timers0, table0, timers, table, session, now)
  {
  }

  ghost predicate RestartedOutside(ids: set<TimerId>, table0: map<TimerId, Row>, timers: map<TimerId, Entry>,
                                   table: map<TimerId, Row>, now: Time, alive: string -> bool, maxNag: int)
  {
    forall id :: SlotIn(timers, table, id) ==
                 if id in ids then SlotIn(map[], table0, id)
                 else Restart(SlotIn(map[], table0, id), now, id in table0 && alive(table0[id].session), maxNag)
  }

  lemma RestartedStep(ids: set<TimerId>, table0: map<TimerId, Row>,
                      timers1: map<TimerId, Entry>, table1: map<TimerId, Row>,
                      timers: map<TimerId, Entry>, table: map<TimerId, Row>,
                      now: Time, alive: string -> bool, maxNag: int, id: TimerId)
    requires RestartedOutside(ids, table0, timers1, table1, now, alive, maxNag) && id in ids && id in table0
    requires SlotIn(timers, table, id) == Restart(SlotIn(timers1, table1, id), now, alive(table0[id].session), maxNag)
    requires OthersKept(id, timers1, table1, timers, table)
    ensures RestartedOutside(ids - {id}, table0, timers, table, now, alive, maxNag)
  {
  }

  /** The module as it is written: a map of entries beside the table. */
  class TimerService {
    const maxNag: int
    var timers: map<TimerId, Entry>
    var table: map<TimerId, Row>

    ghost function SlotOf(id: TimerId): Slot
      reads this
    {
      SlotIn(timers, table, id)
    }

    constructor (maxNag: int)
      ensures this.maxNag == maxNag && forall id :: SlotOf(id) == Slot(None, None)
    {
      this.maxNag := maxNag;
      timers, table := map[], map[];
    }

    method UpdateTimerDb(id: TimerId)
      requires id in timers
      modifies `table
      ensures SlotOf(id) == Store(old(SlotOf(id)), timers[id])
      ensures forall other :: other != id ==> SlotOf(other) == old(SlotOf(other))
    {
      if id in table {
        var e := timers[id];
        table := table[id := Row(table[id].session, e.status, e.firesAt, e.firedAt, e.completedAt)];
      }
    }

    method Complete(id: TimerId, status: Status, now: Time)
      requires id in timers
      modifies this
      ensures SlotOf(id) == Store(old(SlotOf(id)), CompletedEntry(old(timers)[id], status, now))
      ensures forall other :: other != id ==> SlotOf(other) == old(SlotOf(other))
    {
      var e := timers[id].(handle := None, nag := None);
      timers := timers[id := e.(status := status, completedAt := Some(now))];
      UpdateTimerDb(id);
    }

    method CreateTimer(id: TimerId, session: string, delay: int, now: Time)
      requires id !in timers && id !in table
      modifies this
      ensures SlotOf(id) == Create(old(SlotOf(id)), session, delay, now)
      ensures forall other :: other != id ==> SlotOf(other) == old(SlotOf(other))
    {
      var e := Entry(session, Pending, now + delay, None, None, Some(now + delay), None);
      timers := timers[id := e];
      table := table[id := RowOf(e)];
    }

    method FireTimer(id: TimerId, now: Time, after: Time)
      requires id in timers && timers[id].handle.Some?
      modifies this
      ensures SlotOf(id) == Fire(old(SlotOf(id)), now, after)
      ensures forall other :: other != id ==> SlotOf(other) == old(SlotOf(other))
    {
      timers := timers[id := timers[id].(handle := None, status := Fired, firedAt := Some(now))];
      assert forall other :: other != id ==> SlotOf(other) == old(SlotOf(other));
      UpdateTimerDb(id);
      assert forall other :: other != id ==> SlotOf(other) == old(SlotOf(other));
      timers := timers[id := timers[id].(nag := Some(Nag(after, 0)))];
    }

    method OnNag(id: TimerId, now: Time, ok: bool)
      requires id in timers && timers[id].nag.Some?
      modifies this
      ensures SlotOf(id) == NagTick(old(SlotOf(id)), now, ok, maxNag)
      ensures forall other :: other != id ==> SlotOf(other) == old(SlotOf(other))
    {
      var e := timers[id];
      var nag := e.nag.value;
      if !e.status.Fired? {
        timers := timers[id := e.(nag := None)];
        return;
      }
      var elapsed := (now - nag.firedAt) / 1000;
      if elapsed * 1000 >= maxNag {
        Complete(id, Expired, now);
        return;
      }
      var failures := if ok then 0 else nag.failures + 1;
      if failures >= MAX_CONSECUTIVE_FAILURES {
        Complete(id, Expired, now);
      } else {
        timers := timers[id := e.(nag := Some(nag.(failures := failures)))];
      }
    }

    method AckTimer(id: TimerId, now: Time) returns (code: nat)
      modifies this
      ensures (SlotOf(id), code) == Ack(old(SlotOf(id)), now)
      ensures forall other :: other != id ==> SlotOf(other) == old(SlotOf(other))
    {
      if id !in timers { return 404; }
      if !timers[id].status.Fired? { return 409; }
      Complete(id, Acknowledged, now);
      return 200;
    }

    /** A snooze before it waits for its body: nothing to refuse, or the code. */
    method ReadForSnooze(id: TimerId) returns (refused: Option<nat>)
      ensures refused == if id !in timers then Some(404)
                         else if !timers[id].status.Fired? then Some(409) else None
    {
      if id !in timers { return Some(404); }
      if !timers[id].status.Fired? { return Some(409); }
      return None;
    }

    /** And after: `held` is the object it read, as it is now; it is the entry in memory
        unless that was removed. */
    method SnoozeTimer(id: TimerId, held: Entry, delay: int, now: Time) returns (entry: Entry)
      requires id in timers ==> timers[id] == held
      modifies this
      ensures var removed := if id in old(timers) then None else Some(held);
              var (slot, left) := FinishSnooze(old(SlotOf(id)), removed, delay, now);
              && SlotOf(id) == slot
              && Some(entry) == if id in old(timers) then slot.entry else left
      ensures forall other :: other != id ==> SlotOf(other) == old(SlotOf(other))
    {
      entry := held.(handle := None, nag := None);
      entry := entry.(status := Snoozed, firesAt := now + delay, firedAt := None);
      if id in table {
        table := table[id := RowOf(entry).(session := table[id].session)];
      }
      assert forall other :: other != id ==> SlotOf(other) == old(SlotOf(other));
      entry := entry.(handle := Some(now + delay));
      if id in timers {
        timers := timers[id := entry];
      }
    }

    method DeleteTimer(id: TimerId, now: Time) returns (code: nat)
      modifies this
      ensures (SlotOf(id), code) == Delete(old(SlotOf(id)), now)
      ensures forall other :: other != id ==> SlotOf(other) == old(SlotOf(other))
    {
      if id in timers {
        Complete(id, Cancelled, now);
        timers := timers - {id};
        return 200;
      }
      if id !in table { return 404; }
      if Active(table[id].status) {
        table := table[id := table[id].(status := Cancelled, completedAt := Some(now))];
      }
      return 200;
    }

    method CancelSessionTimers(session: string, now: Time) returns (count: nat)
      modifies this
      ensures forall id :: SlotOf(id) == CancelSession(old(SlotOf(id)), session, now)
      ensures count == |ActiveOf(old(timers), session)|
    {
      ghost var timers0, table0, active := timers, table, ActiveOf(timers, session);
      var ids := timers.Keys;
      count := 0;
      while ids != {}
        invariant ids <= timers0.Keys && count == |active - ids|
        invariant CancelledOutside(ids, timers0, table0, timers, table, session, now)
        decreases ids
      {
        var id :| id in ids;
        assert SlotIn(timers, table, id) == SlotIn(timers0, table0, id);
        ghost var timers1, table1 := timers, table;
        var hit := CancelIfActive(id, session, now);
        CancelledStep(ids, timers0, table0, timers1, table1, timers, table, session, now, id);
        if hit {
          count := count + 1;
        }
        OneFewer(active, ids, id);
        ids := ids - {id};
      }
      assert active - ids == active;
    }

    /** The part of the loop body that concerns one timer. */
    method CancelIfActive(id: TimerId, session: string, now: Time) returns (hit: bool)
      requires id in timers
      modifies this
      ensures hit <==> old(timers)[id].session == session && Active(old(timers)[id].status)
      ensures SlotIn(timers, table, id) == CancelSession(SlotIn(old(timers), old(table), id), session, now)
      ensures OthersKept(id, old(timers), old(table), timers, table)
    {
      hit := timers[id].session == session && Active(timers[id].status);
      if hit {
        Complete(id, Cancelled, now);
        forall other | other != id ensures SlotIn(timers, table, other) == SlotIn(old(timers), old(table), other) {
          assert SlotOf(other) == old(SlotOf(other));
        }
        timers := timers - {id};
      }
    }

    method InitTimers(now: Time, alive: string -> bool)
      requires timers == map[]
      modifies this
      ensures forall id :: SlotOf(id) ==
                Restart(old(SlotOf(id)), now, id in old(table) && alive(old(table)[id].session), maxNag)
    {
      ghost var table0 := table;
      var ids := set id | id in table && Active(table[id].status);
      while ids != {}
        invariant ids <= table0.Keys
        invariant forall id :: id in ids ==> Active(table0[id].status)
        invariant RestartedOutside(ids, table0, timers, table, now, alive, maxNag)
        decreases ids
      {
        var id :| id in ids;
        assert SlotIn(timers, table, id) == SlotIn(map[], table0, id);
        ghost var timers1, table1 := timers, table;
        ReloadTimer(id, now, alive);
        RestartedStep(ids, table0, timers1, table1, timers, table, now, alive, maxNag, id);
        ids := ids - {id};
      }
    }

    /** The part of the loop body of initTimers that concerns one active row. */
    method ReloadTimer(id: TimerId, now: Time, alive: string -> bool)
      requires id !in timers && id in table && Active(table[id].status)
      modifies this
      ensures SlotIn(timers, table, id) ==
                Restart(SlotIn(old(timers), old(table), id), now, alive(old(table)[id].session), maxNag)
      ensures OthersKept(id, old(timers), old(table), timers, table)
    {
      var r := table[id];
      var e := Entry(r.session, r.status, r.firesAt, r.firedAt, r.completedAt, None, None);
      timers := timers[id := e];
      if r.status.Fired? {
        var firedAt := if r.firedAt.Some? then r.firedAt.value else now;
        if now - firedAt >= maxNag || !alive(r.session) {
          Complete(id, Expired, now);
          forall other | other != id ensures SlotIn(timers, table, other) == SlotIn(old(timers), old(table), other) {
            assert SlotOf(other) == old(SlotOf(other));
          }
        } else {
          timers := timers[id := e.(nag := Some(Nag(firedAt, 0)))];
        }
      } else {
        timers := timers[id := e.(handle := Some(if r.firesAt > now then r.firesAt else now))];
      }
    }
  }
}
