/** Sliding-window limiting: a pruned list of timestamps answers exactly as a scan of
    everything that was ever accepted. */
module SlidingWindow {

  type Time = int

  /** The timestamps still inside the window, in order. */
  function Live(ts: seq<Time>, now: Time, window: int): (r: seq<Time>)
    ensures |r| <= |ts|
    ensures forall t :: t in r <==> t in ts && now - t < window
  {
    if ts == [] then []
    else
      var n := |ts| - 1;
      Live(ts[..n], now, window) + if now - ts[n] < window then [ts[n]] else []
  }

  function Admitted(ts: seq<Time>, now: Time, window: int, max: int): bool {
    |Live(ts, now, window)| < max
  }

  /** Seconds until the oldest timestamp leaves the window, rounded up. */
  function RetryAfter(oldest: Time, now: Time, window: int): int {
    -(-(oldest + window - now) / 1000)
  }

  lemma LiveSnoc(ts: seq<Time>, t: Time, now: Time, window: int)
    ensures Live(ts + [t], now, window) == Live(ts, now, window) + if now - t < window then [t] else []
  {
    assert (ts + [t])[..|ts|] == ts;
  }

  /** Pruning early loses nothing that a later scan would keep. */
  lemma {:induction false} LiveTwice(ts: seq<Time>, earlier: Time, now: Time, window: int)
    requires earlier <= now
    ensures Live(Live(ts, earlier, window), now, window) == Live(ts, now, window)
  {
    if ts != [] {
      var n := |ts| - 1;
      LiveTwice(ts[..n], earlier, now, window);
      LiveSnoc(Live(ts[..n], earlier, window), ts[n], now, window);
      assert Live(ts[..n], earlier, window) + [] == Live(ts[..n], earlier, window);
    }
  }

  /** `kept` may stand for `history` at any time from `clock` on. */
  ghost predicate Represents(kept: seq<Time>, history: seq<Time>, clock: Time, window: int) {
    forall now :: now >= clock ==> Live(kept, now, window) == Live(history, now, window)
  }

  lemma RepresentsPruned(kept: seq<Time>, history: seq<Time>, clock: Time, now: Time, window: int)
    requires Represents(kept, history, clock, window) && clock <= now
    ensures Represents(Live(kept, now, window), history, now, window)
    ensures Represents(Live(kept, now, window) + [now], history + [now], now, window)
  {
    forall later | later >= now
      ensures Live(Live(kept, now, window), later, window) == Live(history, later, window)
      ensures Live(Live(kept, now, window) + [now], later, window) == Live(history + [now], later, window)
    {
      LiveTwice(kept, now, later, window);
      LiveSnoc(Live(kept, now, window), now, later, window);
      LiveSnoc(history, now, later, window);
    }
  }

  // ---- Bounds ----

  function CountIn(ts: seq<Time>, lo: Time, hi: Time): nat {
    if ts == [] then 0
    else CountIn(ts[..|ts| - 1], lo, hi) + if lo <= ts[|ts| - 1] < hi then 1 else 0
  }

  /** What is live is what came in the last `window` milliseconds. */
  lemma {:induction false} LiveCounts(ts: seq<Time>, now: Time, window: int)
    requires forall i :: 0 <= i < |ts| ==> ts[i] <= now
    ensures |Live(ts, now, window)| == CountIn(ts, now - window + 1, now + 1)
  {
    if ts != [] {
      LiveCounts(ts[..|ts| - 1], now, window);
    }
  }

  /** Every entry was admitted under a limit of at most `max`. */
  ghost predicate AdmittedAll(history: seq<Time>, window: int, max: int) {
    forall k :: 0 <= k < |history| ==> |Live(history[..k], history[k], window)| < max
  }

  ghost predicate Ordered(history: seq<Time>, clock: Time) {
    && (forall i, j :: 0 <= i < j < |history| ==> history[i] <= history[j])
    && (forall i :: 0 <= i < |history| ==> history[i] <= clock)
  }

  lemma {:induction false} IntervalIsLive(ts: seq<Time>, lo: Time, t: Time, window: int)
    requires t < lo + window
    ensures CountIn(ts, lo, lo + window) <= |Live(ts, t, window)|
  {
    if ts != [] {
      IntervalIsLive(ts[..|ts| - 1], lo, t, window);
    }
  }

  lemma AdmittedFront(history: seq<Time>, window: int, max: int)
    requires AdmittedAll(history, window, max) && history != []
    ensures var n := |history| - 1;
            AdmittedAll(history[..n], window, max) && |Live(history[..n], history[n], window)| < max
  {
    var front := history[..|history| - 1];
    forall k | 0 <= k < |front| ensures |Live(front[..k], front[k], window)| < max {
      assert front[..k] == history[..k];
    }
  }

  /** Any half-open interval as long as the window holds at most `max` admissions. */
  lemma {:induction false} IntervalBound(history: seq<Time>, window: int, max: nat, lo: Time)
    requires AdmittedAll(history, window, max)
    ensures CountIn(history, lo, lo + window) <= max
  {
    if history != [] {
      var n := |history| - 1;
      var front := history[..n];
      AdmittedFront(history, window, max);
      IntervalBound(front, window, max, lo);
      if lo <= history[n] < lo + window {
        IntervalIsLive(front, lo, history[n], window);
      }
    }
  }

  lemma AdmittedSnoc(history: seq<Time>, now: Time, window: int, max: int)
    requires AdmittedAll(history, window, max) && Admitted(history, now, window, max)
    ensures AdmittedAll(history + [now], window, max)
  {
    var h := history + [now];
    forall k | 0 <= k < |h| ensures |Live(h[..k], h[k], window)| < max {
      assert h[..k] == history[..k];
      assert history[..|history|] == history;
    }
  }

  /** No scan ever sees more than `max` entries. */
  lemma {:induction false} LiveBound(history: seq<Time>, now: Time, window: int, max: nat)
    requires AdmittedAll(history, window, max) && Ordered(history, now)
    ensures |Live(history, now, window)| <= max
  {
    if history != [] {
      var n := |history| - 1;
      var front := history[..n];
      AdmittedFront(history, window, max);
      LiveBound(front, now, window, max);
      LiveTwice(front, history[n], now, window);
    }
  }

  /** A kept list that stands for an ordered history of proper admissions. */
  ghost predicate Faithful(kept: seq<Time>, history: seq<Time>, clock: Time, window: int, max: int) {
    AdmittedAll(history, window, max) && Ordered(history, clock) && Represents(kept, history, clock, window)
  }

  /** One request: the kept list decides as the history would, and the new lists
      correspond again, whether or not a refusal stores the pruned list. */
  lemma RequestKeepsFaithful(kept: seq<Time>, history: seq<Time>, clock: Time, now: Time, window: int, max: int)
    requires Faithful(kept, history, clock, window, max) && clock <= now
    ensures Live(kept, now, window) == Live(history, now, window)
    ensures Faithful(kept, history, now, window, max)
    ensures Faithful(Live(kept, now, window), history, now, window, max)
    ensures Admitted(history, now, window, max) ==>
              Faithful(Live(kept, now, window) + [now], history + [now], now, window, max)
  {
    RepresentsPruned(kept, history, clock, now, window);
    if Admitted(history, now, window, max) {
      AdmittedSnoc(history, now, window, max);
    }
  }

  // ---- Retry-After ----

  lemma {:induction false} LiveShrinks(ts: seq<Time>, now: Time, window: int, gone: Time)
    requires gone in ts && now - gone >= window
    ensures |Live(ts, now, window)| < |ts|
  {
    if ts[|ts| - 1] != gone {
      LiveShrinks(ts[..|ts| - 1], now, window, gone);
    }
  }

  lemma {:induction false} LiveAll(ts: seq<Time>, now: Time, window: int)
    requires forall i :: 0 <= i < |ts| ==> now - ts[i] < window
    ensures Live(ts, now, window) == ts
  {
    if ts != [] {
      LiveAll(ts[..|ts| - 1], now, window);
      assert ts == ts[..|ts| - 1] + [ts[|ts| - 1]];
    }
  }

  lemma {:induction false} LiveKeepsOrder(ts: seq<Time>, now: Time, window: int, clock: Time)
    requires Ordered(ts, clock)
    ensures Ordered(Live(ts, now, window), clock)
  {
    if ts != [] {
      var front := ts[..|ts| - 1];
      LiveKeepsOrder(front, now, window, clock);
      var r := Live(front, now, window);
      forall i | 0 <= i < |r| ensures r[i] <= ts[|ts| - 1] {
        assert r[i] in front;
      }
    }
  }

  lemma RetryAfterRoundsUp(oldest: Time, now: Time, window: int)
    ensures var r := RetryAfter(oldest, now, window);
            1000 * (r - 1) < oldest + window - now <= 1000 * r
  {
  }

  lemma WaitingSuffices(history: seq<Time>, now: Time, window: int, max: nat, later: Time, gone: Time)
    requires AdmittedAll(history, window, max) && Ordered(history, now) && later >= now
    ensures gone in Live(history, now, window) && later - gone >= window ==> Admitted(history, later, window, max)
  {
    if gone in Live(history, now, window) && later - gone >= window {
      LiveBound(history, now, window, max);
      LiveTwice(history, now, later, window);
      LiveShrinks(Live(history, now, window), later, window, gone);
    }
  }

  lemma ComingEarlyDoesNot(history: seq<Time>, now: Time, window: int, max: nat, later: Time)
    requires Ordered(history, now) && later >= now && !Admitted(history, now, window, max)
    requires Live(history, now, window) != [] && later - Live(history, now, window)[0] < window
    ensures !Admitted(history, later, window, max)
  {
    LiveTwice(history, now, later, window);
    LiveKeepsOrder(history, now, window, now);
    var live := Live(history, now, window);
    assert forall i :: 0 <= i < |live| ==> live[0] <= live[i];
    LiveAll(live, later, window);
  }

  /** A refused caller who waits as told is admitted if nobody else was; one who comes
      a whole second earlier is refused again. */
  lemma RetryAfterIsExact(history: seq<Time>, now: Time, window: int, max: nat, later: Time)
    requires AdmittedAll(history, window, max) && Ordered(history, now)
    requires max >= 1 && !Admitted(history, now, window, max) && later >= now
    ensures var live := Live(history, now, window);
            && live != [] && RetryAfter(live[0], now, window) >= 1
            && (later >= now + 1000 * RetryAfter(live[0], now, window) ==> Admitted(history, later, window, max))
            && (later <= now + 1000 * (RetryAfter(live[0], now, window) - 1) ==> !Admitted(history, later, window, max))
  {
    var live := Live(history, now, window);
    assert live[0] in live;
    var r := RetryAfter(live[0], now, window);
    RetryAfterRoundsUp(live[0], now, window);
    if later >= now + 1000 * r {
      WaitingSuffices(history, now, window, max, later, live[0]);
    } else if later <= now + 1000 * (r - 1) {
      ComingEarlyDoesNot(history, now, window, max, later);
    }
  }
}

/** daemon/src/api/rate-limit.ts */
module RateLimit {
  import opened Wrappers
  import opened SlidingWindow

  datatype Limit = Limit(max: nat, window: int)

  function Kept(windows: map<string, seq<Time>>, key: string): seq<Time> {
    if key in windows then windows[key] else []
  }

  ghost predicate AllFaithful(limits: map<string, Limit>, windows: map<string, seq<Time>>,
                              accepted: map<string, seq<Time>>, clock: Time)
  {
    && accepted.Keys == limits.Keys
    && forall key :: key in limits ==>
         Faithful(Kept(windows, key), accepted[key], clock, limits[key].window, limits[key].max)
  }

  lemma TimePasses(limits: map<string, Limit>, windows: map<string, seq<Time>>,
                   accepted: map<string, seq<Time>>, clock: Time, now: Time)
    requires AllFaithful(limits, windows, accepted, clock) && clock <= now
    ensures AllFaithful(limits, windows, accepted, now)
  {
  }

  /** One request for one key. */
  lemma RequestKeepsKeys(limits: map<string, Limit>, windows: map<string, seq<Time>>,
                         accepted: map<string, seq<Time>>, clock: Time, now: Time, key: string)
    requires AllFaithful(limits, windows, accepted, clock) && clock <= now && key in limits
    ensures var live := Live(Kept(windows, key), now, limits[key].window);
            && live == Live(accepted[key], now, limits[key].window)
            && AllFaithful(limits, windows[key := live], accepted, now)
            && (|live| < limits[key].max ==>
                  AllFaithful(limits, windows[key := live + [now]], accepted[key := accepted[key] + [now]], now))
  {
    var limit := limits[key];
    var live := Live(Kept(windows, key), now, limit.window);
    TimePasses(limits, windows, accepted, clock, now);
    RequestKeepsFaithful(Kept(windows, key), accepted[key], clock, now, limit.window, limit.max);
    KeyUpdated(limits, windows, accepted, now, key, live, accepted[key]);
    assert accepted[key := accepted[key]] == accepted;
    if |live| < limit.max {
      KeyUpdated(limits, windows, accepted, now, key, live + [now], accepted[key] + [now]);
    }
  }

  lemma NewKey(limits: map<string, Limit>, windows: map<string, seq<Time>>,
               accepted: map<string, seq<Time>>, clock: Time, key: string)
    requires AllFaithful(limits, windows, accepted, clock) && key in limits && key !in windows
    ensures AllFaithful(limits, windows[key := []], accepted, clock)
  {
  }

  lemma KeyUpdated(limits: map<string, Limit>, windows: map<string, seq<Time>>, accepted: map<string, seq<Time>>,
                   clock: Time, key: string, kept: seq<Time>, history: seq<Time>)
    requires AllFaithful(limits, windows, accepted, clock) && key in limits
    requires Faithful(kept, history, clock, limits[key].window, limits[key].max)
    ensures AllFaithful(limits, windows[key := kept], accepted[key := history], clock)
  {
  }

  /** Whatever was asked when: no key gets more than its maximum in any interval as
      long as its window. */
  lemma NoBurst(limits: map<string, Limit>, windows: map<string, seq<Time>>,
                accepted: map<string, seq<Time>>, clock: Time, key: string, lo: Time)
    requires AllFaithful(limits, windows, accepted, clock) && key in limits
    ensures CountIn(accepted[key], lo, lo + limits[key].window) <= limits[key].max
  {
    IntervalBound(accepted[key], limits[key].window, limits[key].max, lo);
  }

  /** Each key belongs to one limiter. */
  class Limiters {
    const limits: map<string, Limit>
    var windows: map<string, seq<Time>>
    ghost var clock: Time
    ghost var accepted: map<string, seq<Time>>

    ghost predicate Valid()
      reads this
    {
      AllFaithful(limits, windows, accepted, clock)
    }

    constructor (limits: map<string, Limit>, ghost start: Time)
      ensures Valid() && this.limits == limits && clock == start
      ensures forall key :: key in limits ==> accepted[key] == []
    {
      this.limits := limits;
      windows := map[];
      clock := start;
      accepted := map key | key in limits :: [];
    }

    /** Refuses exactly when a scan of all accepted requests would. */
    method Allow(key: string, now: Time) returns (allowed: bool, retryAfter: Option<int>)
      requires Valid() && key in limits && now >= clock
      modifies this
      ensures Valid() && clock == now
      ensures allowed <==> Admitted(old(accepted)[key], now, limits[key].window, limits[key].max)
      ensures accepted == if allowed then old(accepted)[key := old(accepted)[key] + [now]] else old(accepted)
      ensures var live := Live(old(accepted)[key], now, limits[key].window);
              retryAfter == if allowed || live == [] then None else Some(RetryAfter(live[0], now, limits[key].window))
    {
      var max, window := limits[key].max, limits[key].window;
      if key !in windows {
        NewKey(limits, windows, accepted, clock, key);
        windows := windows[key := []];
      }
      RequestKeepsKeys(limits, windows, accepted, clock, now, key);
      var timestamps := Live(windows[key], now, window);
      clock := now;
      if |timestamps| >= max {
        windows := windows[key := timestamps];
        retryAfter := if timestamps == [] then None else Some(RetryAfter(timestamps[0], now, window));
        return false, retryAfter;
      }
      windows := windows[key := timestamps + [now]];
      accepted := accepted[key := accepted[key] + [now]];
      return true, None;
    }
  }
}

/** daemon/src/api/restart.ts: the restart-loop guard and the single pending restart. */
module RestartGuard {
  import opened Wrappers
  import opened SlidingWindow

  const RESTART_LOOP_WINDOW_MS: int := 60_000
  const DEFERRED_RESTART_DELAY_MS: int := 2000

  /** A pending restart is due within the delay, no accepted request is left without a
      shutdown pending or done since, and no shutdown comes without a request. */
  ghost predicate Answered(pending: Option<Time>, accepted: seq<Time>, shutdowns: seq<Time>, clock: Time) {
    && (pending.Some? ==> pending.value <= clock + DEFERRED_RESTART_DELAY_MS)
    && (accepted != [] && pending.None? ==>
          shutdowns != [] && accepted[|accepted| - 1] <= shutdowns[|shutdowns| - 1])
    && (forall i :: 0 <= i < |shutdowns| ==> shutdowns[i] <= clock)
    && |shutdowns| + (if pending.Some? then 1 else 0) <= |accepted|
  }

  lemma RequestAnswered(pending: Option<Time>, accepted: seq<Time>, shutdowns: seq<Time>, clock: Time, now: Time)
    requires Answered(pending, accepted, shutdowns, clock)
    requires clock <= now
    ensures Answered(pending, accepted, shutdowns, now)
    ensures Answered(Some(if pending.Some? then pending.value else now + DEFERRED_RESTART_DELAY_MS),
                     accepted + [now], shutdowns, now)
  {
  }

  /** No restart loop: at most `max` accepted requests in any minute. */
  lemma NoRestartLoop(kept: seq<Time>, accepted: seq<Time>, clock: Time, max: nat, lo: Time)
    requires Faithful(kept, accepted, clock, RESTART_LOOP_WINDOW_MS, max)
    ensures CountIn(accepted, lo, lo + 60_000) <= max
  {
    IntervalBound(accepted, RESTART_LOOP_WINDOW_MS, max, lo);
  }

  class Guard {
    const max: nat
    var restartTimestamps: seq<Time>
    var pendingRestart: Option<Time>
    ghost var clock: Time
    ghost var accepted: seq<Time>
    ghost var shutdowns: seq<Time>

    ghost predicate Valid()
      reads this
    {
      && Faithful(restartTimestamps, accepted, clock, RESTART_LOOP_WINDOW_MS, max)
      && Answered(pendingRestart, accepted, shutdowns, clock)
    }

    constructor (max: nat, ghost start: Time)
      ensures Valid() && this.max == max && clock == start && accepted == [] && pendingRestart == None
    {
      this.max := max;
      restartTimestamps, pendingRestart := [], None;
      clock, accepted, shutdowns := start, [], [];
    }

    /** A restart request. An accepted one leaves a shutdown due no more than the delay
        away; one that is already pending, even overdue, is not postponed. */
    method Request(now: Time) returns (status: int, retryAfter: Option<int>)
      requires Valid() && now >= clock
      modifies this
      ensures Valid() && clock == now && shutdowns == old(shutdowns)
      ensures status == if Admitted(old(accepted), now, RESTART_LOOP_WINDOW_MS, max) then 202 else 429
      ensures accepted == if status == 202 then old(accepted) + [now] else old(accepted)
      ensures old(pendingRestart).Some? ==> pendingRestart == old(pendingRestart)
      ensures old(pendingRestart).None? ==>
                pendingRestart == if status == 202 then Some(now + 2000) else None
      ensures var live := Live(old(accepted), now, RESTART_LOOP_WINDOW_MS);
              retryAfter == if status == 202 || live == [] then None
                            else Some(RetryAfter(live[0], now, RESTART_LOOP_WINDOW_MS))
    {
      RequestKeepsFaithful(restartTimestamps, accepted, clock, now, RESTART_LOOP_WINDOW_MS, max);
      RequestAnswered(pendingRestart, accepted, shutdowns, clock, now);
      clock := now;
      restartTimestamps := Live(restartTimestamps, now, RESTART_LOOP_WINDOW_MS);
      if |restartTimestamps| >= max {
        retryAfter := if restartTimestamps == [] then None
                      else Some(RetryAfter(restartTimestamps[0], now, RESTART_LOOP_WINDOW_MS));
        return 429, retryAfter;
      }
      restartTimestamps := restartTimestamps + [now];
      accepted := accepted + [now];
      if pendingRestart.None? {
        pendingRestart := Some(now + DEFERRED_RESTART_DELAY_MS);
      }
      return 202, None;
    }

    /** The pending timer fires when it is due or at any later time. */
    method TimerFires(now: Time)
      requires Valid() && now >= clock && pendingRestart.Some? && now >= pendingRestart.value
      modifies this
      ensures Valid() && clock == now && pendingRestart == None && accepted == old(accepted)
      ensures shutdowns == old(shutdowns) + [now]
    {
      RequestKeepsFaithful(restartTimestamps, accepted, clock, now, RESTART_LOOP_WINDOW_MS, max);
      clock := now;
      pendingRestart := None;
      shutdowns := shutdowns + [now];
    }
  }
}

/** daemon/src/core/access-control.ts: one window per sender, limited by its tier. */
module AccessControl {
  import opened Wrappers
  import opened SlidingWindow

  const WINDOW_MS: int := 60_000

  datatype RateLimitResult = RateLimitResult(allowed: bool, remaining: int, resetMs: int)

  function Max(a: int, b: int): int {
    if a > b then a else b
  }

  function Log(requestLog: map<string, seq<Time>>, sender: string): seq<Time> {
    if sender in requestLog then requestLog[sender] else []
  }

  /** A bound `ceiling` on the limits of all tiers a sender was ever classified in. */
  ghost predicate SendersFaithful(requestLog: map<string, seq<Time>>, accepted: map<string, seq<Time>>,
                                  clock: Time, ceiling: int)
  {
    && requestLog.Keys <= accepted.Keys
    && forall sender :: sender in accepted ==>
         Faithful(Log(requestLog, sender), accepted[sender], clock, WINDOW_MS, ceiling)
  }

  /** However a sender's tier changes: never more than the largest limit applied to it
      in any minute. */
  lemma SenderBound(requestLog: map<string, seq<Time>>, accepted: map<string, seq<Time>>, clock: Time,
                    ceiling: nat, sender: string, lo: Time)
    requires SendersFaithful(requestLog, accepted, clock, ceiling) && sender in accepted
    ensures CountIn(accepted[sender], lo, lo + 60_000) <= ceiling
  {
    IntervalBound(accepted[sender], WINDOW_MS, ceiling, lo);
  }

  lemma TimePasses(requestLog: map<string, seq<Time>>, accepted: map<string, seq<Time>>,
                   clock: Time, now: Time, ceiling: int)
    requires SendersFaithful(requestLog, accepted, clock, ceiling) && clock <= now
    ensures SendersFaithful(requestLog, accepted, now, ceiling)
  {
  }

  lemma SenderFaithful(requestLog: map<string, seq<Time>>, accepted: map<string, seq<Time>>,
                       clock: Time, ceiling: int, sender: string)
    requires SendersFaithful(requestLog, accepted, clock, ceiling)
    ensures Faithful(Log(requestLog, sender), Log(accepted, sender), clock, WINDOW_MS, ceiling)
  {
    assert sender !in accepted ==> sender !in requestLog;
  }

  lemma SenderUpdated(requestLog: map<string, seq<Time>>, accepted: map<string, seq<Time>>, clock: Time, ceiling: int,
                      sender: string, kept: seq<Time>, history: seq<Time>)
    requires SendersFaithful(requestLog, accepted, clock, ceiling)
    requires Faithful(kept, history, clock, WINDOW_MS, ceiling)
    ensures SendersFaithful(requestLog[sender := kept], accepted[sender := history], clock, ceiling)
  {
  }

  /** One request of one sender. */
  lemma RequestKeepsSenders(requestLog: map<string, seq<Time>>, accepted: map<string, seq<Time>>, clock: Time,
                            now: Time, ceiling: int, sender: string, limit: int)
    requires SendersFaithful(requestLog, accepted, clock, ceiling) && clock <= now && limit <= ceiling
    ensures SendersFaithful(requestLog, accepted, now, ceiling)
    ensures Live(Log(requestLog, sender), now, WINDOW_MS) == Live(Log(accepted, sender), now, WINDOW_MS)
    ensures Admitted(Log(accepted, sender), now, WINDOW_MS, limit) ==>
              SendersFaithful(requestLog[sender := Live(Log(requestLog, sender), now, WINDOW_MS) + [now]],
                              accepted[sender := Log(accepted, sender) + [now]], now, ceiling)
    ensures var live := Live(Log(requestLog, sender), now, WINDOW_MS);
            live != [] ==> now - live[0] < WINDOW_MS
  {
    var live := Live(Log(requestLog, sender), now, WINDOW_MS);
    SenderFaithful(requestLog, accepted, clock, ceiling, sender);
    RequestKeepsFaithful(Log(requestLog, sender), Log(accepted, sender), clock, now, WINDOW_MS, ceiling);
    TimePasses(requestLog, accepted, clock, now, ceiling);
    if Admitted(Log(accepted, sender), now, WINDOW_MS, limit) {
      SenderUpdated(requestLog, accepted, now, ceiling, sender, live + [now], Log(accepted, sender) + [now]);
    }
    if live != [] {
      assert live[0] in live;
    }
  }

  class Engine {
    ghost const ceiling: nat
    var requestLog: map<string, seq<Time>>
    ghost var clock: Time
    ghost var accepted: map<string, seq<Time>>

    ghost predicate Valid()
      reads this
    {
      SendersFaithful(requestLog, accepted, clock, ceiling)
    }

    constructor (ghost ceiling: nat, ghost start: Time)
      ensures Valid() && this.ceiling == ceiling && clock == start && accepted == map[]
    {
      this.ceiling := ceiling;
      requestLog, clock, accepted := map[], start, map[];
    }

    /** `limit` is the limit of the tier the sender is in now. A refusal does not store
        the pruned list. */
    method CheckRateLimit(sender: string, limit: int, now: Time) returns (r: RateLimitResult)
      requires Valid() && now >= clock && limit <= ceiling
      modifies this
      ensures Valid() && clock == now
      ensures var history := Log(old(accepted), sender);
              var live := Live(history, now, WINDOW_MS);
              && (r.allowed <==> |live| < limit)
              && accepted == (if r.allowed then old(accepted)[sender := history + [now]] else old(accepted))
              && r.remaining == (if r.allowed then limit - |live| - 1 else 0)
              && r.resetMs == (if live != [] then live[0] + WINDOW_MS - now else if r.allowed then WINDOW_MS else 0)
    {
      ghost var history := Log(accepted, sender);
      RequestKeepsSenders(requestLog, accepted, clock, now, ceiling, sender, limit);
      var timestamps := Live(Log(requestLog, sender), now, WINDOW_MS);
      var remaining := Max(0, limit - |timestamps|);
      var allowed := |timestamps| < limit;
      clock := now;
      if allowed {
        timestamps := timestamps + [now];
        requestLog := requestLog[sender := timestamps];
        accepted := accepted[sender := history + [now]];
      }
      var resetMs := if |timestamps| > 0 then Max(0, timestamps[0] + WINDOW_MS - now) else 0;
      return RateLimitResult(allowed, if allowed then remaining - 1 else 0, resetMs);
    }
  }
}
