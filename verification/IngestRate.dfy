/** The fixed-window ingest limiter of daemon/src/api/metrics.ts. */
module IngestRate {
  import opened Wrappers
  import opened SlidingWindow

  const INGEST_RATE_LIMIT: nat := 10
  const RATE_WINDOW_MS: int := 60_000

  datatype Entry = Entry(count: nat, windowStart: Time)

  /** The entry after a request; the request is limited if its count exceeds the limit. */
  function Bump(entry: Option<Entry>, now: Time): Entry {
    if entry.None? || now - entry.value.windowStart >= RATE_WINDOW_MS then Entry(1, now)
    else Entry(entry.value.count + 1, entry.value.windowStart)
  }

  predicate Limited(entry: Entry) {
    entry.count > INGEST_RATE_LIMIT
  }

  predicate Stale(entry: Entry, now: Time) {
    now - entry.windowStart >= RATE_WINDOW_MS * 2
  }

  function Find(m: map<string, Entry>, agent: string): Option<Entry> {
    if agent in m then Some(m[agent]) else None
  }

  function Prune(m: map<string, Entry>, now: Time): map<string, Entry> {
    map agent | agent in m && !Stale(m[agent], now) :: m[agent]
  }

  // ---- Pruning is invisible ----

  datatype Event = Request(agent: string, now: Time) | Sweep(now: Time)

  function After(m: map<string, Entry>, e: Event): map<string, Entry> {
    match e
    case Request(agent, now) => m[agent := Bump(Find(m, agent), now)]
    case Sweep(now) => Prune(m, now)
  }

  /** The answers to the requests of a run: true means limited. */
  function Answers(m: map<string, Entry>, events: seq<Event>): seq<bool>
    decreases |events|
  {
    if events == [] then []
    else
      var rest := Answers(After(m, events[0]), events[1..]);
      if events[0].Request? then [Limited(Bump(Find(m, events[0].agent), events[0].now))] + rest else rest
  }

  function Requests(events: seq<Event>): seq<Event> {
    if events == [] then []
    else (if events[0].Request? then [events[0]] else []) + Requests(events[1..])
  }

  ghost predicate InOrder(events: seq<Event>, clock: Time) {
    events == [] || (clock <= events[0].now && InOrder(events[1..], events[0].now))
  }

  /** `m` lacks only entries of `full` whose window ended. */
  ghost predicate Forgot(m: map<string, Entry>, full: map<string, Entry>, clock: Time) {
    forall agent ::
      && (agent in m ==> agent in full && m[agent] == full[agent])
      && (agent !in m && agent in full ==> clock - full[agent].windowStart >= RATE_WINDOW_MS)
  }

  lemma {:induction false} ForgettingIsInvisible(m: map<string, Entry>, full: map<string, Entry>,
                                                 events: seq<Event>, clock: Time)
    requires Forgot(m, full, clock) && InOrder(events, clock)
    ensures Answers(m, events) == Answers(full, Requests(events))
    decreases |events|
  {
    if events != [] {
      var e := events[0];
      var full' := if e.Request? then After(full, e) else full;
      ForgettingIsInvisible(After(m, e), full', events[1..], e.now);
      if e.Request? {
        assert Requests(events)[1..] == Requests(events[1..]);
      } else {
        assert Requests(events) == Requests(events[1..]);
      }
    }
  }

  /** Deleting entries two windows old never changes a later answer. */
  lemma PruningIsInvisible(events: seq<Event>, clock: Time)
    requires InOrder(events, clock)
    ensures Answers(map[], events) == Answers(map[], Requests(events))
  {
    ForgettingIsInvisible(map[], map[], events, clock);
  }

  // ---- The bound ----

  /** The admissions of one window, the first at its start. */
  ghost predicate WindowOk(w: seq<Time>) {
    && 1 <= |w| <= INGEST_RATE_LIMIT
    && forall i :: 0 <= i < |w| ==> w[0] <= w[i] < w[0] + RATE_WINDOW_MS
  }

  ghost predicate WindowsOk(ws: seq<seq<Time>>) {
    && (forall i :: 0 <= i < |ws| ==> WindowOk(ws[i]))
    && (forall i :: 0 < i < |ws| ==> ws[i][0] >= ws[i - 1][0] + RATE_WINDOW_MS)
  }

  function Total(ws: seq<seq<Time>>, lo: Time, hi: Time): nat {
    if ws == [] then 0 else Total(ws[..|ws| - 1], lo, hi) + CountIn(ws[|ws| - 1], lo, hi)
  }

  lemma {:induction false} CountBounds(w: seq<Time>, lo: Time, hi: Time)
    ensures CountIn(w, lo, hi) <= |w|
    ensures |w| > 0 && !(lo <= w[0] < hi) ==> CountIn(w, lo, hi) < |w|
    ensures (forall i :: 0 <= i < |w| ==> !(lo <= w[i] < hi)) ==> CountIn(w, lo, hi) == 0
  {
    if w != [] {
      CountBounds(w[..|w| - 1], lo, hi);
    }
  }

  lemma {:induction false} WindowsBefore(ws: seq<seq<Time>>, lo: Time, hi: Time)
    requires WindowsOk(ws) && ws != [] && ws[|ws| - 1][0] + RATE_WINDOW_MS <= lo
    ensures Total(ws, lo, hi) == 0
  {
    var n := |ws| - 1;
    assert WindowOk(ws[n]);
    CountBounds(ws[n], lo, hi);
    if n > 0 {
      WindowsBefore(ws[..n], lo, hi);
    }
  }

  lemma LastWindowReaches(ws: seq<seq<Time>>, lo: Time, hi: Time)
    requires WindowsOk(ws) && ws != [] && ws[|ws| - 1][0] <= lo
    ensures Total(ws, lo, hi) <= INGEST_RATE_LIMIT
    ensures ws[|ws| - 1][0] < lo ==> Total(ws, lo, hi) <= INGEST_RATE_LIMIT - 1
  {
    var n := |ws| - 1;
    assert WindowOk(ws[n]);
    CountBounds(ws[n], lo, hi);
    if n > 0 {
      WindowsBefore(ws[..n], lo, hi);
    }
  }

  /** Any half-open minute holds at most nineteen admissions. */
  lemma {:induction false} MinuteBound(ws: seq<seq<Time>>, lo: Time)
    requires WindowsOk(ws)
    ensures Total(ws, lo, lo + RATE_WINDOW_MS) <= 2 * INGEST_RATE_LIMIT - 1
  {
    if ws != [] {
      var n := |ws| - 1;
      var hi := lo + RATE_WINDOW_MS;
      assert WindowOk(ws[n]);
      CountBounds(ws[n], lo, hi);
      if ws[n][0] <= lo {
        LastWindowReaches(ws, lo, hi);
      } else if ws[n][0] >= hi {
        MinuteBound(ws[..n], lo);
      } else if n > 0 {
        LastWindowReaches(ws[..n], lo, hi);
      }
    }
  }

  ghost predicate NoneAfter(w: seq<Time>, clock: Time) {
    forall i :: 0 <= i < |w| ==> w[i] <= clock
  }

  /** What the history of one agent's windows has to do with its entry. */
  ghost predicate EntryOk(entry: Option<Entry>, ws: seq<seq<Time>>, clock: Time) {
    && WindowsOk(ws)
    && (entry.Some? ==>
          && ws != [] && ws[|ws| - 1][0] == entry.value.windowStart
          && entry.value.count >= 1
          && |ws[|ws| - 1]| == (if Limited(entry.value) then INGEST_RATE_LIMIT else entry.value.count)
          && NoneAfter(ws[|ws| - 1], clock))
    && (entry.None? && ws != [] ==> ws[|ws| - 1][0] + RATE_WINDOW_MS <= clock)
  }

  /** The windows after a request. */
  ghost function Record(entry: Option<Entry>, ws: seq<seq<Time>>, now: Time): seq<seq<Time>> {
    var e := Bump(entry, now);
    if entry.None? || now - entry.value.windowStart >= RATE_WINDOW_MS || ws == [] then ws + [[now]]
    else if Limited(e) then ws
    else ws[..|ws| - 1] + [ws[|ws| - 1] + [now]]
  }

  lemma RecordKeeps(entry: Option<Entry>, ws: seq<seq<Time>>, clock: Time, now: Time)
    requires EntryOk(entry, ws, clock) && clock <= now
    ensures EntryOk(Some(Bump(entry, now)), Record(entry, ws, now), now)
  {
    var t := Record(entry, ws, now);
    var n := |t| - 1;
    forall i | 0 <= i < |t| ensures WindowOk(t[i]) {
      if i < |ws| {
        assert WindowOk(ws[i]);
      }
    }
  }

  function WindowsIn(windows: map<string, seq<seq<Time>>>, agent: string): seq<seq<Time>> {
    if agent in windows then windows[agent] else []
  }

  ghost predicate EntriesOk(m: map<string, Entry>, windows: map<string, seq<seq<Time>>>, clock: Time) {
    forall agent :: EntryOk(Find(m, agent), WindowsIn(windows, agent), clock)
  }

  lemma RequestKeepsEntries(m: map<string, Entry>, windows: map<string, seq<seq<Time>>>, clock: Time,
                            agent: string, now: Time)
    requires EntriesOk(m, windows, clock) && clock <= now
    ensures EntriesOk(m[agent := Bump(Find(m, agent), now)],
                      windows[agent := Record(Find(m, agent), WindowsIn(windows, agent), now)], now)
  {
    RecordKeeps(Find(m, agent), WindowsIn(windows, agent), clock, now);
    var m', windows' := m[agent := Bump(Find(m, agent), now)],
                        windows[agent := Record(Find(m, agent), WindowsIn(windows, agent), now)];
    forall other ensures EntryOk(Find(m', other), WindowsIn(windows', other), now) {
      assert EntryOk(Find(m, other), WindowsIn(windows, other), clock);
    }
  }

  lemma PruneKeepsEntries(m: map<string, Entry>, windows: map<string, seq<seq<Time>>>, clock: Time, now: Time)
    requires EntriesOk(m, windows, clock) && clock <= now
    ensures EntriesOk(Prune(m, now), windows, now)
  {
    forall agent ensures EntryOk(Find(Prune(m, now), agent), WindowsIn(windows, agent), now) {
      assert EntryOk(Find(m, agent), WindowsIn(windows, agent), clock);
    }
  }

  /** daemon/src/api/metrics.ts, module state and all admissions so far. */
  class Limiter {
    var ingestRateMap: map<string, Entry>
    ghost var clock: Time
    ghost var windows: map<string, seq<seq<Time>>>

    ghost function WindowsOf(agent: string): seq<seq<Time>>
      reads this
    {
      WindowsIn(windows, agent)
    }

    ghost predicate Valid()
      reads this
    {
      EntriesOk(ingestRateMap, windows, clock)
    }

    constructor (ghost start: Time)
      ensures Valid() && clock == start && windows == map[]
    {
      ingestRateMap, clock, windows := map[], start, map[];
    }

    method IsRateLimited(agent: string, now: Time) returns (limited: bool)
      requires Valid() && now >= clock
      modifies this
      ensures Valid() && clock == now
      ensures limited <==> Limited(Bump(Find(old(ingestRateMap), agent), now))
      ensures ingestRateMap == After(old(ingestRateMap), Request(agent, now))
      ensures windows == old(windows)[agent := Record(Find(old(ingestRateMap), agent), old(WindowsOf(agent)), now)]
    {
      RequestKeepsEntries(ingestRateMap, windows, clock, agent, now);
      windows := windows[agent := Record(Find(ingestRateMap, agent), WindowsOf(agent), now)];
      if agent !in ingestRateMap || now - ingestRateMap[agent].windowStart >= RATE_WINDOW_MS {
        ingestRateMap := ingestRateMap[agent := Entry(1, now)];
        limited := false;
      } else {
        var entry := ingestRateMap[agent];
        ingestRateMap := ingestRateMap[agent := entry.(count := entry.count + 1)];
        limited := ingestRateMap[agent].count > INGEST_RATE_LIMIT;
      }
      clock := now;
    }

    method PruneStaleRateLimitEntries(now: Time)
      requires Valid() && now >= clock
      modifies this
      ensures Valid() && clock == now && windows == old(windows)
      ensures ingestRateMap == Prune(old(ingestRateMap), now)
    {
      var keys := ingestRateMap.Keys;
      while keys != {}
        invariant keys <= old(ingestRateMap).Keys
        invariant unchanged(`clock) && unchanged(`windows)
        invariant ingestRateMap == map agent | agent in old(ingestRateMap) &&
                    (agent in keys || !Stale(old(ingestRateMap)[agent], now)) :: old(ingestRateMap)[agent]
        decreases keys
      {
        var key :| key in keys;
        if Stale(ingestRateMap[key], now) {
          ingestRateMap := ingestRateMap - {key};
        }
        keys := keys - {key};
      }
      PruneKeepsEntries(old(ingestRateMap), windows, clock, now);
      clock := now;
    }
  }

  // ---- The bound is attained ----

  /** The admitted ones among the requests of one agent. */
  function Admissions(entry: Option<Entry>, times: seq<Time>): seq<Time>
    decreases |times|
  {
    if times == [] then []
    else
      var e := Bump(entry, times[0]);
      (if Limited(e) then [] else [times[0]]) + Admissions(Some(e), times[1..])
  }

  ghost predicate Ascending(times: seq<Time>, clock: Time) {
    times == [] || (clock <= times[0] && Ascending(times[1..], times[0]))
  }

  lemma {:induction false} CountCons(t: Time, ts: seq<Time>, lo: Time, hi: Time)
    ensures CountIn([t] + ts, lo, hi) == (if lo <= t < hi then 1 else 0) + CountIn(ts, lo, hi)
  {
    if ts == [] {
      assert [t] + ts == [t];
    } else {
      var n := |ts| - 1;
      CountCons(t, ts[..n], lo, hi);
      assert ([t] + ts)[..n + 1] == [t] + ts[..n];
    }
  }

  lemma RecordTotal(entry: Option<Entry>, ws: seq<seq<Time>>, now: Time, lo: Time, hi: Time)
    requires entry.Some? ==> ws != []
    ensures Total(Record(entry, ws, now), lo, hi)
         == Total(ws, lo, hi) + if !Limited(Bump(entry, now)) && lo <= now < hi then 1 else 0
  {
    var t := Record(entry, ws, now);
    if |t| > |ws| {
      assert t[..|t| - 1] == ws;
      CountCons(now, [], lo, hi);
      assert [now] + [] == [now];
    } else if t != ws {
      var n := |ws| - 1;
      assert t[..n] == ws[..n];
      assert (ws[n] + [now])[..|ws[n]|] == ws[n];
    }
  }

  lemma AdmissionsStep(entry: Option<Entry>, times: seq<Time>, lo: Time, hi: Time)
    requires times != []
    ensures CountIn(Admissions(entry, times), lo, hi) ==
              (if !Limited(Bump(entry, times[0])) && lo <= times[0] < hi then 1 else 0) +
              CountIn(Admissions(Some(Bump(entry, times[0])), times[1..]), lo, hi)
  {
    var e := Bump(entry, times[0]);
    var rest := Admissions(Some(e), times[1..]);
    CountCons(times[0], rest, lo, hi);
    assert [] + rest == rest;
  }

  /** The windows of one agent after a run of requests. */
  ghost function RecordAll(entry: Option<Entry>, ws: seq<seq<Time>>, times: seq<Time>): seq<seq<Time>>
    decreases |times|
  {
    if times == [] then ws else RecordAll(Some(Bump(entry, times[0])), Record(entry, ws, times[0]), times[1..])
  }

  lemma {:induction false} RecordAllKeeps(entry: Option<Entry>, ws: seq<seq<Time>>, times: seq<Time>, clock: Time)
    requires EntryOk(entry, ws, clock) && Ascending(times, clock)
    ensures WindowsOk(RecordAll(entry, ws, times))
    decreases |times|
  {
    if times != [] {
      RecordKeeps(entry, ws, clock, times[0]);
      RecordAllKeeps(Some(Bump(entry, times[0])), Record(entry, ws, times[0]), times[1..], times[0]);
    }
  }

  lemma {:induction false} RecordAllTotal(entry: Option<Entry>, ws: seq<seq<Time>>, times: seq<Time>,
                                          lo: Time, hi: Time)
    requires entry.Some? ==> ws != []
    ensures Total(RecordAll(entry, ws, times), lo, hi) == Total(ws, lo, hi) + CountIn(Admissions(entry, times), lo, hi)
    decreases |times|
  {
    if times != [] {
      RecordTotal(entry, ws, times[0], lo, hi);
      RecordAllTotal(Some(Bump(entry, times[0])), Record(entry, ws, times[0]), times[1..], lo, hi);
      AdmissionsStep(entry, times, lo, hi);
    }
  }

  lemma NineteenAdmissions(times: seq<Time>, clock: Time, lo: Time)
    requires Ascending(times, clock)
    ensures CountIn(Admissions(None, times), lo, lo + RATE_WINDOW_MS) <= 2 * INGEST_RATE_LIMIT - 1
  {
    RecordAllKeeps(None, [], times, clock);
    RecordAllTotal(None, [], times, lo, lo + RATE_WINDOW_MS);
    MinuteBound(RecordAll(None, [], times), lo);
  }

  /** The times at which an agent asks, and at which it is admitted, in a run with other
      agents and sweeps. */
  function TimesOf(events: seq<Event>, agent: string): seq<Time> {
    if events == [] then []
    else (if events[0].Request? && events[0].agent == agent then [events[0].now] else []) + TimesOf(events[1..], agent)
  }

  function AdmittedTo(m: map<string, Entry>, events: seq<Event>, agent: string): seq<Time>
    decreases |events|
  {
    if events == [] then []
    else
      var e := events[0];
      (if e.Request? && e.agent == agent && !Limited(Bump(Find(m, agent), e.now)) then [e.now] else [])
      + AdmittedTo(After(m, e), events[1..], agent)
  }

  /** The entry of an agent, or nothing if its window ended and it was swept. */
  ghost predicate Stands(found: Option<Entry>, entry: Option<Entry>, clock: Time) {
    if found.Some? then entry == found
    else entry.None? || clock - entry.value.windowStart >= RATE_WINDOW_MS
  }

  lemma AfterStands(m: map<string, Entry>, entry: Option<Entry>, e: Event, agent: string, clock: Time)
    requires Stands(Find(m, agent), entry, clock) && clock <= e.now
    ensures var next := if e.Request? && e.agent == agent then Some(Bump(entry, e.now)) else entry;
            Stands(Find(After(m, e), agent), next, e.now)
    ensures Bump(Find(m, agent), e.now) == Bump(entry, e.now)
  {
  }

  /** Only its own requests decide about an agent. */
  lemma {:induction false} AdmittedAreAdmissions(m: map<string, Entry>, entry: Option<Entry>, events: seq<Event>,
                                                 agent: string, clock: Time)
    requires Stands(Find(m, agent), entry, clock) && InOrder(events, clock)
    ensures AdmittedTo(m, events, agent) == Admissions(entry, TimesOf(events, agent))
    ensures Ascending(TimesOf(events, agent), clock)
    decreases |events|
  {
    if events != [] {
      var e := events[0];
      var own := e.Request? && e.agent == agent;
      AfterStands(m, entry, e, agent, clock);
      AdmittedAreAdmissions(After(m, e), if own then Some(Bump(entry, e.now)) else entry, events[1..], agent, e.now);
      if own {
        assert TimesOf(events, agent)[1..] == TimesOf(events[1..], agent);
      } else {
        assert TimesOf(events, agent) == TimesOf(events[1..], agent);
      }
    }
  }

  /** On every run, with other agents and with sweeps in between: any half-open minute
      admits an agent at most nineteen times. */
  lemma NineteenPerMinute(events: seq<Event>, clock: Time, agent: string, lo: Time)
    requires InOrder(events, clock)
    ensures CountIn(AdmittedTo(map[], events, agent), lo, lo + 60_000) <= 19
  {
    AdmittedAreAdmissions(map[], None, events, agent, clock);
    NineteenAdmissions(TimesOf(events, agent), clock, lo);
  }

  function Repeat(t: Time, n: nat): seq<Time> {
    if n == 0 then [] else [t] + Repeat(t, n - 1)
  }

  lemma RequestAdmitted(entry: Entry, t: Time, rest: seq<Time>)
    requires t - entry.windowStart < RATE_WINDOW_MS && entry.count < INGEST_RATE_LIMIT
    ensures Admissions(Some(entry), [t] + rest)
         == [t] + Admissions(Some(Entry(entry.count + 1, entry.windowStart)), rest)
  {
    assert ([t] + rest)[1..] == rest;
  }

  lemma {:induction false} RepeatAdmitted(entry: Entry, t: Time, n: nat, rest: seq<Time>)
    requires t - entry.windowStart < RATE_WINDOW_MS && entry.count + n <= INGEST_RATE_LIMIT
    ensures Admissions(Some(entry), Repeat(t, n) + rest)
         == Repeat(t, n) + Admissions(Some(Entry(entry.count + n, entry.windowStart)), rest)
    decreases n
  {
    if n == 0 {
      assert [] + rest == rest;
    } else {
      var next := Entry(entry.count + 1, entry.windowStart);
      assert Repeat(t, n) + rest == [t] + (Repeat(t, n - 1) + rest);
      RequestAdmitted(entry, t, Repeat(t, n - 1) + rest);
      RepeatAdmitted(next, t, n - 1, rest);
    }
  }

  lemma CountSnoc(a: seq<Time>, t: Time, lo: Time, hi: Time)
    ensures CountIn(a + [t], lo, hi) == CountIn(a, lo, hi) + if lo <= t < hi then 1 else 0
  {
    assert (a + [t])[..|a|] == a;
  }

  lemma {:induction false} CountAppend(a: seq<Time>, b: seq<Time>, lo: Time, hi: Time)
    ensures CountIn(a + b, lo, hi) == CountIn(a, lo, hi) + CountIn(b, lo, hi)
    decreases |b|
  {
    if b == [] {
      assert a + b == a;
    } else {
      var front, last := b[..|b| - 1], b[|b| - 1];
      assert a + b == (a + front) + [last];
      CountAppend(a, front, lo, hi);
      CountSnoc(a + front, last, lo, hi);
    }
  }

  lemma {:induction false} CountOfRepeat(t: Time, n: nat, lo: Time, hi: Time)
    ensures CountIn(Repeat(t, n), lo, hi) == if lo <= t < hi then n else 0
  {
    if n > 0 {
      CountOfRepeat(t, n - 1, lo, hi);
      CountCons(t, Repeat(t, n - 1), lo, hi);
    }
  }

  lemma CountRepeat(a: seq<Time>, t: Time, n: nat, lo: Time, hi: Time)
    ensures CountIn(a + Repeat(t, n), lo, hi) == CountIn(a, lo, hi) + if lo <= t < hi then n else 0
  {
    CountAppend(a, Repeat(t, n), lo, hi);
    CountOfRepeat(t, n, lo, hi);
  }

  lemma WindowOpens(entry: Option<Entry>, start: Time, rest: seq<Time>)
    requires entry.None? || start - entry.value.windowStart >= RATE_WINDOW_MS
    ensures Admissions(entry, [start] + rest) == [start] + Admissions(Some(Entry(1, start)), rest)
  {
    assert ([start] + rest)[1..] == rest;
  }

  lemma WindowAdmitted(entry: Option<Entry>, start: Time, t: Time, n: nat, rest: seq<Time>)
    requires entry.None? || start - entry.value.windowStart >= RATE_WINDOW_MS
    requires t - start < RATE_WINDOW_MS && 1 + n <= INGEST_RATE_LIMIT
    ensures Admissions(entry, [start] + Repeat(t, n) + rest)
         == [start] + Repeat(t, n) + Admissions(Some(Entry(1 + n, start)), rest)
  {
    assert [start] + Repeat(t, n) + rest == [start] + (Repeat(t, n) + rest);
    WindowOpens(entry, start, Repeat(t, n) + rest);
    RepeatAdmitted(Entry(1, start), t, n, rest);
  }

  lemma TwoWindowsAdmitted(s1: Time, t1: Time, n1: nat, s2: Time, n2: nat)
    requires t1 - s1 < RATE_WINDOW_MS <= s2 - s1 && 1 + n1 <= INGEST_RATE_LIMIT && 1 + n2 <= INGEST_RATE_LIMIT
    ensures var times := [s1] + Repeat(t1, n1) + Repeat(s2, 1 + n2); Admissions(None, times) == times
  {
    var next := Repeat(s2, 1 + n2);
    WindowAdmitted(None, s1, t1, n1, next);
    assert next == [s2] + Repeat(s2, n2) + [];
    WindowAdmitted(Some(Entry(1 + n1, s1)), s2, s2, n2, []);
    assert Admissions(Some(Entry(1 + n2, s2)), []) == [];
  }

  /** One request, nine more just before its window ends, ten in the next window:
      nineteen admissions within one minute. */
  lemma NineteenInAMinute()
    ensures var times := [0] + Repeat(59_999, 9) + Repeat(60_000, 10);
            && Admissions(None, times) == times
            && CountIn(times, 59_999, 59_999 + 60_000) == 19
  {
    TwoWindowsAdmitted(0, 59_999, 9, 60_000, 9);
    CountRepeat([0], 59_999, 9, 59_999, 119_999);
    CountRepeat([0] + Repeat(59_999, 9), 60_000, 10, 59_999, 119_999);
  }
}
