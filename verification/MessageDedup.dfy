/** Deduplication of inter-agent messages (sendMessage in
    daemon/src/agents/message-router.ts, up to the insertion of the row). */
module MessageDedup {
  import opened Wrappers
  import opened JsStrings
  import InjectText

  const DEDUP_WINDOW_MS: int := 5000
  const PREFIX_LENGTH: nat := 200
  const COLON: CodeUnit := 0x3A

  type Time = int
  type Key = JsString

  datatype MessageType = Text | Task | Result | Error | Status | Coordination | PrReview

  /** `kind` is None when the type is not one of the valid ones. */
  datatype Request = Request(from: JsString, to: JsString, kind: Option<MessageType>, body: JsString)

  function Word(kind: MessageType): string {
    match kind
    case Text => "text"
    case Task => "task"
    case Result => "result"
    case Error => "error"
    case Status => "status"
    case Coordination => "coordination"
    case PrReview => "pr-review"
  }

  function TypeName(kind: MessageType): JsString {
    InjectText.Units(Word(kind))
  }

  function Prefix(body: JsString): JsString {
    if |body| > PREFIX_LENGTH then body[..PREFIX_LENGTH] else body
  }

  function DeduplicationKey(req: Request): Key
    requires req.kind.Some?
  {
    req.from + [COLON] + (req.to + [COLON] + (TypeName(req.kind.value) + [COLON] + Prefix(req.body)))
  }

  predicate IsHex(c: CodeUnit) {
    0x30 <= c <= 0x39 || 0x61 <= c <= 0x66
  }

  predicate IsWorkerAgent(agent: JsString) {
    || InjectText.Units("worker-") <= agent
    || (|agent| > 8 && agent[8] == 0x2D && forall i :: 0 <= i < 8 ==> IsHex(agent[i]))
  }

  /** A worker's name begins with "worker-", or with eight hexadecimal digits and a dash. */
  lemma WorkerAgentExactlyWhen(agent: JsString)
    ensures IsWorkerAgent(agent) <==>
              || InjectText.Units("worker-") <= agent
              || (|agent| >= 9 && agent[8] == InjectText.Unit('-') && forall i :: 0 <= i < 8 ==> HexDigit(agent[i]))
  {
  }

  predicate HexDigit(c: CodeUnit) {
    InjectText.Unit('0') <= c <= InjectText.Unit('9') || InjectText.Unit('a') <= c <= InjectText.Unit('f')
  }

  /** Only the first 200 units count. */
  lemma PrefixIs(body: JsString)
    ensures Prefix(body) == if |body| <= 200 then body else body[..200]
  {
  }

  datatype Recent = Recent(messageId: nat, timestamp: Time)
  datatype Row = Row(key: Key, at: Time)

  /** The cache, and the inserted rows with the time recorded for each; a row's id is
      its position. */
  datatype State = State(recent: map<Key, Recent>, rows: seq<Row>)

  datatype Response = Invalid | Restricted | Stored(messageId: nat) | Duplicate(messageId: nat)

  /** The three clock readings of one call: cleanup, cache check, recording. */
  datatype Clock = Clock(cleanup: Time, check: Time, record: Time)
  {
    predicate Monotone() { cleanup <= check <= record }
  }

  function Cleanup(recent: map<Key, Recent>, now: Time): map<Key, Recent> {
    map key | key in recent && now - recent[key].timestamp <= DEDUP_WINDOW_MS :: recent[key]
  }

  function SendMessage(s: State, req: Request, clock: Clock): (State, Response) {
    if req.kind.None? then (s, Invalid)
    else if IsWorkerAgent(req.from) && !req.kind.value.Result? && !req.kind.value.Error? then (s, Restricted)
    else
      var key := DeduplicationKey(req);
      var recent := Cleanup(s.recent, clock.cleanup);
      if key in recent && clock.check - recent[key].timestamp < DEDUP_WINDOW_MS then
        (s.(recent := recent), Duplicate(recent[key].messageId))
      else
        (State(recent[key := Recent(|s.rows|, clock.record)], s.rows + [Row(key, clock.record)]), Stored(|s.rows|))
  }

  /** The module's cache as it is written. */
  class Router {
    var recentMessages: map<Key, Recent>
    var rows: seq<Row>

    ghost function View(): State
      reads this
    {
      State(recentMessages, rows)
    }

    constructor ()
      ensures View() == State(map[], [])
    {
      recentMessages, rows := map[], [];
    }

    method CleanupStaleDedup(now: Time)
      modifies `recentMessages
      ensures recentMessages == Cleanup(old(recentMessages), now)
    {
      var keys := recentMessages.Keys;
      while keys != {}
        invariant keys <= old(recentMessages).Keys
        invariant recentMessages == map key | key in old(recentMessages) &&
                    (key in keys || now - old(recentMessages)[key].timestamp <= DEDUP_WINDOW_MS) ::
                      old(recentMessages)[key]
        decreases keys
      {
        var key :| key in keys;
        if now - recentMessages[key].timestamp > DEDUP_WINDOW_MS {
          recentMessages := recentMessages - {key};
        }
        keys := keys - {key};
      }
    }

    method Send(req: Request, clock: Clock) returns (response: Response)
      modifies this
      ensures (View(), response) == SendMessage(old(View()), req, clock)
    {
      if req.kind.None? {
        return Invalid;
      }
      if IsWorkerAgent(req.from) && !req.kind.value.Result? && !req.kind.value.Error? {
        return Restricted;
      }
      CleanupStaleDedup(clock.cleanup);
      var key := DeduplicationKey(req);
      if key in recentMessages && clock.check - recentMessages[key].timestamp < DEDUP_WINDOW_MS {
        return Duplicate(recentMessages[key].messageId);
      }
      var id := |rows|;
      rows := rows + [Row(key, clock.record)];
      recentMessages := recentMessages[key := Recent(id, clock.record)];
      return Stored(id);
    }
  }

  // ---- The cache refines the full log ----

  /** Row `i` is the last one with its key. */
  ghost predicate IsLatest(rows: seq<Row>, key: Key, i: nat) {
    i < |rows| && rows[i].key == key && forall j: nat :: i < j < |rows| ==> rows[j].key != key
  }

  ghost predicate KeyOk(s: State, now: Time, key: Key) {
    if key in s.recent then
      IsLatest(s.rows, key, s.recent[key].messageId) && s.rows[s.recent[key].messageId].at == s.recent[key].timestamp
    else
      forall i: nat :: i < |s.rows| && s.rows[i].key == key ==> now - s.rows[i].at > DEDUP_WINDOW_MS
  }

  ghost predicate RowsOk(rows: seq<Row>, now: Time) {
    && (forall i: nat :: i < |rows| ==> rows[i].at <= now)
    && (forall i: nat, j: nat :: i < j < |rows| && rows[i].key == rows[j].key ==>
          rows[j].at - rows[i].at >= DEDUP_WINDOW_MS)
  }

  ghost predicate Invariant(s: State, now: Time) {
    RowsOk(s.rows, now) && forall key :: KeyOk(s, now, key)
  }

  lemma CleanupKeeps(s: State, now: Time, later: Time)
    requires Invariant(s, now) && now <= later
    ensures Invariant(s.(recent := Cleanup(s.recent, later)), later)
  {
    var t := s.(recent := Cleanup(s.recent, later));
    forall key ensures KeyOk(t, later, key) {
      assert KeyOk(s, now, key);
      if key in s.recent && key !in t.recent {
        var m := s.recent[key].messageId;
        forall i: nat | i < |s.rows| && s.rows[i].key == key ensures later - s.rows[i].at > DEDUP_WINDOW_MS {
          assert i < m ==> s.rows[m].at - s.rows[i].at >= DEDUP_WINDOW_MS;
        }
      }
    }
  }

  /** The latest row with a key decides for all of them. */
  lemma CacheAnswersLikeTheLog(s: State, now: Time, key: Key, check: Time)
    requires Invariant(s, now) && now <= check
    ensures key in s.recent && check - s.recent[key].timestamp < DEDUP_WINDOW_MS <==>
              exists i: nat :: i < |s.rows| && s.rows[i].key == key && check - s.rows[i].at < DEDUP_WINDOW_MS
    ensures key in s.recent ==> IsLatest(s.rows, key, s.recent[key].messageId)
  {
    assert KeyOk(s, now, key);
    if key in s.recent {
      var m := s.recent[key].messageId;
      forall i: nat | i < |s.rows| && s.rows[i].key == key ensures s.rows[i].at <= s.rows[m].at {
        assert i < m ==> s.rows[m].at - s.rows[i].at >= DEDUP_WINDOW_MS;
      }
    }
  }

  lemma InsertKeeps(s: State, now: Time, key: Key, check: Time, record: Time)
    requires Invariant(s, now) && now <= check <= record
    requires forall i: nat :: i < |s.rows| && s.rows[i].key == key ==> check - s.rows[i].at >= DEDUP_WINDOW_MS
    ensures Invariant(State(s.recent[key := Recent(|s.rows|, record)], s.rows + [Row(key, record)]), record)
  {
    var t := State(s.recent[key := Recent(|s.rows|, record)], s.rows + [Row(key, record)]);
    forall other ensures KeyOk(t, record, other) {
      assert KeyOk(s, now, other);
    }
  }

  /** One call: an id is returned instead of a new row exactly when the full log holds
      a row with the key inserted less than five seconds ago, and then it is the id of
      the latest one. */
  lemma SendRefinesLog(s: State, now: Time, req: Request, clock: Clock)
    requires Invariant(s, now) && now <= clock.cleanup && clock.Monotone()
    ensures var (t, r) := SendMessage(s, req, clock);
            && Invariant(t, clock.record)
            && s.rows <= t.rows
            && (r.Invalid? <==> req.kind.None?)
            && (r.Restricted? <==> req.kind.Some? && IsWorkerAgent(req.from) && req.kind.value !in {Result, Error})
            && (req.kind.Some? && !r.Restricted? ==>
                  var key := DeduplicationKey(req);
                  && (r.Duplicate? <==>
                        exists i: nat :: i < |s.rows| && s.rows[i].key == key &&
                                         clock.check - s.rows[i].at < 5000)
                  && (r.Duplicate? ==> t.rows == s.rows && IsLatest(s.rows, key, r.messageId))
                  && (!r.Duplicate? ==> r == Stored(|s.rows|) && t.rows == s.rows + [Row(key, clock.record)]))
  {
    if req.kind.Some? && !(IsWorkerAgent(req.from) && !req.kind.value.Result? && !req.kind.value.Error?) {
      var key := DeduplicationKey(req);
      var s1 := s.(recent := Cleanup(s.recent, clock.cleanup));
      CleanupKeeps(s, now, clock.cleanup);
      CacheAnswersLikeTheLog(s1, clock.cleanup, key, clock.check);
      if key in s1.recent && clock.check - s1.recent[key].timestamp < DEDUP_WINDOW_MS {
        TimePasses(s1, clock.cleanup, clock.record);
      } else {
        InsertKeeps(s1, clock.cleanup, key, clock.check, clock.record);
      }
    } else {
      TimePasses(s, now, clock.record);
    }
  }

  lemma TimePasses(s: State, now: Time, later: Time)
    requires Invariant(s, now) && now <= later
    ensures Invariant(s, later)
  {
    forall key ensures KeyOk(s, later, key) {
      assert KeyOk(s, now, key);
    }
  }

  // ---- Runs ----

  datatype Call = Call(req: Request, clock: Clock)

  ghost predicate InOrder(calls: seq<Call>, now: Time) {
    calls == [] ||
    (now <= calls[0].clock.cleanup && calls[0].clock.Monotone() && InOrder(calls[1..], calls[0].clock.record))
  }

  function Final(s: State, calls: seq<Call>): State
    decreases |calls|
  {
    if calls == [] then s else Final(SendMessage(s, calls[0].req, calls[0].clock).0, calls[1..])
  }

  lemma {:induction false} RunKeeps(s: State, calls: seq<Call>, now: Time) returns (end: Time)
    requires Invariant(s, now) && InOrder(calls, now)
    ensures Invariant(Final(s, calls), end)
    decreases |calls|
  {
    if calls == [] {
      end := now;
    } else {
      SendRefinesLog(s, now, calls[0].req, calls[0].clock);
      end := RunKeeps(SendMessage(s, calls[0].req, calls[0].clock).0, calls[1..], calls[0].clock.record);
    }
  }

  /** On every run: two rows with one key are at least five seconds apart, whatever the
      cleanup removed in between. */
  lemma RowsAreSpaced(calls: seq<Call>, start: Time)
    requires InOrder(calls, start)
    ensures var rows := Final(State(map[], []), calls).rows;
            forall i: nat, j: nat :: i < j < |rows| && rows[i].key == rows[j].key ==>
              rows[j].at - rows[i].at >= 5000
  {
    var end := RunKeeps(State(map[], []), calls, start);
  }

  // ---- What a key identifies ----

  lemma {:induction false} SplitAtColon(a: JsString, x: JsString, b: JsString, y: JsString)
    requires COLON !in a && COLON !in b && a + [COLON] + x == b + [COLON] + y
    ensures a == b && x == y
  {
    var l, r := a + [COLON] + x, b + [COLON] + y;
    assert l[0] == if a == [] then COLON else a[0];
    assert r[0] == if b == [] then COLON else b[0];
    assert a != [] ==> a[0] in a;
    assert b != [] ==> b[0] in b;
    if a == [] {
      assert x == l[1..] == r[1..] == y;
    } else {
      assert l[1..] == a[1..] + [COLON] + x && r[1..] == b[1..] + [COLON] + y;
      SplitAtColon(a[1..], x, b[1..], y);
      assert a == [a[0]] + a[1..] && b == [b[0]] + b[1..];
    }
  }

  lemma {:induction false} UnitsHaveNoColon(s: string)
    requires ':' !in s
    ensures COLON !in InjectText.Units(s)
  {
    if s != [] {
      UnitsHaveNoColon(s[1..]);
      assert s[0] in s;
    }
  }

  lemma NamesHaveNoColon(kind: MessageType)
    ensures COLON !in TypeName(kind)
  {
    UnitsHaveNoColon(Word(kind));
  }

  lemma NamesDiffer(a: MessageType, b: MessageType)
    requires TypeName(a) == TypeName(b)
    ensures a == b
  {
    assert |Word(a)| == |TypeName(a)| == |TypeName(b)| == |Word(b)|;
    InjectText.UnitsAt(Word(a), 0);
    InjectText.UnitsAt(Word(b), 0);
    InjectText.UnitsAt(Word(a), 2);
    InjectText.UnitsAt(Word(b), 2);
  }

  /** Between agents whose names hold no colon, equal keys mean the same sender, target,
      type and first 200 units of the body. */
  lemma KeyIdentifies(a: Request, b: Request)
    requires a.kind.Some? && b.kind.Some?
    requires COLON !in a.from && COLON !in a.to && COLON !in b.from && COLON !in b.to
    ensures DeduplicationKey(a) == DeduplicationKey(b) <==>
              a.from == b.from && a.to == b.to && a.kind == b.kind && Prefix(a.body) == Prefix(b.body)
  {
    if DeduplicationKey(a) == DeduplicationKey(b) {
      var ka, kb := TypeName(a.kind.value), TypeName(b.kind.value);
      var ra, rb := ka + [COLON] + Prefix(a.body), kb + [COLON] + Prefix(b.body);
      SplitAtColon(a.from, a.to + [COLON] + ra, b.from, b.to + [COLON] + rb);
      SplitAtColon(a.to, ra, b.to, rb);
      NamesHaveNoColon(a.kind.value);
      NamesHaveNoColon(b.kind.value);
      SplitAtColon(ka, Prefix(a.body), kb, Prefix(b.body));
      NamesDiffer(a.kind.value, b.kind.value);
    }
  }

  lemma Reassociate(x: JsString, c: JsString, y: JsString, z: JsString, rest: JsString)
    ensures x + c + ((y + c + z) + c + rest) == (x + c + y) + c + (z + c + rest)
  {
    var l, r := x + c + ((y + c + z) + c + rest), (x + c + y) + c + (z + c + rest);
    assert l == x + c + y + c + z + c + rest;
    assert r == x + c + y + c + z + c + rest;
  }

  /** With a colon in a name, messages between different agents collide: "a" to "b:c"
      and "a:b" to "c", whatever the names, the type and the body. */
  lemma ColonsCollide(x: JsString, y: JsString, z: JsString, kind: MessageType, body: JsString)
    ensures var a := Request(x, y + [COLON] + z, Some(kind), body);
            var b := Request(x + [COLON] + y, z, Some(kind), body);
            a.from != b.from && a.to != b.to && DeduplicationKey(a) == DeduplicationKey(b)
  {
    assert |x + [COLON] + y| > |x| && |y + [COLON] + z| > |z|;
    Reassociate(x, [COLON], y, z, TypeName(kind) + [COLON] + Prefix(body));
  }
}
