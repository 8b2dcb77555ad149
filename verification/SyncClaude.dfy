/** The settings merge of daemon/src/api/sync-claude.ts. */
module SyncClaude {
  import opened Wrappers
  import opened Sequences
  import opened DeepMerge

  type Hooks = map<string, seq<Value>>

  /** A settings file: its hooks, if it has any, and its other keys. */
  datatype Settings = Settings(top: map<string, Value>, hooks: Option<Hooks>)

  function HooksOf(s: Settings): Hooks {
    if s.hooks.Some? then s.hooks.value else map[]
  }

  function Entries(hooks: Hooks, event: string): seq<Value> {
    if event in hooks then hooks[event] else []
  }

  function CommandOf(hook: Value): set<string> {
    if hook.Object? && Get(hook.fields, "command").Text? then {Get(hook.fields, "command").s} else {}
  }

  function CommandsOf(hooks: seq<Value>): set<string> {
    if hooks == [] then {} else CommandsOf(hooks[..|hooks| - 1]) + CommandOf(hooks[|hooks| - 1])
  }

  /** The commands in the inner hooks array of an entry. */
  function HooksCommands(entry: Value): set<string> {
    if entry.Object? && Get(entry.fields, "hooks").Array? then CommandsOf(Get(entry.fields, "hooks").items) else {}
  }

  ghost predicate CommandAt(items: seq<Value>, i: nat, c: string) {
    && i < |items| && items[i].Object? && "command" in items[i].fields
    && items[i].fields["command"] == Text(c)
  }

  lemma {:induction false} CommandsExactly(items: seq<Value>, c: string)
    ensures c in CommandsOf(items) <==> exists i: nat :: CommandAt(items, i, c)
  {
    if items != [] {
      var n := |items| - 1;
      CommandsExactly(items[..n], c);
      assert forall i: nat :: i < n ==> (CommandAt(items[..n], i, c) <==> CommandAt(items, i, c));
      assert c in CommandOf(items[n]) <==> CommandAt(items, n, c);
      if i: nat :| CommandAt(items[..n], i, c) {
        assert CommandAt(items, i, c);
      }
      if i: nat :| CommandAt(items, i, c) {
        assert i < n ==> CommandAt(items[..n], i, c);
      }
    }
  }

  /** The commands of an entry are the texts at "command" in the objects of its "hooks"
      array, and there are none without such an array. */
  lemma HooksCommandsExactly(entry: Value, c: string)
    ensures c in HooksCommands(entry) <==>
              && entry.Object? && "hooks" in entry.fields && entry.fields["hooks"].Array?
              && exists i: nat :: CommandAt(entry.fields["hooks"].items, i, c)
  {
    if entry.Object? && Get(entry.fields, "hooks").Array? {
      CommandsExactly(Get(entry.fields, "hooks").items, c);
    }
  }

  function AllCommands(entries: seq<Value>): set<string> {
    if entries == [] then {} else AllCommands(entries[..|entries| - 1]) + HooksCommands(entries[|entries| - 1])
  }

  /** The entries none of whose commands are taken. */
  function Extra(entries: seq<Value>, taken: set<string>): seq<Value> {
    if entries == [] then []
    else
      var n := |entries| - 1;
      Extra(entries[..n], taken) + if HooksCommands(entries[n]) !! taken then [entries[n]] else []
  }

  /** What is kept are the entries that share no command, in their order. */
  lemma {:induction false} ExtraIsFilter(entries: seq<Value>, taken: set<string>)
    ensures Subsequence(Extra(entries, taken), entries)
  {
    if entries != [] {
      var n := |entries| - 1;
      var kept := Extra(entries[..n], taken);
      ExtraIsFilter(entries[..n], taken);
      SubsequenceSnoc(kept, entries[..n], entries[n]);
      assert entries == entries[..n] + [entries[n]];
      assert kept + [] == kept;
    }
  }

  function Count(entries: seq<Value>, e: Value): nat {
    if entries == [] then 0
    else Count(entries[..|entries| - 1], e) + if entries[|entries| - 1] == e then 1 else 0
  }

  /** Each of them as often as it was there. */
  lemma {:induction false} ExtraCounts(entries: seq<Value>, taken: set<string>, e: Value)
    ensures Count(Extra(entries, taken), e) == if HooksCommands(e) !! taken then Count(entries, e) else 0
  {
    if entries != [] {
      var n := |entries| - 1;
      var kept := Extra(entries[..n], taken);
      ExtraCounts(entries[..n], taken, e);
      assert (kept + [entries[n]])[..|kept|] == kept;
      assert kept + [] == kept;
    }
  }

  function MergeEntries(src: seq<Value>, dst: seq<Value>): seq<Value> {
    src + Extra(dst, AllCommands(src))
  }

  function MergeHooks(src: Hooks, dst: Hooks): Hooks {
    map event | event in src.Keys + dst.Keys :: MergeEntries(Entries(src, event), Entries(dst, event))
  }

  function MergeSettings(src: Settings, dst: Settings): Settings {
    Settings(dst.top + src.top, Some(MergeHooks(HooksOf(src), HooksOf(dst))))
  }

  // ---- As it is written, with loops ----

  method CollectCommands(entry: Value) returns (cmds: set<string>)
    ensures cmds == HooksCommands(entry)
  {
    cmds := {};
    if entry.Object? && Get(entry.fields, "hooks").Array? {
      var inner := Get(entry.fields, "hooks").items;
      for i := 0 to |inner|
        invariant cmds == CommandsOf(inner[..i])
      {
        assert inner[..i + 1][..i] == inner[..i];
        var h := inner[i];
        if h.Object? && Get(h.fields, "command").Text? {
          cmds := cmds + {Get(h.fields, "command").s};
        }
      }
      assert inner[..|inner|] == inner;
    }
  }

  method MergeEvent(srcEntries: seq<Value>, dstEntries: seq<Value>) returns (merged: seq<Value>)
    ensures merged == MergeEntries(srcEntries, dstEntries)
  {
    var srcCommands: set<string> := {};
    for i := 0 to |srcEntries|
      invariant srcCommands == AllCommands(srcEntries[..i])
    {
      assert srcEntries[..i + 1][..i] == srcEntries[..i];
      var cmds := CollectCommands(srcEntries[i]);
      srcCommands := srcCommands + cmds;
    }
    assert srcEntries[..|srcEntries|] == srcEntries;
    var extra: seq<Value> := [];
    for i := 0 to |dstEntries|
      invariant extra == Extra(dstEntries[..i], srcCommands)
    {
      assert dstEntries[..i + 1][..i] == dstEntries[..i];
      var cmds := CollectCommands(dstEntries[i]);
      var hasOverlap := exists c :: c in cmds && c in srcCommands;
      if !hasOverlap {
        extra := extra + [dstEntries[i]];
      }
    }
    assert dstEntries[..|dstEntries|] == dstEntries;
    merged := srcEntries + extra;
  }

  method Merge(src: Settings, dst: Settings) returns (merged: Settings)
    ensures merged == MergeSettings(src, dst)
  {
    var s, d := HooksOf(src), HooksOf(dst);
    var mergedHooks: Hooks := map[];
    var events := s.Keys + d.Keys;
    while events != {}
      invariant events <= s.Keys + d.Keys
      invariant mergedHooks == map event | event in s.Keys + d.Keys && event !in events ::
                                 MergeEntries(Entries(s, event), Entries(d, event))
      decreases events
    {
      var event :| event in events;
      var entries := MergeEvent(Entries(s, event), Entries(d, event));
      mergedHooks := mergedHooks[event := entries];
      events := events - {event};
    }
    assert mergedHooks == HooksOf(MergeSettings(src, dst));
    merged := Settings(dst.top + src.top, Some(mergedHooks));
  }

  // ---- Repeated syncs ----

  function Commandless(entries: seq<Value>): seq<Value> {
    if entries == [] then []
    else
      var n := |entries| - 1;
      Commandless(entries[..n]) + if HooksCommands(entries[n]) == {} then [entries[n]] else []
  }

  lemma {:induction false} ExtraAppend(a: seq<Value>, b: seq<Value>, taken: set<string>)
    ensures Extra(a + b, taken) == Extra(a, taken) + Extra(b, taken)
    decreases |b|
  {
    if b == [] {
      assert a + b == a;
    } else {
      assert (a + b)[..|a + b| - 1] == a + b[..|b| - 1];
      ExtraAppend(a, b[..|b| - 1], taken);
    }
  }

  lemma {:induction false} ExtraTwice(entries: seq<Value>, taken: set<string>)
    ensures Extra(Extra(entries, taken), taken) == Extra(entries, taken)
  {
    if entries != [] {
      var n := |entries| - 1;
      ExtraTwice(entries[..n], taken);
      var front := Extra(entries[..n], taken);
      if HooksCommands(entries[n]) !! taken {
        assert (front + [entries[n]])[..|front|] == front;
      } else {
        assert front + [] == front;
      }
    }
  }

  /** Of its own entries a source drops all but those without a command. */
  lemma {:induction false} ExtraOfOwn(entries: seq<Value>, taken: set<string>)
    requires AllCommands(entries) <= taken
    ensures Extra(entries, taken) == Commandless(entries)
  {
    if entries != [] {
      ExtraOfOwn(entries[..|entries| - 1], taken);
      assert HooksCommands(entries[|entries| - 1]) <= taken;
    }
  }

  /** A second sync inserts every source entry without a command once more. */
  lemma MergeEntriesTwice(src: seq<Value>, dst: seq<Value>)
    ensures MergeEntries(src, MergeEntries(src, dst)) == src + (Commandless(src) + Extra(dst, AllCommands(src)))
  {
    var taken := AllCommands(src);
    ExtraAppend(src, Extra(dst, taken), taken);
    ExtraOfOwn(src, taken);
    ExtraTwice(dst, taken);
  }

  ghost predicate EveryEntryHasACommand(s: Settings) {
    forall event :: event in HooksOf(s) ==> AllCarryCommands(HooksOf(s)[event])
  }

  ghost predicate AllCarryCommands(entries: seq<Value>) {
    forall i :: 0 <= i < |entries| ==> HooksCommands(entries[i]) != {}
  }

  lemma {:induction false} CommandlessMeaning(entries: seq<Value>)
    ensures Commandless(entries) == [] <==> AllCarryCommands(entries)
  {
    if entries != [] {
      CommandlessMeaning(entries[..|entries| - 1]);
    }
  }

  lemma MergedEvent(src: Hooks, dst: Hooks, event: string)
    ensures Entries(MergeHooks(src, dst), event) == MergeEntries(Entries(src, event), Entries(dst, event))
  {
  }

  lemma EventAbsorbs(src: seq<Value>, dst: seq<Value>)
    ensures MergeEntries(src, MergeEntries(src, dst)) == MergeEntries(src, dst) <==> Commandless(src) == []
  {
    MergeEntriesTwice(src, dst);
    var c, extra := Commandless(src), Extra(dst, AllCommands(src));
    assert c == [] ==> c + extra == extra;
    assert |src + (c + extra)| == |src + extra| + |c|;
  }

  lemma HooksAbsorb(src: Hooks, dst: Hooks)
    ensures MergeHooks(src, MergeHooks(src, dst)) == MergeHooks(src, dst)
            <==> forall event :: event in src ==> Commandless(src[event]) == []
  {
    var once := MergeHooks(src, dst);
    var twice := MergeHooks(src, once);
    forall event ensures Entries(twice, event) == Entries(once, event) <==> Commandless(Entries(src, event)) == [] {
      MergedEvent(src, dst, event);
      MergedEvent(src, once, event);
      EventAbsorbs(Entries(src, event), Entries(dst, event));
    }
    SameHooks(once, twice);
    assert forall event :: event in src ==> Entries(src, event) == src[event];
  }

  lemma SameHooks(a: Hooks, b: Hooks)
    requires a.Keys == b.Keys
    ensures a == b <==> forall event :: Entries(a, event) == Entries(b, event)
  {
    if forall event :: Entries(a, event) == Entries(b, event) {
      forall event | event in a ensures a[event] == b[event] {
        assert Entries(a, event) == Entries(b, event);
      }
      assert a == b;
    }
  }

  lemma TopAbsorbs(dst: map<string, Value>, src: map<string, Value>)
    ensures (dst + src) + src == dst + src
  {
  }

  /** Syncing again changes nothing exactly when every source hook entry carries a
      command, whatever the destination holds. */
  lemma SyncAbsorbsExactlyWhen(src: Settings, dst: Settings)
    ensures MergeSettings(src, MergeSettings(src, dst)) == MergeSettings(src, dst) <==> EveryEntryHasACommand(src)
  {
    HooksAbsorb(HooksOf(src), HooksOf(dst));
    forall event | event in HooksOf(src)
      ensures Commandless(HooksOf(src)[event]) == [] <==> AllCarryCommands(HooksOf(src)[event])
    {
      CommandlessMeaning(HooksOf(src)[event]);
    }
    TopAbsorbs(dst.top, src.top);
  }

  /** Each of the settings is the one before, synced from the source once more. */
  ghost predicate Synced(src: Settings, states: seq<Settings>) {
    forall i :: 0 < i < |states| ==> SyncedAt(src, states, i)
  }

  ghost predicate SyncedAt(src: Settings, states: seq<Settings>, i: int)
    requires 0 < i < |states|
  {
    states[i] == MergeSettings(src, states[i - 1])
  }

  function EventList(s: Settings, event: string): seq<Value> {
    Entries(HooksOf(s), event)
  }

  lemma SyncStep(src: Settings, before: Settings, after: Settings, event: string)
    requires after == MergeSettings(src, before)
    ensures EventList(after, event) == MergeEntries(EventList(src, event), EventList(before, event))
  {
    MergedEvent(HooksOf(src), HooksOf(before), event);
  }

  function SyncList(src: seq<Value>, dst: seq<Value>, n: nat): seq<Value> {
    MergeEntries(src, if n == 0 then dst else SyncList(src, dst, n - 1))
  }

  function Copies(list: seq<Value>, n: nat): seq<Value> {
    if n == 0 then [] else list + Copies(list, n - 1)
  }

  lemma SyncListStep(src: seq<Value>, before: seq<Value>, tail: seq<Value>)
    requires MergeEntries(src, before) == src + tail
    ensures MergeEntries(src, MergeEntries(src, before)) == src + (Commandless(src) + tail)
  {
    MergeEntriesTwice(src, before);
    SameTail(src, Extra(before, AllCommands(src)), tail);
  }

  lemma CopiesStep(list: seq<Value>, n: nat, extra: seq<Value>)
    requires n > 0
    ensures list + (Copies(list, n - 1) + extra) == Copies(list, n) + extra
  {
  }

  lemma {:induction false} SyncListShape(src: seq<Value>, dst: seq<Value>, n: nat)
    ensures SyncList(src, dst, n) == src + (Copies(Commandless(src), n) + Extra(dst, AllCommands(src)))
  {
    var extra := Extra(dst, AllCommands(src));
    if n == 0 {
      assert [] + extra == extra;
    } else {
      SyncListShape(src, dst, n - 1);
      SyncListStep(src, if n == 1 then dst else SyncList(src, dst, n - 2), Copies(Commandless(src), n - 1) + extra);
      CopiesStep(Commandless(src), n, extra);
    }
  }

  lemma SameTail(a: seq<Value>, b: seq<Value>, c: seq<Value>)
    requires a + b == a + c
    ensures b == c
  {
    assert (a + b)[|a|..] == b && (a + c)[|a|..] == c;
  }

  lemma {:induction false} SyncOfEvent(src: Settings, states: seq<Settings>, event: string, n: nat)
    requires Synced(src, states) && n + 1 < |states|
    ensures EventList(states[n + 1], event) == SyncList(EventList(src, event), EventList(states[0], event), n)
  {
    if n > 0 {
      SyncOfEvent(src, states, event, n - 1);
    }
    assert SyncedAt(src, states, n + 1);
    SyncStep(src, states[n], states[n + 1], event);
  }

  /** Otherwise the lists grow: after n further syncs an event holds n further copies of
      its commandless source entries, right behind the source's own list. */
  lemma ListsGrow(src: Settings, states: seq<Settings>, event: string, n: nat)
    requires Synced(src, states) && n + 1 < |states|
    ensures var e := EventList(src, event);
            EventList(states[n + 1], event) ==
              e + (Copies(Commandless(e), n) + Extra(EventList(states[0], event), AllCommands(e)))
  {
    SyncOfEvent(src, states, event, n);
    SyncListShape(EventList(src, event), EventList(states[0], event), n);
  }

  /** Whatever the destination: keys of the source win, keys only the destination has
      stay, the source's entries come first, and after them exactly the destination's
      entries that share no command with the source. */
  lemma MergeKeepsBothSides(src: Settings, dst: Settings, event: string)
    ensures var m := MergeSettings(src, dst);
            && (forall key :: key in src.top ==> key in m.top && m.top[key] == src.top[key])
            && (forall key :: key in dst.top && key !in src.top ==> key in m.top && m.top[key] == dst.top[key])
            && (event in HooksOf(src) ==> event in HooksOf(m) && HooksOf(src)[event] <= HooksOf(m)[event])
            && (event in HooksOf(dst) ==> event in HooksOf(m) && forall i :: 0 <= i < |HooksOf(dst)[event]| ==>
                  HooksCommands(HooksOf(dst)[event][i]) !! AllCommands(Entries(HooksOf(src), event)) ==>
                    HooksOf(dst)[event][i] in HooksOf(m)[event])
  {
    if event in HooksOf(dst) {
      forall i | 0 <= i < |HooksOf(dst)[event]| &&
                 HooksCommands(HooksOf(dst)[event][i]) !! AllCommands(Entries(HooksOf(src), event))
        ensures HooksOf(dst)[event][i] in Extra(HooksOf(dst)[event], AllCommands(Entries(HooksOf(src), event)))
      {
        ExtraKeeps(HooksOf(dst)[event], AllCommands(Entries(HooksOf(src), event)), i);
      }
    }
  }

  lemma {:induction false} ExtraKeeps(entries: seq<Value>, taken: set<string>, i: nat)
    requires i < |entries| && HooksCommands(entries[i]) !! taken
    ensures entries[i] in Extra(entries, taken)
  {
    var n := |entries| - 1;
    if i < n {
      ExtraKeeps(entries[..n], taken, i);
    }
  }
}
