/** Delivery of one message into a terminal pane (daemon/src/agents/tmux.ts): locate
    the live input line, verify that a submit landed, retry, and re-deliver at most
    once, against a pane that may show anything and fail at any call. */
module PaneDelivery {
  import opened Wrappers
  import opened JsStrings
  import InjectText

  const LF: CodeUnit := 0x0A
  const PROMPT: CodeUnit := 0x276F
  const GREATER: CodeUnit := 0x3E
  const MAX_CM_RETRIES: nat := 2
  const READY_ATTEMPTS: nat := 3

  // ---- Reading a captured pane ----

  function Split(content: JsString): (lines: seq<JsString>)
    ensures lines != []
  {
    if content == [] then [[]]
    else
      var rest := Split(content[1..]);
      if content[0] == LF then [[]] + rest else [[content[0]] + rest[0]] + rest[1..]
  }

  /** The text captured by the input-row pattern: leading white space, the prompt
      glyph, at most one white space, and the rest of the line. */
  function PromptText(line: JsString): Option<JsString> {
    var s := TrimStart(line);
    if s == [] || s[0] != PROMPT then None
    else
      var rest := if |s| > 1 && IsSpace(s[1]) then s[2..] else s[1..];
      if exists c | c in rest :: IsLineTerminator(c) then None else Some(rest)
  }

  predicate IsBorderUnit(c: CodeUnit) {
    c == 0x2500 || c == 0x2501 || c == 0x2D
  }

  /** Three or more border units, then white space only. */
  predicate IsBorder(line: JsString) {
    var s := TrimEnd(line);
    |s| >= 3 && forall c :: c in s ==> IsBorderUnit(c)
  }

  /** The footer label "Context:". */
  function ContextLabel(): JsString {
    [0x43, 0x6F, 0x6E, 0x74, 0x65, 0x78, 0x74, 0x3A]
  }

  predicate Contains(s: JsString, word: JsString) {
    word <= s || (s != [] && Contains(s[1..], word))
  }

  /** A live input row: a prompt line, a border line below it, and the footer label
      within the three lines after that. */
  predicate IsLiveRow(lines: seq<JsString>, i: nat) {
    && i + 1 < |lines|
    && PromptText(lines[i]).Some?
    && IsBorder(lines[i + 1])
    && exists k | i + 2 <= k < i + 5 && k < |lines| :: Contains(lines[k], ContextLabel())
  }

  function LiveRows(lines: seq<JsString>): nat -> bool {
    (i: nat) => IsLiveRow(lines, i)
  }

  /** The greatest index below `n` with the property. */
  function LastIndex(n: nat, live: nat -> bool): (row: Option<nat>)
    ensures row == None <==> forall i: nat :: i < n ==> !live(i)
    ensures row.Some? ==> row.value < n && live(row.value)
    ensures row.Some? ==> forall j: nat :: row.value < j < n ==> !live(j)
  {
    if n == 0 then None else if live(n - 1) then Some(n - 1) else LastIndex(n - 1, live)
  }

  /** The live input line of a captured pane: the last live row wins; without one the
      pane is unreadable. */
  function InputLine(content: JsString): Option<JsString> {
    var lines := Split(content);
    var row := LastIndex(|lines|, LiveRows(lines));
    if row.Some? then Some(TrimEnd(PromptText(lines[row.value]).value)) else None
  }

  /** Search backwards from the last line. */
  method FindLast(n: nat, live: nat -> bool) returns (row: Option<nat>)
    ensures row == LastIndex(n, live)
  {
    var i := n;
    while i > 0
      invariant 0 <= i <= n
      invariant LastIndex(n, live) == LastIndex(i, live)
    {
      i := i - 1;
      if live(i) {
        return Some(i);
      }
    }
    return None;
  }

  method FindCurrentInputLine(content: JsString) returns (line: Option<JsString>)
    ensures line == InputLine(content)
  {
    var lines := Split(content);
    var row := FindLast(|lines|, LiveRows(lines));
    if row.None? {
      return None;
    }
    return Some(TrimEnd(PromptText(lines[row.value]).value));
  }

  /** The hint "Press up to edit " of a queued message. */
  function QueuedHint(): JsString {
    [0x50, 0x72, 0x65, 0x73, 0x73, 0x20, 0x75, 0x70, 0x20,
     0x74, 0x6F, 0x20, 0x65, 0x64, 0x69, 0x74, 0x20]
  }

  lemma LabelsAreSpelled()
    ensures ContextLabel() == InjectText.Units("Context:")
    ensures QueuedHint() == InjectText.Units("Press up to edit ")
  {
    InjectText.Spells("Context:", ContextLabel());
    InjectText.Spells("Press up to edit ", QueuedHint());
  }

  /** Empty, or a known hint that is not user input. */
  predicate IndicatesLanded(line: Option<JsString>) {
    line.Some? && (line.value == [] || QueuedHint() <= line.value)
  }

  predicate IsInputPromptReady(content: JsString) {
    var s := TrimEnd(content);
    s != [] && s[|s| - 1] == GREATER
  }

  // ---- The pane as an adversary, and the record of what was done to it ----

  /** What the pane answers to the n-th call: the text of a capture, if it succeeds,
      and whether a paste or a submit succeeds. */
  datatype Pane = Pane(capture: nat -> Option<JsString>, accepts: nat -> bool)

  datatype Action =
    | Baseline(ok: bool)
    | Read(ok: bool, line: Option<JsString>)
    | Paste(text: JsString)
    | Submit

  function Pastes(log: seq<Action>): nat {
    if log == [] then 0 else Pastes(log[..|log| - 1]) + if log[|log| - 1].Paste? then 1 else 0
  }

  function Submits(log: seq<Action>): nat {
    if log == [] then 0 else Submits(log[..|log| - 1]) + if log[|log| - 1].Submit? then 1 else 0
  }

  function Captures(log: seq<Action>): nat {
    if log == [] then 0
    else Captures(log[..|log| - 1]) + if log[|log| - 1].Baseline? || log[|log| - 1].Read? then 1 else 0
  }

  predicate LandedRead(a: Action) {
    a.Read? && a.ok && IndicatesLanded(a.line)
  }

  /** Two landed reads in a row. */
  ghost predicate LandedTwice(log: seq<Action>, i: int) {
    0 < i < |log| && LandedRead(log[i - 1]) && LandedRead(log[i])
  }

  ghost predicate NeverLandedTwice(log: seq<Action>) {
    forall i :: !LandedTwice(log, i)
  }

  /** The input line last seen since the last submit; None if it was unreadable or
      nothing was captured. */
  function LastLine(log: seq<Action>): Option<JsString> {
    if log == [] then None
    else
      var a := log[|log| - 1];
      if a.Submit? then None
      else if a.Read? && a.ok then a.line
      else LastLine(log[..|log| - 1])
  }

  lemma CountSnoc(log: seq<Action>, a: Action)
    ensures Pastes(log + [a]) == Pastes(log) + if a.Paste? then 1 else 0
    ensures Submits(log + [a]) == Submits(log) + if a.Submit? then 1 else 0
    ensures Captures(log + [a]) == Captures(log) + if a.Baseline? || a.Read? then 1 else 0
    ensures LastLine(log + [a]) ==
              if a.Submit? then None else if a.Read? && a.ok then a.line else LastLine(log)
  {
    assert (log + [a])[..|log|] == log;
  }

  lemma LandedSnoc(log: seq<Action>, a: Action)
    requires NeverLandedTwice(log) && (LandedRead(a) ==> log == [] || !LandedRead(log[|log| - 1]))
    ensures NeverLandedTwice(log + [a])
  {
    forall i ensures !LandedTwice(log + [a], i) {
      assert i < |log| ==> !LandedTwice(log, i);
    }
  }

  /** The record at position `k`: reads report what the pane showed, and what follows
      is what the protocol does next. A failed paste or submit is the end; a paste is
      submitted, a submit is read back, a landed read is read again. */
  ghost predicate FlowAt(pane: Pane, log: seq<Action>, k: nat)
    requires k < |log|
  {
    && Truthful(pane, log[k], k)
    && (k + 1 < |log| ==> Follows(pane, log[k], k, log[k + 1]))
  }

  ghost predicate Truthful(pane: Pane, a: Action, k: nat) {
    a.Read? ==>
      && (a.ok <==> pane.capture(k).Some?)
      && a.line == (if a.ok then InputLine(pane.capture(k).value) else None)
  }

  ghost predicate Follows(pane: Pane, a: Action, k: nat, next: Action) {
    && (a.Paste? || a.Submit? ==> pane.accepts(k))
    && (a.Paste? ==> next.Submit?)
    && (a.Submit? ==> next.Read?)
    && (LandedRead(a) ==> next.Read?)
    && (a.Read? && !a.ok ==> !next.Read?)
  }

  ghost predicate Flows(pane: Pane, log: seq<Action>) {
    forall k: nat :: k < |log| ==> FlowAt(pane, log, k)
  }

  lemma FlowSnoc(pane: Pane, log: seq<Action>, a: Action)
    requires Flows(pane, log) && Truthful(pane, a, |log|)
    requires log != [] ==> Follows(pane, log[|log| - 1], |log| - 1, a)
    ensures Flows(pane, log + [a])
  {
    forall k: nat | k < |log + [a]| ensures FlowAt(pane, log + [a], k) {
      assert k < |log| ==> FlowAt(pane, log, k);
    }
  }

  /** A second paste follows a paste only if the line last seen was unreadable or
      landed: never on top of text that somebody typed. */
  ghost predicate SafeAt(log: seq<Action>, stamped: JsString, k: nat)
    requires k < |log|
  {
    log[k].Paste? ==>
      && log[k].text == stamped
      && (Pastes(log[..k]) > 0 ==> LastLine(log[..k]) == None || IndicatesLanded(LastLine(log[..k])))
  }

  ghost predicate AllSafe(log: seq<Action>, stamped: JsString) {
    forall k: nat :: k < |log| ==> SafeAt(log, stamped, k)
  }

  lemma SafeAtPrefix(log: seq<Action>, longer: seq<Action>, stamped: JsString, k: nat)
    requires k < |log| && log <= longer && SafeAt(log, stamped, k)
    ensures SafeAt(longer, stamped, k)
  {
    assert log[..k] == longer[..k];
  }

  lemma {:induction false} PasteCounts(log: seq<Action>, k: nat)
    requires k < |log|
    ensures Pastes(log[..k]) + (if log[k].Paste? then 1 else 0) <= Pastes(log)
  {
    var front, a := log[..|log| - 1], log[|log| - 1];
    assert log == front + [a];
    CountSnoc(front, a);
    if k < |front| {
      PasteCounts(front, k);
      assert front[..k] == log[..k];
    } else {
      assert front == log[..k];
    }
  }

  /** More reads and submits keep re-delivery safe. */
  lemma SafeExtend(before: seq<Action>, log: seq<Action>, stamped: JsString)
    requires AllSafe(before, stamped) && before <= log && Pastes(log) == Pastes(before)
    ensures AllSafe(log, stamped)
  {
    forall k: nat | k < |log| ensures SafeAt(log, stamped, k) {
      if k < |before| {
        SafeAtPrefix(before, log, stamped, k);
      } else {
        NoNewPaste(before, log, k);
      }
    }
  }

  lemma NoNewPaste(before: seq<Action>, log: seq<Action>, k: nat)
    requires before <= log && Pastes(log) == Pastes(before) && |before| <= k < |log|
    ensures !log[k].Paste?
  {
    PasteCounts(log, k);
    PastesMonotone(log, |before|, k);
    assert log[..|before|] == before;
  }

  lemma {:induction false} PastesMonotone(log: seq<Action>, i: nat, k: nat)
    requires i <= k <= |log|
    ensures Pastes(log[..i]) <= Pastes(log[..k])
  {
    if i < k {
      PasteCounts(log[..k], i);
      assert log[..k][..i] == log[..i];
    }
  }

  lemma SafePaste(log: seq<Action>, a: Action, stamped: JsString)
    requires AllSafe(log, stamped) && (a.Paste? ==> a.text == stamped)
    requires a.Paste? && Pastes(log) > 0 ==> LastLine(log) == None || IndicatesLanded(LastLine(log))
    ensures AllSafe(log + [a], stamped)
  {
    var t := log + [a];
    assert t[..|log|] == log;
    forall k: nat | k < |t| ensures SafeAt(t, stamped, k) {
      if k < |log| {
        SafeAtPrefix(log, t, stamped, k);
      }
    }
  }

  method CaptureInputLine(pane: Pane, before: seq<Action>) returns (a: Action, log: seq<Action>)
    requires Flows(pane, before) && before != [] && Readable(pane, before)
    ensures Flows(pane, log)
    ensures a.Read? && log == before + [a]
    ensures a.ok <==> pane.capture(|before|).Some?
    ensures Captures(log) == Captures(before) + 1 && Pastes(log) == Pastes(before) && Submits(log) == Submits(before)
    ensures LastLine(log) == if a.ok then a.line else LastLine(before)
  {
    var content := pane.capture(|before|);
    var line: Option<JsString> := None;
    if content.Some? {
      line := FindCurrentInputLine(content.value);
    }
    a := Read(content.Some?, line);
    log := before + [a];
    CountSnoc(before, a);
    FlowSnoc(pane, before, a);
  }

  /** A read may come next. */
  ghost predicate Readable(pane: Pane, log: seq<Action>)
    requires log != []
  {
    var a := log[|log| - 1];
    (a.Submit? && pane.accepts(|log| - 1)) || (a.Read? && a.ok)
  }

  /** The state of the record between two verify iterations. */
  ghost predicate Verifying(pane: Pane, before: seq<Action>, log: seq<Action>, iterations: nat, last: Option<JsString>)
  {
    Flows(pane, log) && Counted(before, log, iterations, last)
  }

  ghost predicate Counted(before: seq<Action>, log: seq<Action>, iterations: nat, last: Option<JsString>) {
    && before <= log
    && Captures(log) <= Captures(before) + 2 * iterations
    && Pastes(log) == Pastes(before) && Submits(log) == Submits(before)
    && LastLine(log) == last
    && NeverLandedTwice(log)
    && log != [] && !LandedRead(log[|log| - 1])
  }

  /** A read that does not complete a landed pair. */
  lemma CountedSnoc(before: seq<Action>, log: seq<Action>, a: Action, n: nat, last: Option<JsString>)
    requires Pastes(log) == Pastes(before) && Submits(log) == Submits(before) && before <= log
    requires NeverLandedTwice(log) && a.Read? && !LandedRead(a) && Captures(log) < Captures(before) + 2 * n
    requires LastLine(log) == last
    ensures Counted(before, log + [a], n, if a.ok then a.line else last)
  {
    CountSnoc(log, a);
    LandedSnoc(log, a);
  }

  /** Up to three double reads. */
  method VerifySubmitLanded(pane: Pane, before: seq<Action>)
    returns (landed: bool, last: Option<JsString>, log: seq<Action>)
    requires before != [] && before[|before| - 1].Submit? && NeverLandedTwice(before)
    requires Flows(pane, before) && Readable(pane, before)
    ensures Flows(pane, log) && (!landed ==> |log| > |before| && log[|log| - 1].Read?)
    ensures !landed ==> Verifying(pane, before, log, 3, last)
    ensures landed ==> LandedTwice(log, |log| - 1) && NeverLandedTwice(log[..|log| - 1])
    ensures before <= log && Captures(log) <= Captures(before) + 6
    ensures Pastes(log) == Pastes(before) && Submits(log) == Submits(before)
  {
    landed, last, log := false, None, before;
    for i := 0 to MAX_CM_RETRIES + 1
      invariant !landed && Verifying(pane, before, log, i, last) && Readable(pane, log)
      invariant i > 0 ==> |log| > |before| && log[|log| - 1].Read?
    {
      var result, last', log' := VerifyOnce(pane, before, log, i, last);
      last, log := last', log';
      if result == Landed {
        return true, last, log;
      }
      if result == Aborted {
        return;
      }
    }
  }

  datatype VerifyResult = Landed | NotYet | Aborted

  /** One iteration: a read, and if it looks landed, a second one. A capture that
      fails aborts the verification. */
  method VerifyOnce(pane: Pane, ghost before: seq<Action>, log0: seq<Action>, ghost i: nat, last0: Option<JsString>)
    returns (result: VerifyResult, last: Option<JsString>, log: seq<Action>)
    requires Verifying(pane, before, log0, i, last0) && Readable(pane, log0)
    ensures Flows(pane, log) && |log| > |log0| && log[|log| - 1].Read?
    ensures result.NotYet? ==> Readable(pane, log)
    ensures !result.Landed? ==> Verifying(pane, before, log, i + 1, last)
    ensures result.Landed? ==> LandedTwice(log, |log| - 1) && NeverLandedTwice(log[..|log| - 1])
    ensures before <= log && Captures(log) <= Captures(before) + 2 * (i + 1)
    ensures Pastes(log) == Pastes(before) && Submits(log) == Submits(before)
  {
    var first, log1 := CaptureInputLine(pane, log0);
    if !LandedRead(first) {
      CountedSnoc(before, log0, first, i + 1, last0);
      return if first.ok then NotYet else Aborted, if first.ok then first.line else last0, log1;
    }
    LandedSnoc(log0, first);
    var second, log2 := CaptureInputLine(pane, log1);
    if !LandedRead(second) {
      CountedSnoc(before, log1, second, i + 1, first.line);
      return if second.ok then NotYet else Aborted, if second.ok then second.line else first.line, log2;
    }
    assert log2[..|log2| - 1] == log1;
    return Landed, second.line, log2;
  }

  /** What the delivery keeps true of its record whenever it is between calls. */
  ghost predicate Recorded(pane: Pane, log: seq<Action>, stamped: JsString, pastes: nat, submits: nat, captures: nat) {
    && Pastes(log) == pastes && Submits(log) == submits && Captures(log) <= captures
    && NeverLandedTwice(log) && AllSafe(log, stamped) && Flows(pane, log)
    && (log != [] ==> !LandedRead(log[|log| - 1]))
  }

  /** Anything but a read is recorded without further ado. */
  lemma RecordSnoc(pane: Pane, log: seq<Action>, a: Action, stamped: JsString, p: nat, s: nat, c: nat)
    requires Recorded(pane, log, stamped, p, s, c) && !a.Read?
    requires log != [] ==> Follows(pane, log[|log| - 1], |log| - 1, a)
    requires a.Paste? ==> a.text == stamped && (p > 0 ==> LastLine(log) == None || IndicatesLanded(LastLine(log)))
    ensures Recorded(pane, log + [a], stamped, p + (if a.Paste? then 1 else 0), s + (if a.Submit? then 1 else 0),
                     c + if a.Baseline? then 1 else 0)
  {
    CountSnoc(log, a);
    LandedSnoc(log, a);
    SafePaste(log, a, stamped);
    FlowSnoc(pane, log, a);
  }

  /** The capture succeeds and does not show the prompt. */
  predicate NotReady(pane: Pane, n: nat) {
    pane.capture(n).Some? && !IsInputPromptReady(pane.capture(n).value)
  }

  ghost predicate NotReadyBefore(pane: Pane, n: nat) {
    forall k: nat :: k < n ==> NotReady(pane, k)
  }

  lemma NotReadySnoc(pane: Pane, n: nat)
    requires NotReadyBefore(pane, n) && NotReady(pane, n)
    ensures NotReadyBefore(pane, n + 1)
  {
  }

  /** Captures before the message is pasted: again until the pane is ready or a capture
      fails, but at most three times. */
  method AwaitPrompt(pane: Pane, ghost stamped: JsString) returns (log: seq<Action>)
    ensures Recorded(pane, log, stamped, 0, 0, 4) && log != [] && log[|log| - 1].Baseline?
    ensures |log| <= 4 && NotReadyBefore(pane, |log| - 1) && (|log| < 4 ==> !NotReady(pane, |log| - 1))
  {
    log := [];
    RecordSnoc(pane, log, Baseline(pane.capture(0).Some?), stamped, 0, 0, 0);
    log := log + [Baseline(pane.capture(0).Some?)];
    var i := 0;
    while i < READY_ATTEMPTS && NotReady(pane, i)
      invariant i <= READY_ATTEMPTS && Recorded(pane, log, stamped, 0, 0, 1 + i)
      invariant |log| == i + 1 && log[i].Baseline? && NotReadyBefore(pane, i)
    {
      NotReadySnoc(pane, i);
      var next := Baseline(pane.capture(i + 1).Some?);
      RecordSnoc(pane, log, next, stamped, 0, 0, 1 + i);
      log := log + [next];
      i := i + 1;
    }
  }

  ghost predicate AllAccepted(pane: Pane, log: seq<Action>) {
    forall k: nat :: k < |log| && (log[k].Paste? || log[k].Submit?) ==> pane.accepts(k)
  }

  /** What a delivery is promised to have done. The bounds hold against every pane.
      Success means two landed reads in a row, the first such pair, after one paste.
      A delivery that gives up although every call was accepted has submitted three
      times and stopped over somebody's text, or has re-delivered. */
  ghost predicate Delivered(pane: Pane, log: seq<Action>, stamped: JsString, delivered: bool) {
    && Pastes(log) <= 2 && Submits(log) <= 4 && Captures(log) <= 22
    && AllSafe(log, stamped) && Flows(pane, log)
    && (delivered ==>
          LandedTwice(log, |log| - 1) && NeverLandedTwice(log[..|log| - 1]) && Pastes(log) == 1)
    && (!delivered ==> NeverLandedTwice(log))
    && (!delivered && AllAccepted(pane, log) ==>
          || (Pastes(log) == 1 && Submits(log) == 3 && LastLine(log).Some? && !IndicatesLanded(LastLine(log)))
          || (Pastes(log) == 2 && Submits(log) == 4))
  }

  lemma Refused(pane: Pane, log: seq<Action>, stamped: JsString, p: nat, s: nat, c: nat)
    requires Recorded(pane, log, stamped, p, s, c) && p <= 2 && s <= 4 && c <= 22 && log != []
    requires (log[|log| - 1].Paste? || log[|log| - 1].Submit?) && !pane.accepts(|log| - 1)
    ensures Delivered(pane, log, stamped, false)
  {
    var k := |log| - 1;
    assert k < |log| && (log[k].Paste? || log[k].Submit?);
  }

  lemma Landed1(pane: Pane, before: seq<Action>, log: seq<Action>, stamped: JsString, s: nat, c: nat)
    requires Recorded(pane, before, stamped, 1, s, c) && s <= 3 && c <= 16 && before <= log && Flows(pane, log)
    requires Pastes(log) == Pastes(before) && Submits(log) == Submits(before) && Captures(log) <= Captures(before) + 6
    requires LandedTwice(log, |log| - 1) && NeverLandedTwice(log[..|log| - 1])
    ensures Delivered(pane, log, stamped, true)
  {
    SafeExtend(before, log, stamped);
  }

  /** Submit and verify; a submit that throws ends the delivery. */
  method SubmitAndVerify(pane: Pane, before: seq<Action>, ghost stamped: JsString, ghost s: nat, ghost c: nat)
    returns (threw: bool, landed: bool, last: Option<JsString>, log: seq<Action>)
    requires Recorded(pane, before, stamped, 1, s, c) && s <= 2 && c <= 16
    requires before != [] && Follows(pane, before[|before| - 1], |before| - 1, Submit)
    ensures threw ==> !landed
    ensures threw || landed ==> Delivered(pane, log, stamped, landed)
    ensures !threw && !landed ==> Recorded(pane, log, stamped, 1, s + 1, c + 6) && LastLine(log) == last
    ensures !threw && !landed ==> log != [] && log[|log| - 1].Read?
  {
    RecordSnoc(pane, before, Submit, stamped, 1, s, c);
    ghost var submitted := before + [Submit];
    log := before + [Submit];
    if !pane.accepts(|before|) {
      Refused(pane, log, stamped, 1, s + 1, c);
      return true, false, None, log;
    }
    landed, last, log := VerifySubmitLanded(pane, log);
    threw := false;
    if landed {
      Landed1(pane, submitted, log, stamped, s + 1, c);
    } else {
      SafeExtend(submitted, log, stamped);
    }
  }

  /** Paste the message once more and submit it, without verifying. */
  method Redeliver(pane: Pane, stamped: JsString, before: seq<Action>) returns (log: seq<Action>)
    requires Recorded(pane, before, stamped, 1, 3, 22) && before != [] && before[|before| - 1].Read?
    requires LastLine(before) == None || IndicatesLanded(LastLine(before))
    ensures Delivered(pane, log, stamped, false)
  {
    RecordSnoc(pane, before, Paste(stamped), stamped, 1, 3, 22);
    log := before + [Paste(stamped)];
    if !pane.accepts(|before|) {
      Refused(pane, log, stamped, 2, 3, 22);
      return;
    }
    RecordSnoc(pane, log, Submit, stamped, 2, 3, 22);
    log := log + [Submit];
  }

  /** One injection into an existing session: paste, submit, verify, at most two more
      submits, and at most one re-delivery. */
  method Inject(pane: Pane, stamped: JsString) returns (delivered: bool, log: seq<Action>)
    ensures Delivered(pane, log, stamped, delivered)
  {
    log := AwaitPrompt(pane, stamped);
    RecordSnoc(pane, log, Paste(stamped), stamped, 0, 0, 4);
    var ok := pane.accepts(|log|);
    log := log + [Paste(stamped)];
    if !ok {
      Refused(pane, log, stamped, 1, 0, 4);
      return false, log;
    }
    var threw, landed, last;
    threw, landed, last, log := SubmitAndVerify(pane, log, stamped, 0, 4);
    if threw || landed {
      return landed, log;
    }
    for i := 0 to MAX_CM_RETRIES
      invariant Recorded(pane, log, stamped, 1, 1 + i, 10 + 6 * i) && LastLine(log) == last
      invariant log != [] && log[|log| - 1].Read?
    {
      threw, landed, last, log := SubmitAndVerify(pane, log, stamped, 1 + i, 10 + 6 * i);
      if threw || landed {
        return landed, log;
      }
    }
    var hasGenuineStaleText := last.Some? && !IndicatesLanded(last);
    if hasGenuineStaleText {
      return false, log;
    }
    log := Redeliver(pane, stamped, log);
    return false, log;
  }

  lemma {:induction false} OneSubmit(log: seq<Action>) returns (k: nat)
    requires Submits(log) >= 1
    ensures k < |log| && log[k].Submit?
  {
    if log[|log| - 1].Submit? {
      k := |log| - 1;
    } else {
      k := OneSubmit(log[..|log| - 1]);
    }
  }

  lemma {:induction false} TwoSubmits(log: seq<Action>) returns (k: nat, l: nat)
    requires Submits(log) >= 2
    ensures k < l < |log| && log[k].Submit? && log[l].Submit?
  {
    if log[|log| - 1].Submit? {
      k := OneSubmit(log[..|log| - 1]);
      l := |log| - 1;
    } else {
      k, l := TwoSubmits(log[..|log| - 1]);
    }
  }

  /** The pane takes its n-th call and, if it is a capture, shows a consumed line. */
  ghost predicate QuietAt(pane: Pane, n: nat) {
    pane.accepts(n) && pane.capture(n).Some? && IndicatesLanded(InputLine(pane.capture(n).value))
  }

  lemma QuietRead(pane: Pane, log: seq<Action>, k: nat)
    requires k < |log|
    ensures FlowAt(pane, log, k) && QuietAt(pane, k) && log[k].Read? ==> LandedRead(log[k])
  {
  }

  lemma SubmitLands(pane: Pane, log: seq<Action>, k: nat)
    requires Flows(pane, log) && k + 2 < |log| && log[k].Submit?
    ensures QuietAt(pane, k) && QuietAt(pane, k + 1) && QuietAt(pane, k + 2) ==> LandedTwice(log, k + 2)
  {
    assert FlowAt(pane, log, k) && FlowAt(pane, log, k + 1) && FlowAt(pane, log, k + 2);
    QuietRead(pane, log, k + 1);
    QuietRead(pane, log, k + 2);
  }

  lemma SubmitsApart(pane: Pane, log: seq<Action>, k: nat, l: nat)
    requires Flows(pane, log) && k < l < |log| && log[k].Submit? && log[l].Submit?
    ensures k + 2 < |log|
  {
    assert FlowAt(pane, log, k);
  }

  /** What the promise means for a pane that takes every call and always shows a
      consumed input line: the message is delivered. */
  lemma QuietPaneIsDelivered(pane: Pane, log: seq<Action>, stamped: JsString, delivered: bool)
    requires Delivered(pane, log, stamped, delivered)
    requires forall n :: QuietAt(pane, n)
    ensures delivered
  {
    if !delivered {
      forall k: nat | k < |log| && (log[k].Paste? || log[k].Submit?) ensures pane.accepts(k) {
        assert QuietAt(pane, k);
      }
      var k, l := TwoSubmits(log);
      assert QuietAt(pane, k) && QuietAt(pane, k + 1) && QuietAt(pane, k + 2);
      SubmitsApart(pane, log, k, l);
      SubmitLands(pane, log, k);
      assert false;
    }
  }
}
