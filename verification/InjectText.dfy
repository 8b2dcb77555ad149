/** Truncation and sanitisation of text before it is pasted into a terminal pane
    (sanitizeInjectText in daemon/src/agents/tmux.ts). */
module InjectText {
  import opened JsStrings

  const MAX_INJECT_LENGTH: nat := 4000
  const MARKER_RESERVE_SAFETY_MARGIN: nat := 200

  const ESC: CodeUnit := 0x1B
  const AT: CodeUnit := 0x40
  const BRACKET: CodeUnit := 0x5B
  const ZWSP: CodeUnit := 0x200B

  /** The code unit of a character of the Basic Multilingual Plane. */
  function Unit(c: char): CodeUnit {
    if c as int < 0x1_0000 then c as int else 0xFFFD
  }

  function Units(s: string): (r: JsString)
    ensures |r| == |s|
  {
    if s == [] then [] else [Unit(s[0])] + Units(s[1..])
  }

  const MARKER_1 := "[!] injected copy "
  const MARKER_2 := "truncated \U{2014} full "
  const MARKER_3 := "message is in the "
  const MARKER_4 := "durable record (query "
  const MARKER_5 := "the orchestrator task "
  const MARKER_6 := "result / messages row).\n\n"
  const MARKER_TEXT := MARKER_1 + MARKER_2 + MARKER_3 + MARKER_4 + MARKER_5 + MARKER_6

  function Marker(): JsString {
    Units(MARKER_TEXT)
  }

  // ---- The four passes ----

  predicate IsLetter(c: CodeUnit) {
    0x41 <= c <= 0x5A || 0x61 <= c <= 0x7A
  }

  predicate IsParameter(c: CodeUnit) {
    0x30 <= c <= 0x39 || c == 0x3B
  }

  function ParameterRun(s: JsString): (n: nat)
    ensures n <= |s|
    ensures forall i :: 0 <= i < n ==> IsParameter(s[i])
    ensures n < |s| ==> !IsParameter(s[n])
  {
    if s != [] && IsParameter(s[0]) then 1 + ParameterRun(s[1..]) else 0
  }

  /** Delete ESC '[' parameters letter. */
  function StripCsi(s: JsString): (r: JsString)
    ensures |r| <= |s|
    decreases |s|
  {
    if s == [] then []
    else if s[0] == ESC && |s| > 1 && s[1] == BRACKET then
      var n := ParameterRun(s[2..]);
      if 2 + n < |s| && IsLetter(s[2 + n]) then StripCsi(s[3 + n..]) else [s[0]] + StripCsi(s[1..])
    else [s[0]] + StripCsi(s[1..])
  }

  /** Delete ESC and the unit after it, unless that is '['. */
  function StripEscPair(s: JsString): (r: JsString)
    ensures |r| <= |s|
    decreases |s|
  {
    if s == [] then []
    else if s[0] == ESC && |s| > 1 && s[1] != BRACKET then StripEscPair(s[2..])
    else [s[0]] + StripEscPair(s[1..])
  }

  predicate IsControl(c: CodeUnit) {
    c <= 0x08 || c == 0x0B || c == 0x0C || 0x0E <= c <= 0x1F || c == 0x7F
  }

  function StripControls(s: JsString): (r: JsString)
    ensures |r| <= |s|
    ensures forall i :: 0 <= i < |r| ==> !IsControl(r[i])
  {
    if s == [] then []
    else if IsControl(s[0]) then StripControls(s[1..])
    else [s[0]] + StripControls(s[1..])
  }

  predicate MentionAt(s: JsString)
    requires s != []
  {
    s[0] == AT && |s| > 1 && !IsSpace(s[1]) && s[1] != AT
  }

  /** Insert U+200B after every '@' that could start a mention. */
  function Neutralise(s: JsString): JsString {
    if s == [] then []
    else if MentionAt(s) then [AT, ZWSP] + Neutralise(s[1..])
    else [s[0]] + Neutralise(s[1..])
  }

  function Clean(s: JsString): JsString {
    Neutralise(StripControls(StripEscPair(StripCsi(s))))
  }

  function Sanitize(text: JsString): JsString {
    if |text| > MAX_INJECT_LENGTH then
      var reserve := |Marker()| + MARKER_RESERVE_SAFETY_MARGIN;
      MarkerIsPrintable();
      Marker() + Clean(text[..MAX_INJECT_LENGTH - reserve])
    else
      Clean(text)
  }

  // ---- What the output looks like ----

  ghost predicate NoControls(s: JsString) {
    forall i :: 0 <= i < |s| ==> !IsControl(s[i])
  }

  ghost predicate MentionFree(s: JsString) {
    forall i :: 0 <= i < |s| && s[i] == AT ==>
      i == |s| - 1 || IsSpace(s[i + 1]) || s[i + 1] == AT || s[i + 1] == ZWSP
  }

  lemma {:induction false} NeutraliseIsSafe(s: JsString)
    requires NoControls(s)
    ensures var r := Neutralise(s);
            && NoControls(r) && MentionFree(r)
            && (s != [] ==> r != [] && r[0] == s[0])
  {
    if s != [] {
      NeutraliseIsSafe(s[1..]);
    }
  }

  /** A neutralised '@' is followed by a unit that is not neutralised. */
  lemma {:induction false} NeutraliseAddsHalf(s: JsString)
    ensures |s| <= |Neutralise(s)| && 2 * |Neutralise(s)| <= 3 * |s|
    decreases |s|
  {
    if s != [] {
      if MentionAt(s) {
        assert !MentionAt(s[1..]);
        NeutraliseAddsHalf(s[1..][1..]);
      } else {
        NeutraliseAddsHalf(s[1..]);
      }
    }
  }

  lemma {:induction false} UnitsAt(s: string, i: nat)
    requires i < |s|
    ensures Units(s)[i] == Unit(s[i])
  {
    if i > 0 {
      UnitsAt(s[1..], i - 1);
    }
  }

  lemma Spells(word: string, units: JsString)
    requires |word| == |units| && forall i :: 0 <= i < |word| ==> Unit(word[i]) == units[i]
    ensures Units(word) == units
  {
    forall i: nat | i < |word| ensures Units(word)[i] == units[i] {
      UnitsAt(word, i);
    }
  }

  predicate Printable(c: char) {
    c != '@' && (c == '\n' || ' ' <= c <= '~' || c == '\U{2014}')
  }

  ghost predicate AllPrintable(s: string) {
    forall i :: 0 <= i < |s| ==> Printable(s[i])
  }

  lemma FirstHalfIsPrintable()
    ensures |MARKER_1 + MARKER_2 + MARKER_3| == 53 && AllPrintable(MARKER_1 + MARKER_2 + MARKER_3)
  {
    assert AllPrintable(MARKER_1);
    assert AllPrintable(MARKER_2);
    assert AllPrintable(MARKER_3);
  }

  lemma SecondHalfIsPrintable()
    ensures |MARKER_4 + MARKER_5 + MARKER_6| == 69 && AllPrintable(MARKER_4 + MARKER_5 + MARKER_6)
    ensures (MARKER_4 + MARKER_5 + MARKER_6)[68] == '\n'
  {
    assert AllPrintable(MARKER_4);
    assert AllPrintable(MARKER_5);
    assert AllPrintable(MARKER_6);
  }

  lemma ConcatIsPrintable(a: string, b: string)
    requires AllPrintable(a) && AllPrintable(b)
    ensures AllPrintable(a + b)
  {
  }

  lemma MarkerIsPrintable()
    ensures |MARKER_TEXT| == 122 && AllPrintable(MARKER_TEXT) && MARKER_TEXT[121] == '\n'
  {
    FirstHalfIsPrintable();
    SecondHalfIsPrintable();
    ConcatIsPrintable(MARKER_1 + MARKER_2 + MARKER_3, MARKER_4 + MARKER_5 + MARKER_6);
    assert MARKER_TEXT == (MARKER_1 + MARKER_2 + MARKER_3) + (MARKER_4 + MARKER_5 + MARKER_6);
  }

  lemma MarkerIsSafe()
    ensures |Marker()| == 122
    ensures NoControls(Marker()) && MentionFree(Marker()) && Marker()[121] != AT
  {
    MarkerIsPrintable();
    forall i: nat | i < 122 ensures !IsControl(Marker()[i]) && Marker()[i] != AT {
      UnitsAt(MARKER_TEXT, i);
      assert Printable(MARKER_TEXT[i]);
    }
  }

  lemma CleanIsSafe(s: JsString)
    ensures NoControls(Clean(s)) && MentionFree(Clean(s))
    ensures 2 * |Clean(s)| <= 3 * |s|
  {
    NeutraliseIsSafe(StripControls(StripEscPair(StripCsi(s))));
    NeutraliseAddsHalf(StripControls(StripEscPair(StripCsi(s))));
  }

  lemma SafeConcat(a: JsString, b: JsString)
    requires NoControls(a) && MentionFree(a) && NoControls(b) && MentionFree(b)
    requires a == [] || a[|a| - 1] != AT
    ensures NoControls(a + b) && MentionFree(a + b)
  {
  }

  /** For every input: no control character but tab, line feed and carriage return,
      no '@' that starts a mention, and at most 6000 units. */
  lemma SanitizeIsSafe(text: JsString)
    ensures NoControls(Sanitize(text)) && MentionFree(Sanitize(text))
    ensures |Sanitize(text)| <= 6000
    ensures |text| > MAX_INJECT_LENGTH ==> Marker() <= Sanitize(text)
  {
    MarkerIsSafe();
    if |text| > MAX_INJECT_LENGTH {
      var limit := MAX_INJECT_LENGTH - 122 - MARKER_RESERVE_SAFETY_MARGIN;
      CleanIsSafe(text[..limit]);
      SafeConcat(Marker(), Clean(text[..limit]));
    } else {
      CleanIsSafe(text);
    }
  }

  /** '@' and a letter, `n` times. */
  function Mentions(n: nat): JsString {
    if n == 0 then [] else [AT, 0x61] + Mentions(n - 1)
  }

  lemma {:induction false} CleanMentions(n: nat)
    ensures |Mentions(n)| == 2 * n && |Clean(Mentions(n))| == 3 * n
    ensures StripCsi(Mentions(n)) == StripEscPair(Mentions(n)) == StripControls(Mentions(n)) == Mentions(n)
    ensures |Neutralise(Mentions(n))| == 3 * n
  {
    if n > 0 {
      CleanMentions(n - 1);
      var s := Mentions(n);
      assert s[1..] == [0x61] + Mentions(n - 1);
      assert s[1..][1..] == Mentions(n - 1);
      assert StripCsi(s[1..]) == [0x61] + Mentions(n - 1);
      assert StripEscPair(s[1..]) == [0x61] + Mentions(n - 1);
      assert StripControls(s[1..]) == [0x61] + Mentions(n - 1);
      assert Neutralise(s[1..]) == [0x61] + Neutralise(Mentions(n - 1));
    }
  }

  /** The bound is met: some message of allowed length leaves with 6000 units. */
  lemma BoundIsAttained()
    ensures |Mentions(2000)| == MAX_INJECT_LENGTH && |Sanitize(Mentions(2000))| == 6000
  {
    CleanMentions(2000);
  }

  // ---- What the output keeps ----

  function Erase(s: JsString, c: CodeUnit): JsString {
    if s == [] then [] else (if s[0] == c then [] else [s[0]]) + Erase(s[1..], c)
  }

  lemma {:induction false} NeutraliseErases(s: JsString)
    ensures Erase(Neutralise(s), ZWSP) == Erase(s, ZWSP)
  {
    if s != [] {
      NeutraliseErases(s[1..]);
      var r := Neutralise(s);
      if MentionAt(s) {
        assert r[1..] == [ZWSP] + Neutralise(s[1..]);
        assert r[1..][1..] == Neutralise(s[1..]);
      } else {
        assert r[1..] == Neutralise(s[1..]);
      }
    }
  }

  lemma {:induction false} NoEscNothingStripped(s: JsString)
    requires ESC !in s
    ensures StripCsi(s) == s && StripEscPair(s) == s
  {
    if s != [] {
      NoEscNothingStripped(s[1..]);
    }
  }

  /** A message within the cap and without escape sequences arrives with its control
      characters removed and nothing else lost: what was added is invisible. */
  lemma NothingElseIsLost(text: JsString)
    requires |text| <= MAX_INJECT_LENGTH && ESC !in text
    ensures Erase(Sanitize(text), ZWSP) == Erase(StripControls(text), ZWSP)
  {
    NoEscNothingStripped(text);
    NeutraliseErases(StripControls(text));
  }

  lemma {:induction false} PlainIsKept(s: JsString)
    requires NoControls(s) && AT !in s
    ensures StripControls(s) == s && Neutralise(s) == s
  {
    if s != [] {
      PlainIsKept(s[1..]);
    }
  }

  /** Plain text within the cap is not touched. */
  lemma PlainTextIsUnchanged(text: JsString)
    requires |text| <= MAX_INJECT_LENGTH && NoControls(text) && AT !in text
    ensures Sanitize(text) == text
  {
    assert IsControl(ESC);
    NoEscNothingStripped(text);
    PlainIsKept(text);
  }

  // ---- What each pass does ----

  /** Control characters are those below the space, but for tab, line feed and carriage
      return, and DEL. */
  lemma ControlsAre(c: CodeUnit)
    ensures IsControl(c) <==> (c < Unit(' ') && c !in {Unit('\t'), Unit('\n'), Unit('\r')}) || c == 0x7F
  {
  }

  ghost predicate Parameters(s: JsString) {
    forall i :: 0 <= i < |s| ==> Unit('0') <= s[i] <= Unit('9') || s[i] == Unit(';')
  }

  lemma {:induction false} RunOfParameters(s: JsString, rest: JsString)
    requires Parameters(s) && (rest == [] || !IsParameter(rest[0]))
    ensures ParameterRun(s + rest) == |s|
  {
    if s == [] {
      assert s + rest == rest;
    } else {
      First(s, rest);
      assert (s + rest)[1..] == s[1..] + rest;
      RunOfParameters(s[1..], rest);
    }
  }

  /** ESC '[' parameters letter. */
  function Csi(parameters: JsString, letter: CodeUnit): JsString {
    [Unit('\U{1B}'), Unit('[')] + parameters + [letter]
  }

  predicate Latin(letter: CodeUnit) {
    Unit('A') <= letter <= Unit('Z') || Unit('a') <= letter <= Unit('z')
  }

  lemma CsiComesFirst(parameters: JsString, letter: CodeUnit, b: JsString)
    requires Parameters(parameters) && Latin(letter)
    ensures StripCsi(Csi(parameters, letter) + b) == StripCsi(b)
  {
    var s, n := Csi(parameters, letter) + b, |parameters|;
    assert s[0] == ESC && s[1] == BRACKET;
    assert s[2..] == parameters + ([letter] + b);
    RunOfParameters(parameters, [letter] + b);
    assert s[2 + n] == letter && s[3 + n..] == b;
  }

  lemma First(a: JsString, rest: JsString)
    requires a != []
    ensures a + rest == [a[0]] + (a[1..] + rest)
  {
  }

  lemma {:induction false} CsiAfter(a: JsString, rest: JsString)
    requires ESC !in a
    ensures StripCsi(a + rest) == a + StripCsi(rest)
  {
    if a == [] {
      assert a + rest == rest && a + StripCsi(rest) == StripCsi(rest);
    } else {
      First(a, rest);
      First(a, StripCsi(rest));
      CsiAfter(a[1..], rest);
      assert (a + rest)[1..] == a[1..] + rest;
    }
  }

  lemma {:induction false} PairAfter(a: JsString, rest: JsString)
    requires ESC !in a
    ensures StripEscPair(a + rest) == a + StripEscPair(rest)
  {
    if a == [] {
      assert a + rest == rest && a + StripEscPair(rest) == StripEscPair(rest);
    } else {
      First(a, rest);
      First(a, StripEscPair(rest));
      PairAfter(a[1..], rest);
      assert (a + rest)[1..] == a[1..] + rest;
    }
  }

  lemma CsiIsDeleted(a: JsString, parameters: JsString, letter: CodeUnit, b: JsString)
    requires ESC !in a && Parameters(parameters) && Latin(letter)
    ensures StripCsi(a + Csi(parameters, letter) + b) == a + StripCsi(b)
  {
    assert a + Csi(parameters, letter) + b == a + (Csi(parameters, letter) + b);
    CsiAfter(a, Csi(parameters, letter) + b);
    CsiComesFirst(parameters, letter, b);
  }

  lemma PairIsDeleted(a: JsString, c: CodeUnit, b: JsString)
    requires ESC !in a && c != BRACKET
    ensures StripEscPair(a + [ESC, c] + b) == a + StripEscPair(b)
  {
    assert a + [ESC, c] + b == a + ([ESC, c] + b);
    PairAfter(a, [ESC, c] + b);
    assert ([ESC, c] + b)[2..] == b;
  }

  lemma PairIsNoCsi(a: JsString, tail: JsString)
    requires ESC !in a && ESC !in tail && tail != [] && tail[0] != BRACKET
    ensures StripCsi(a + ([ESC] + tail)) == a + ([ESC] + tail)
  {
    NoEscNothingStripped(tail);
    OtherEscStays(tail);
    CsiAfter(a, [ESC] + tail);
  }

  lemma OtherEscStays(tail: JsString)
    requires tail != [] && tail[0] != BRACKET
    ensures StripCsi([ESC] + tail) == [ESC] + StripCsi(tail)
  {
    assert ([ESC] + tail)[1..] == tail;
  }

  /** No control characters, and no '@'. */
  ghost predicate Plain(s: JsString) {
    NoControls(s) && AT !in s
  }

  lemma PlainHasNoEsc(s: JsString)
    requires Plain(s)
    ensures ESC !in s
  {
    assert IsControl(ESC);
  }

  lemma PlainIsClean(s: JsString)
    requires Plain(s)
    ensures StripEscPair(s) == s && Neutralise(StripControls(s)) == s
  {
    PlainHasNoEsc(s);
    NoEscNothingStripped(s);
    PlainIsKept(s);
  }

  /** Terminal control sequences vanish from a message as a whole, and so does an escape with
      any other character. */
  lemma EscapesVanish(a: JsString, parameters: JsString, letter: CodeUnit, c: CodeUnit, b: JsString)
    requires Plain(a) && Plain(b) && Parameters(parameters) && Latin(letter) && c != Unit('[') && c != Unit('\U{1B}')
    ensures var s := a + Csi(parameters, letter) + b; |s| <= 4000 ==> Sanitize(s) == a + b
    ensures var s := a + [Unit('\U{1B}'), c] + b; |s| <= 4000 ==> Sanitize(s) == a + b
  {
    PlainHasNoEsc(a);
    PlainHasNoEsc(b);
    NoEscNothingStripped(b);
    PlainIsClean(a + b);
    CsiIsDeleted(a, parameters, letter, b);
    PairIsNoCsi(a, [c] + b);
    assert a + [ESC, c] + b == a + ([ESC] + ([c] + b));
    PairIsDeleted(a, c, b);
  }

  lemma Absent(s: JsString, c: CodeUnit)
    requires c !in s
    ensures forall i :: 0 <= i < |s| ==> s[i] != c
  {
    forall i | 0 <= i < |s| ensures s[i] != c {
      assert s[i] in s;
    }
  }

  lemma {:induction false} NeutraliseAfter(a: JsString, rest: JsString)
    requires AT !in a
    ensures Neutralise(a + rest) == a + Neutralise(rest)
  {
    if a == [] {
      assert a + rest == rest && a + Neutralise(rest) == Neutralise(rest);
    } else {
      First(a, rest);
      First(a, Neutralise(rest));
      NeutraliseAfter(a[1..], rest);
      assert (a + rest)[0] == a[0] && (a + rest)[1..] == a[1..] + rest;
    }
  }

  lemma MentionIsNeutralised(a: JsString, b: JsString)
    requires AT !in a && b != [] && !IsSpace(b[0]) && b[0] != AT
    ensures Neutralise(a + [AT] + b) == a + [AT, ZWSP] + Neutralise(b)
  {
    assert a + [AT] + b == a + ([AT] + b);
    NeutraliseAfter(a, [AT] + b);
    assert ([AT] + b)[1..] == b;
    assert a + ([AT, ZWSP] + Neutralise(b)) == a + [AT, ZWSP] + Neutralise(b);
  }

  lemma {:induction false} NoMentionIsKept(s: JsString)
    requires forall i :: 0 <= i < |s| - 1 && s[i] == AT ==> IsSpace(s[i + 1]) || s[i + 1] == AT
    ensures Neutralise(s) == s
  {
    if s != [] {
      NoMentionIsKept(s[1..]);
      assert s == [s[0]] + s[1..];
    }
  }

  lemma {:induction false} CleanIsKept(s: JsString)
    requires NoControls(s)
    ensures StripControls(s) == s
  {
    if s != [] {
      CleanIsKept(s[1..]);
    }
  }

  /** An '@' before a visible character gets a zero-width space behind it; before a space,
      another '@' or the end it stays as it is. */
  lemma MentionsAreBroken(a: JsString, b: JsString)
    requires Plain(a) && Plain(b) && |a| + 1 + |b| <= 4000
    ensures var s := a + [Unit('@')] + b;
            Sanitize(s) == if b != [] && !IsSpace(b[0]) then a + [Unit('@'), Unit('\U{200B}')] + b else s
  {
    var s := a + [AT] + b;
    Absent(a, AT);
    Absent(b, AT);
    PlainHasNoEsc(a);
    PlainHasNoEsc(b);
    NoEscNothingStripped(s);
    CleanIsKept(s);
    PlainIsKept(b);
    if b != [] && !IsSpace(b[0]) {
      MentionIsNeutralised(a, b);
    } else {
      assert forall i :: 0 <= i < |s| && s[i] == AT ==> i == |a|;
      NoMentionIsKept(s);
    }
  }

  /** Of a message over the cap the first 3678 units stay, behind the marker. */
  lemma LongTextIsCut(text: JsString)
    requires |text| > 4000 && Plain(text)
    ensures Sanitize(text) == Units(MARKER_TEXT) + text[..3678]
  {
    MarkerIsSafe();
    var kept := text[..3678];
    PlainHasNoEsc(text);
    PlainHasNoEsc(kept);
    NoEscNothingStripped(kept);
    PlainIsKept(kept);
  }
}
