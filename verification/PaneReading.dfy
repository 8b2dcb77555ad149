/** What a captured pane has to look like for its input line to be read
    (findCurrentInputLine in daemon/src/agents/tmux.ts), stated on the text of its lines. */
module PaneReading {
  import opened Wrappers
  import opened JsStrings
  import opened InjectText
  import opened PaneDelivery

  // ---- Lines ----

  function Join(lines: seq<JsString>): JsString
    requires lines != []
  {
    if |lines| == 1 then lines[0] else lines[0] + Units("\n") + Join(lines[1..])
  }

  ghost predicate OneLine(s: JsString) {
    forall i :: 0 <= i < |s| ==> s[i] != 0x0A
  }

  ghost predicate AreLines(lines: seq<JsString>) {
    lines != [] && forall i :: 0 <= i < |lines| ==> OneLine(lines[i])
  }

  lemma {:induction false} SplitOne(s: JsString)
    requires OneLine(s)
    ensures Split(s) == [s]
  {
    if s != [] {
      SplitOne(s[1..]);
      assert s == [s[0]] + s[1..];
    }
  }

  lemma {:induction false} SplitFirst(s: JsString, rest: JsString)
    requires OneLine(s)
    ensures Split(s + [0x0A] + rest) == [s] + Split(rest)
  {
    var content := s + [0x0A] + rest;
    if s == [] {
      assert content[1..] == rest;
    } else {
      assert content[1..] == s[1..] + [0x0A] + rest;
      SplitFirst(s[1..], rest);
      assert s == [s[0]] + s[1..];
    }
  }

  lemma NewlineIs()
    ensures Units("\n") == [0x0A]
  {
    Spells("\n", [0x0A]);
  }

  /** Splitting undoes joining. */
  lemma {:induction false} SplitJoin(lines: seq<JsString>)
    requires AreLines(lines)
    ensures Split(Join(lines)) == lines
  {
    if |lines| == 1 {
      SplitOne(lines[0]);
    } else {
      NewlineIs();
      SplitJoin(lines[1..]);
      SplitFirst(lines[0], Join(lines[1..]));
      assert lines == [lines[0]] + lines[1..];
    }
  }

  // ---- Trimming ----

  lemma {:induction false} TrimStartStops(spaces: JsString, s: JsString)
    requires AllSpaces(spaces) && (s == [] || !IsSpace(s[0]))
    ensures TrimStart(spaces + s) == s
  {
    if spaces == [] {
      assert spaces + s == s;
    } else {
      assert (spaces + s)[0] == spaces[0] && (spaces + s)[1..] == spaces[1..] + s;
      TrimStartStops(spaces[1..], s);
    }
  }

  lemma {:induction false} TrimEndStops(s: JsString, spaces: JsString)
    requires AllSpaces(spaces) && (s == [] || !IsSpace(s[|s| - 1]))
    ensures TrimEnd(s + spaces) == s
  {
    if spaces == [] {
      assert s + spaces == s;
    } else {
      var n := |spaces| - 1;
      assert (s + spaces)[|s| + n] == spaces[n] && (s + spaces)[..|s| + n] == s + spaces[..n];
      TrimEndStops(s, spaces[..n]);
    }
  }

  // ---- The input row ----

  function Glyph(): JsString {
    Units("\U{276F}")
  }

  lemma GlyphIs()
    ensures Glyph() == [0x276F] && !IsSpace(0x276F)
  {
    Spells("\U{276F}", [0x276F]);
  }

  ghost predicate NoTerminator(s: JsString) {
    forall i :: 0 <= i < |s| ==> !IsLineTerminator(s[i])
  }

  /** After `n` spaces the line has the glyph, at most one space, and the text. */
  ghost predicate ShowsAt(line: JsString, n: nat, text: JsString) {
    && n < |line| && AllSpaces(line[..n]) && line[n..n + 1] == Glyph()
    && ((line[n + 1..] == text && (text == [] || !IsSpace(text[0]))) ||
        (n + 1 < |line| && IsSpace(line[n + 1]) && line[n + 2..] == text))
  }

  ghost predicate Shows(line: JsString, text: JsString) {
    NoTerminator(text) && exists n: nat :: ShowsAt(line, n, text)
  }

  lemma PromptTextGiven(line: JsString, n: nat, text: JsString)
    requires ShowsAt(line, n, text) && NoTerminator(text)
    ensures PromptText(line) == Some(text)
  {
    GlyphIs();
    assert line[n] == line[n..n + 1][0];
    assert line == line[..n] + line[n..];
    TrimStartStops(line[..n], line[n..]);
    var s := line[n..];
    assert s[1..] == line[n + 1..];
    assert |s| > 1 ==> s[2..] == line[n + 2..] && s[1] == line[n + 1] && line[n + 1..][0] == line[n + 1];
    assert forall c :: c in text ==> !IsLineTerminator(c);
  }

  /** The input-row pattern takes exactly the lines that show a text, and takes the text. */
  lemma PromptTextExactlyWhen(line: JsString, text: JsString)
    ensures PromptText(line) == Some(text) <==> Shows(line, text)
  {
    if n: nat :| ShowsAt(line, n, text) && NoTerminator(text) {
      PromptTextGiven(line, n, text);
    }
    if PromptText(line) == Some(text) {
      var front := TrimStartTakesSpaces(line);
      GlyphIs();
      var s, n := TrimStart(line), |front|;
      assert line[..n] == front && line[n..] == s && line[n..n + 1] == [s[0]] && line[n + 1..] == s[1..];
      assert |s| > 1 ==> line[n + 2..] == s[2..] && line[n + 1] == s[1];
      assert ShowsAt(line, n, text);
      forall i | 0 <= i < |text| ensures !IsLineTerminator(text[i]) {
        assert text[i] in text;
      }
    }
  }

  /** A line that begins otherwise shows nothing. */
  lemma OtherLinesShowNothing(spaces: JsString, first: JsString, text: JsString)
    requires AllSpaces(spaces) && first != [] && !IsSpace(first[0]) && [first[0]] != Glyph()
    ensures !Shows(spaces + first, text) && PromptText(spaces + first) == None
  {
    GlyphIs();
    TrimStartStops(spaces, first);
    PromptTextExactlyWhen(spaces + first, text);
  }

  // ---- The border and the footer ----

  function BorderUnits(): JsString {
    Units("\U{2500}\U{2501}-")
  }

  lemma BorderUnitsAre(c: CodeUnit)
    ensures c in BorderUnits() <==> IsBorderUnit(c)
    ensures IsBorderUnit(c) ==> !IsSpace(c)
  {
    Spells("\U{2500}\U{2501}-", [0x2500, 0x2501, 0x2D]);
  }

  ghost predicate BorderTo(line: JsString, n: nat) {
    3 <= n <= |line| && (forall i :: 0 <= i < n ==> line[i] in BorderUnits()) && AllSpaces(line[n..])
  }

  /** Three or more border units, and spaces. */
  ghost predicate Bordered(line: JsString) {
    exists n: nat :: BorderTo(line, n)
  }

  lemma BorderExactlyWhen(line: JsString)
    ensures IsBorder(line) <==> Bordered(line)
  {
    var s := TrimEnd(line);
    if IsBorder(line) {
      var back := TrimEndTakesSpaces(line);
      forall i | 0 <= i < |s| ensures line[i] in BorderUnits() {
        BorderUnitsAre(s[i]);
        assert s[i] in s && line[i] == s[i];
      }
      assert line[|s|..] == back;
      assert BorderTo(line, |s|);
    }
    if n: nat :| BorderTo(line, n) {
      BorderUnitsAre(line[n - 1]);
      TrimEndStops(line[..n], line[n..]);
      assert line == line[..n] + line[n..];
      forall c | c in s ensures IsBorderUnit(c) {
        BorderUnitsAre(c);
      }
    }
  }

  ghost predicate LabelledAt(line: JsString, a: JsString, b: JsString) {
    line == a + Units("Context:") + b
  }

  ghost predicate Labelled(line: JsString) {
    exists a, b :: LabelledAt(line, a, b)
  }

  lemma {:induction false} ContainsWithin(a: JsString, word: JsString, b: JsString)
    ensures Contains(a + word + b, word)
  {
    var s := a + word + b;
    if a == [] {
      assert s == word + b;
    } else {
      assert s[1..] == a[1..] + word + b;
      ContainsWithin(a[1..], word, b);
    }
  }

  lemma {:induction false} ContainsSplits(s: JsString, word: JsString) returns (a: JsString, b: JsString)
    requires Contains(s, word)
    ensures s == a + word + b
  {
    if word <= s {
      a, b := [], s[|word|..];
    } else {
      a, b := ContainsSplits(s[1..], word);
      a := [s[0]] + a;
    }
  }

  lemma LabelExactlyWhen(line: JsString)
    ensures Contains(line, ContextLabel()) <==> Labelled(line)
  {
    LabelsAreSpelled();
    if Contains(line, ContextLabel()) {
      var a, b := ContainsSplits(line, ContextLabel());
      assert LabelledAt(line, a, b);
    }
    if a, b :| LabelledAt(line, a, b) {
      ContainsWithin(a, ContextLabel(), b);
    }
  }

  // ---- The live row ----

  ghost predicate LabelBelow(lines: seq<JsString>, i: nat) {
    exists k :: i + 2 <= k <= i + 4 && k < |lines| && Labelled(lines[k])
  }

  /** Line `i` shows the text, the next line is a border, and the label is in one of the
      three lines after that. */
  ghost predicate LiveAt(lines: seq<JsString>, i: nat, text: JsString) {
    i + 1 < |lines| && Shows(lines[i], text) && Bordered(lines[i + 1]) && LabelBelow(lines, i)
  }

  lemma LiveRowExactlyWhen(lines: seq<JsString>, i: nat, text: JsString)
    ensures IsLiveRow(lines, i) && PromptText(lines[i]) == Some(text) <==> LiveAt(lines, i, text)
  {
    if i + 1 < |lines| {
      PromptTextExactlyWhen(lines[i], text);
      BorderExactlyWhen(lines[i + 1]);
      forall k | 0 <= k < |lines| ensures Contains(lines[k], ContextLabel()) <==> Labelled(lines[k]) {
        LabelExactlyWhen(lines[k]);
      }
    }
  }

  ghost predicate NotLive(lines: seq<JsString>, i: nat) {
    forall text :: !LiveAt(lines, i, text)
  }

  /** No live row below line `i`. */
  ghost predicate LastLive(lines: seq<JsString>, i: nat, text: JsString) {
    LiveAt(lines, i, text) && forall j: nat :: i < j < |lines| ==> NotLive(lines, j)
  }

  lemma NotLiveExactlyWhen(lines: seq<JsString>, i: nat)
    ensures NotLive(lines, i) <==> !IsLiveRow(lines, i)
  {
    if IsLiveRow(lines, i) {
      var text := PromptText(lines[i]).value;
      LiveRowExactlyWhen(lines, i, text);
      assert LiveAt(lines, i, text);
    } else {
      forall text ensures !LiveAt(lines, i, text) {
        LiveRowExactlyWhen(lines, i, text);
      }
    }
  }

  /** The input line of a capture is the text of its last live row, trimmed at the end. */
  lemma InputLineIsLast(lines: seq<JsString>, i: nat, text: JsString)
    requires AreLines(lines) && LastLive(lines, i, text)
    ensures InputLine(Join(lines)) == Some(TrimEnd(text))
  {
    SplitJoin(lines);
    LiveRowExactlyWhen(lines, i, text);
    var row := LastIndex(|lines|, LiveRows(lines));
    assert LiveRows(lines)(i);
    if row.value != i {
      NotLiveExactlyWhen(lines, row.value);
    }
  }

  /** A capture without a live row has none, and only such a capture. */
  lemma UnreadableExactlyWhen(lines: seq<JsString>)
    requires AreLines(lines)
    ensures InputLine(Join(lines)) == None <==> forall i: nat :: i < |lines| ==> NotLive(lines, i)
  {
    SplitJoin(lines);
    var row := LastIndex(|lines|, LiveRows(lines));
    forall i: nat ensures NotLive(lines, i) <==> !LiveRows(lines)(i) {
      NotLiveExactlyWhen(lines, i);
    }
    if row.Some? {
      assert !NotLive(lines, row.value);
    }
  }

  // ---- The pane as it is drawn ----

  /** A footer line that cannot be mistaken for an input row. */
  ghost predicate Plain(line: JsString) {
    forall text :: !Shows(line, text)
  }

  lemma BorderShowsNothing(line: JsString)
    requires Bordered(line)
    ensures Plain(line)
  {
    var n: nat :| BorderTo(line, n);
    GlyphIs();
    BorderUnitsAre(line[0]);
    forall text ensures !Shows(line, text) {
      assert [] + line == line;
      OtherLinesShowNothing([], line, text);
    }
  }

  /** The glyph, one space and a text, after any spaces. */
  function Row(spaces: JsString, text: JsString): JsString {
    spaces + Glyph() + Units(" ") + text
  }

  lemma RowShows(spaces: JsString, text: JsString)
    requires AllSpaces(spaces) && NoTerminator(text)
    ensures Shows(Row(spaces, text), text)
  {
    var row, n := Row(spaces, text), |spaces|;
    GlyphIs();
    Spells(" ", [0x20]);
    assert row[..n] == spaces && row[n..n + 1] == Glyph() && row[n + 1] == 0x20 && row[n + 2..] == text;
    assert ShowsAt(row, n, text);
  }

  ghost predicate Footer(footer: seq<JsString>) {
    && |footer| <= 3
    && (exists k :: 0 <= k < |footer| && Labelled(footer[k]))
    && forall j :: 0 <= j < |footer| ==> Plain(footer[j])
  }

  lemma DrawnIsLast(above: seq<JsString>, row: JsString, border: JsString, footer: seq<JsString>, text: JsString)
    requires Shows(row, text) && Bordered(border) && Footer(footer)
    ensures LastLive(above + [row, border] + footer, |above|, text)
  {
    var lines, i := above + [row, border] + footer, |above|;
    assert lines[i] == row && lines[i + 1] == border;
    var k :| 0 <= k < |footer| && Labelled(footer[k]);
    assert lines[i + 2 + k] == footer[k];
    BorderShowsNothing(border);
    forall j: nat | i < j < |lines| ensures NotLive(lines, j) {
      assert j > i + 1 ==> lines[j] == footer[j - i - 2];
      assert Plain(lines[j]);
    }
  }

  /** Whatever is above: an input row with a text, a border below it, and one to three plain
      footer lines, one of them with the label, are read as that text. */
  lemma DrawnPaneIsRead(above: seq<JsString>, spaces: JsString, text: JsString, border: JsString,
                        footer: seq<JsString>)
    requires AllSpaces(spaces) && NoTerminator(text) && Bordered(border) && Footer(footer)
    requires AreLines(above + [Row(spaces, text), border] + footer)
    ensures InputLine(Join(above + [Row(spaces, text), border] + footer)) == Some(TrimEnd(text))
  {
    RowShows(spaces, text);
    DrawnIsLast(above, Row(spaces, text), border, footer, text);
    InputLineIsLast(above + [Row(spaces, text), border] + footer, |above|, text);
  }

  // ---- What counts as landed, and as ready ----

  /** A submit landed if the line is empty or begins with the hint; an unreadable line says
      nothing. */
  lemma LandedExactlyWhen(line: Option<JsString>)
    ensures IndicatesLanded(line) <==>
              line.Some? && (line.value == [] || Units("Press up to edit ") <= line.value)
  {
    LabelsAreSpelled();
  }

  ghost predicate ReadyAt(content: JsString, a: JsString, spaces: JsString) {
    content == a + Units(">") + spaces && AllSpaces(spaces)
  }

  /** A pane is ready if it ends with the prompt sign, up to spaces. */
  lemma ReadyExactlyWhen(content: JsString)
    ensures IsInputPromptReady(content) <==> exists a, spaces :: ReadyAt(content, a, spaces)
  {
    Spells(">", [0x3E]);
    if IsInputPromptReady(content) {
      var spaces := TrimEndTakesSpaces(content);
      var s := TrimEnd(content);
      assert s == s[..|s| - 1] + [0x3E];
      assert ReadyAt(content, s[..|s| - 1], spaces);
    }
    if a, spaces :| ReadyAt(content, a, spaces) {
      TrimEndStops(a + [0x3E], spaces);
    }
  }
}
