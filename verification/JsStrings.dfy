/** JavaScript strings: sequences of UTF-16 code units, with the whitespace class of
    the regular expression `\s` and the default order of Array.prototype.sort. */
module JsStrings {
  type CodeUnit = x: int | 0 <= x < 0x1_0000
  type JsString = seq<CodeUnit>

  /** White space and line terminators of ECMAScript. */
  predicate IsSpace(c: CodeUnit) {
    || 0x09 <= c <= 0x0D || c == 0x20 || c == 0xA0 || c == 0x1680
    || 0x2000 <= c <= 0x200A || c == 0x2028 || c == 0x2029 || c == 0x202F
    || c == 0x205F || c == 0x3000 || c == 0xFEFF
  }

  /** The class in full. */
  lemma SpacesAre(c: CodeUnit)
    ensures IsSpace(c) <==> c in {0x09, 0x0A, 0x0B, 0x0C, 0x0D, 0x20, 0xA0, 0x1680,
                                  0x2000, 0x2001, 0x2002, 0x2003, 0x2004, 0x2005, 0x2006, 0x2007, 0x2008, 0x2009,
                                  0x200A, 0x2028, 0x2029, 0x202F, 0x205F, 0x3000, 0xFEFF}
  {
  }

  /** The line terminators that `.` does not match. */
  predicate IsLineTerminator(c: CodeUnit) {
    c == 0x0A || c == 0x0D || c == 0x2028 || c == 0x2029
  }

  function TrimStart(s: JsString): JsString {
    if s != [] && IsSpace(s[0]) then TrimStart(s[1..]) else s
  }

  ghost predicate AllSpaces(s: JsString) {
    forall i :: 0 <= i < |s| ==> IsSpace(s[i])
  }

  /** What is left begins with no space, and only spaces were taken. */
  lemma {:induction false} TrimStartTakesSpaces(s: JsString) returns (front: JsString)
    ensures s == front + TrimStart(s) && AllSpaces(front)
    ensures TrimStart(s) == [] || !IsSpace(TrimStart(s)[0])
  {
    front := [];
    if s != [] && IsSpace(s[0]) {
      front := TrimStartTakesSpaces(s[1..]);
      front := [s[0]] + front;
    }
  }

  function TrimEnd(s: JsString): JsString {
    if s != [] && IsSpace(s[|s| - 1]) then TrimEnd(s[..|s| - 1]) else s
  }

  lemma {:induction false} TrimEndTakesSpaces(s: JsString) returns (back: JsString)
    ensures s == TrimEnd(s) + back && AllSpaces(back)
    ensures TrimEnd(s) == [] || !IsSpace(TrimEnd(s)[|TrimEnd(s)| - 1])
  {
    back := [];
    if s != [] && IsSpace(s[|s| - 1]) {
      back := TrimEndTakesSpaces(s[..|s| - 1]);
      back := back + [s[|s| - 1]];
    }
  }

  function Trim(s: JsString): JsString {
    TrimEnd(TrimStart(s))
  }

  /** Trimming takes the spaces at both ends, and nothing else. */
  lemma TrimTakesSpaces(s: JsString) returns (front: JsString, back: JsString)
    ensures s == front + Trim(s) + back && AllSpaces(front) && AllSpaces(back)
    ensures Trim(s) == [] || (!IsSpace(Trim(s)[0]) && !IsSpace(Trim(s)[|Trim(s)| - 1]))
  {
    front := TrimStartTakesSpaces(s);
    back := TrimEndTakesSpaces(TrimStart(s));
  }

  /** Lexicographic order on code units. */
  predicate Below(a: JsString, b: JsString) {
    a == [] || (b != [] && (a[0] < b[0] || (a[0] == b[0] && Below(a[1..], b[1..]))))
  }

  lemma {:induction false} BelowTotal(a: JsString, b: JsString)
    ensures Below(a, b) || Below(b, a)
    ensures Below(a, b) && Below(b, a) ==> a == b
  {
    if a != [] && b != [] && a[0] == b[0] {
      BelowTotal(a[1..], b[1..]);
      assert a == [a[0]] + a[1..] && b == [b[0]] + b[1..];
    }
  }

  lemma {:induction false} BelowTransitive(a: JsString, b: JsString, c: JsString)
    requires Below(a, b) && Below(b, c)
    ensures Below(a, c)
  {
    if a != [] && b != [] && c != [] && a[0] == b[0] == c[0] {
      BelowTransitive(a[1..], b[1..], c[1..]);
    }
  }

  // ---- Sorting ----

  ghost predicate Sorted(s: seq<JsString>) {
    forall i, j :: 0 <= i < j < |s| ==> Below(s[i], s[j])
  }

  function Insert(x: JsString, s: seq<JsString>): seq<JsString> {
    if s == [] || Below(x, s[0]) then [x] + s else [s[0]] + Insert(x, s[1..])
  }

  function Sort(s: seq<JsString>): seq<JsString> {
    if s == [] then [] else Insert(s[0], Sort(s[1..]))
  }

  lemma {:induction false} InsertSorts(x: JsString, s: seq<JsString>)
    requires Sorted(s)
    ensures Sorted(Insert(x, s)) && multiset(Insert(x, s)) == multiset(s) + multiset{x}
  {
    if s == [] {
    } else if Below(x, s[0]) {
      forall j | 0 <= j < |s| ensures Below(x, s[j]) {
        if j > 0 { BelowTransitive(x, s[0], s[j]); }
      }
    } else {
      BelowTotal(x, s[0]);
      InsertSorts(x, s[1..]);
      var r := Insert(x, s[1..]);
      assert s == [s[0]] + s[1..];
      forall j | 0 <= j < |r| ensures Below(s[0], r[j]) {
        assert r[j] in multiset(r);
        assert r[j] == x || r[j] in s[1..];
      }
    }
  }

  lemma {:induction false} SortSorts(s: seq<JsString>)
    ensures Sorted(Sort(s)) && multiset(Sort(s)) == multiset(s)
  {
    if s != [] {
      SortSorts(s[1..]);
      InsertSorts(s[0], Sort(s[1..]));
      assert s == [s[0]] + s[1..];
    }
  }

  lemma SortedHead(s: seq<JsString>, x: JsString)
    requires Sorted(s) && x in multiset(s)
    ensures s != [] && Below(s[0], x)
  {
    var i :| 0 <= i < |s| && s[i] == x;
    BelowTotal(s[0], s[0]);
  }

  lemma SameHead(a: seq<JsString>, b: seq<JsString>)
    requires Sorted(a) && Sorted(b) && multiset(a) == multiset(b) && a != []
    ensures b != [] && a[0] == b[0]
  {
    assert a[0] in multiset(b);
    SortedHead(b, a[0]);
    assert b[0] in multiset(a);
    SortedHead(a, b[0]);
    BelowTotal(a[0], b[0]);
  }

  lemma Tail<T>(s: seq<T>)
    requires s != []
    ensures s == [s[0]] + s[1..] && multiset(s[1..]) == multiset(s) - multiset{s[0]}
  {
    assert s == [s[0]] + s[1..];
  }

  /** A multiset has one sorted listing. */
  lemma {:induction false} SortedUnique(a: seq<JsString>, b: seq<JsString>)
    requires Sorted(a) && Sorted(b) && multiset(a) == multiset(b)
    ensures a == b
  {
    if a == [] {
      assert |multiset(b)| == 0;
    } else {
      SameHead(a, b);
      Tail(a);
      Tail(b);
      SortedUnique(a[1..], b[1..]);
    }
  }

  /** Sorting forgets order and nothing else. */
  lemma SortCanonical(a: seq<JsString>, b: seq<JsString>)
    ensures Sort(a) == Sort(b) <==> multiset(a) == multiset(b)
  {
    SortSorts(a);
    SortSorts(b);
    if multiset(a) == multiset(b) {
      SortedUnique(Sort(a), Sort(b));
    }
  }
}
