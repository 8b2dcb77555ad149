/** Which messages share a deduplication key without being alike
    (deduplicationKey in daemon/src/agents/message-router.ts). */
module MessageKeys {
  import opened Wrappers
  import opened JsStrings
  import opened MessageDedup

  // ---- Parts joined by colons ----

  lemma Parts(a: JsString, x: JsString)
    ensures var l := a + [COLON] + x; l[..|a|] == a && l[|a|] == COLON && l[|a| + 1..] == x
  {
  }

  lemma NoColonBefore(a: JsString, x: JsString)
    requires COLON !in a
    ensures forall i :: 0 <= i < |a| ==> (a + [COLON] + x)[i] != COLON
  {
    forall i | 0 <= i < |a| ensures (a + [COLON] + x)[i] != COLON {
      assert a[i] in a;
    }
  }

  /** Two readings of one text: either the first parts are the same, or the second one
      starts with the first and a colon. */
  lemma FirstColon(a: JsString, x: JsString, b: JsString, y: JsString) returns (b2: JsString)
    requires COLON !in a && a + [COLON] + x == b + [COLON] + y
    ensures (b == a && y == x) || (b == a + [COLON] + b2 && x == b2 + [COLON] + y)
  {
    var l := a + [COLON] + x;
    Parts(a, x);
    Parts(b, y);
    NoColonBefore(a, x);
    assert |b| >= |a|;
    if |b| == |a| {
      b2 := [];
    } else {
      b2 := b[|a| + 1..];
      assert b == l[..|b|];
      assert b[..|a|] == l[..|a|] && b[|a|] == l[|a|];
      assert b == b[..|a|] + [b[|a|]] + b2;
      assert l == b + ([COLON] + y) && l[|a| + 1..] == b2 + ([COLON] + y);
    }
  }

  /** A place in a text where a part begins. */
  predicate PartBegins(p: JsString, i: nat)
    requires i <= |p|
  {
    i == 0 || p[i - 1] == COLON
  }

  /** Some part of the text, closed by a colon, is one of the names. */
  ghost predicate HasNamedPart(p: JsString, names: set<JsString>) {
    exists i: nat, name :: NamedPartAt(p, names, i, name)
  }

  ghost predicate NamedPartAt(p: JsString, names: set<JsString>, i: nat, name: JsString) {
    i <= |p| && PartBegins(p, i) && name in names && name + [COLON] <= p[i..]
  }

  /** A text that is read as a part, a name and a rest. */
  lemma NamedPartAfter(u: JsString, name: JsString, rest: JsString, names: set<JsString>)
    requires name in names && (u == [] || u[|u| - 1] == COLON)
    ensures HasNamedPart(u + (name + [COLON] + rest), names)
  {
    var p := u + (name + [COLON] + rest);
    assert p[|u|..] == name + [COLON] + rest;
    assert NamedPartAt(p, names, |u|, name);
  }

  /** The name and text of one message, read as parts, a name and a text of another. */
  lemma NameInText(name: JsString, p: JsString, parts: JsString, other: JsString, q: JsString, names: set<JsString>)
    requires COLON !in name && other in names
    requires name + [COLON] + p == parts + [COLON] + (other + [COLON] + q)
    ensures HasNamedPart(p, names)
  {
    var tail := other + [COLON] + q;
    var deeper := FirstColon(name, p, parts, tail);
    if parts == name && tail == p {
      NamedPartAfter([], other, q, names);
      assert [] + tail == tail;
    } else {
      NamedPartAfter(deeper + [COLON], other, q, names);
      assert deeper + [COLON] + tail == (deeper + [COLON]) + tail;
    }
  }

  // ---- Keys of four parts ----

  function Key4(a: JsString, b: JsString, name: JsString, p: JsString): JsString {
    a + [COLON] + (b + [COLON] + (name + [COLON] + p))
  }

  lemma Joined(a: JsString, b: JsString, rest: JsString)
    ensures (a + [COLON] + b) + [COLON] + rest == a + [COLON] + (b + [COLON] + rest)
  {
    assert (a + [COLON] + b) + [COLON] + rest == a + [COLON] + b + [COLON] + rest;
  }

  /** With the same sender, a different target shows in the text. */
  lemma OtherTarget(b: JsString, name: JsString, p: JsString, b2: JsString, name2: JsString, q: JsString,
                    names: set<JsString>)
    requires COLON !in b && COLON !in name && COLON !in name2 && name2 in names
    requires b + [COLON] + (name + [COLON] + p) == b2 + [COLON] + (name2 + [COLON] + q)
    ensures (b2 == b && name2 == name && q == p) || HasNamedPart(p, names)
  {
    var deeper := FirstColon(b, name + [COLON] + p, b2, name2 + [COLON] + q);
    if b2 == b && name2 + [COLON] + q == name + [COLON] + p {
      SplitAtColon(name, p, name2, q);
    } else {
      NameInText(name, p, deeper, name2, q, names);
    }
  }

  /** A sender that runs past the first colon shows in the text. */
  lemma LongerSender(b: JsString, name: JsString, p: JsString, a2: JsString, b2: JsString,
                     name2: JsString, q: JsString, names: set<JsString>)
    requires COLON !in b && COLON !in name && name2 in names
    requires b + [COLON] + (name + [COLON] + p) == a2 + [COLON] + (b2 + [COLON] + (name2 + [COLON] + q))
    ensures HasNamedPart(p, names)
  {
    var tail := b2 + [COLON] + (name2 + [COLON] + q);
    var deeper := FirstColon(b, name + [COLON] + p, a2, tail);
    if a2 == b && tail == name + [COLON] + p {
      NameInText(name, p, b2, name2, q, names);
    } else {
      Joined(deeper, b2, name2 + [COLON] + q);
      NameInText(name, p, deeper + [COLON] + b2, name2, q, names);
    }
  }

  /** Without colons in sender and target, two readings of a key differ only if the text
      has a named part. */
  lemma TwoReadings(a: JsString, b: JsString, name: JsString, p: JsString,
                    a2: JsString, b2: JsString, name2: JsString, q: JsString, names: set<JsString>)
    requires COLON !in a && COLON !in b && COLON !in name && COLON !in name2 && name2 in names
    requires Key4(a, b, name, p) == Key4(a2, b2, name2, q)
    ensures (a2 == a && b2 == b && name2 == name && q == p) || HasNamedPart(p, names)
  {
    var rest, rest2 := b + [COLON] + (name + [COLON] + p), b2 + [COLON] + (name2 + [COLON] + q);
    var deeper := FirstColon(a, rest, a2, rest2);
    if a2 == a && rest2 == rest {
      OtherTarget(b, name, p, b2, name2, q, names);
    } else {
      LongerSender(b, name, p, deeper, b2, name2, q, names);
    }
  }

  /** The other reading of a key whose text has a named part. */
  lemma SecondReading(a: JsString, b: JsString, name: JsString, p: JsString, names: set<JsString>)
    returns (b2: JsString, name2: JsString, q: JsString)
    requires HasNamedPart(p, names)
    ensures name2 in names && |q| < |p|
    ensures Key4(a + [COLON] + b, b2, name2, q) == Key4(a, b, name, p)
  {
    var i: nat, other :| NamedPartAt(p, names, i, other);
    name2 := other;
    q := p[i..][|other| + 1..];
    assert p[i..] == (other + [COLON]) + q;
    if i == 0 {
      b2 := name;
      assert p == other + [COLON] + q;
    } else {
      var u := p[..i - 1];
      b2 := name + [COLON] + u;
      assert p == u + [COLON] + p[i..];
      Joined(name, u, p[i..]);
    }
    Joined(a, b, b2 + [COLON] + (name2 + [COLON] + q));
  }

  // ---- Requests ----

  function TypeNames(): set<JsString> {
    set kind: MessageType :: TypeName(kind)
  }

  /** Alike as far as deduplication is meant to tell. */
  ghost predicate Alike(a: Request, b: Request) {
    a.from == b.from && a.to == b.to && a.kind == b.kind && Prefix(a.body) == Prefix(b.body)
  }

  ghost predicate Shares(a: Request, b: Request) {
    a.kind.Some? && b.kind.Some? && DeduplicationKey(a) == DeduplicationKey(b)
  }

  /** Some part of the first 200 units of the body is the name of a message type. */
  ghost predicate Imitates(body: JsString) {
    HasNamedPart(Prefix(body), TypeNames())
  }

  lemma KeyIsFourParts(r: Request)
    requires r.kind.Some?
    ensures DeduplicationKey(r) == Key4(r.from, r.to, TypeName(r.kind.value), Prefix(r.body))
    ensures TypeName(r.kind.value) in TypeNames() && COLON !in TypeName(r.kind.value)
  {
    NamesHaveNoColon(r.kind.value);
  }

  lemma SameParts(a: Request, b: Request)
    requires a.kind.Some? && b.kind.Some? && TypeName(a.kind.value) == TypeName(b.kind.value)
    ensures a.kind == b.kind
  {
    NamesDiffer(a.kind.value, b.kind.value);
  }

  lemma SharingShows(a: Request, b: Request)
    requires COLON !in a.from && COLON !in a.to
    ensures Shares(a, b) && !Alike(a, b) ==> Imitates(a.body)
  {
    if Shares(a, b) && !Alike(a, b) {
      KeyIsFourParts(a);
      KeyIsFourParts(b);
      TwoReadings(a.from, a.to, TypeName(a.kind.value), Prefix(a.body),
                  b.from, b.to, TypeName(b.kind.value), Prefix(b.body), TypeNames());
      if TypeName(b.kind.value) == TypeName(a.kind.value) {
        SameParts(a, b);
      }
    }
  }

  lemma ImitatorShares(a: Request) returns (b: Request)
    requires a.kind.Some? && Imitates(a.body)
    ensures Shares(a, b) && !Alike(a, b)
  {
    KeyIsFourParts(a);
    var to, name, q := SecondReading(a.from, a.to, TypeName(a.kind.value), Prefix(a.body), TypeNames());
    var kind: MessageType :| TypeName(kind) == name;
    b := Request(a.from + [COLON] + a.to, to, Some(kind), q);
    KeyIsFourParts(b);
    assert Prefix(q) == q;
    assert |b.from| > |a.from|;
  }

  /** The first colon of a name moves the border between sender and target. */
  lemma ColonShares(a: Request) returns (b: Request)
    requires a.kind.Some? && (COLON in a.from || COLON in a.to)
    ensures Shares(a, b) && !Alike(a, b)
  {
    if i :| 0 <= i < |a.from| && a.from[i] == COLON {
      var x, y := a.from[..i], a.from[i + 1..];
      assert a.from == x + [COLON] + y;
      b := Request(x, y + [COLON] + a.to, a.kind, a.body);
      ColonsCollide(x, y, a.to, a.kind.value, a.body);
    } else {
      var i :| 0 <= i < |a.to| && a.to[i] == COLON;
      var y, z := a.to[..i], a.to[i + 1..];
      assert a.to == y + [COLON] + z;
      b := Request(a.from + [COLON] + y, z, a.kind, a.body);
      ColonsCollide(a.from, y, z, a.kind.value, a.body);
    }
  }

  /** A message shares its key with one of another sender, target, type or text exactly
      when its sender or target holds a colon, or a part of the first 200 units of its
      body, closed by a colon, is the name of a message type. */
  lemma CollidesExactlyWhen(a: Request)
    requires a.kind.Some?
    ensures (exists b :: Shares(a, b) && !Alike(a, b))
       <==> COLON in a.from || COLON in a.to || Imitates(a.body)
  {
    if COLON in a.from || COLON in a.to {
      var b := ColonShares(a);
    } else if Imitates(a.body) {
      var b := ImitatorShares(a);
    } else {
      forall b | Shares(a, b) && !Alike(a, b) ensures false {
        SharingShows(a, b);
      }
    }
  }

  /** An example without a colon in a name: "a" tells "b" the text "text:hi", and "a:b"
      tells "text" the text "hi". */
  lemma BodiesCollide()
    ensures var a := Request([0x61], [0x62], Some(Text), TypeName(Text) + [COLON] + [0x68, 0x69]);
            var b := Request([0x61, COLON, 0x62], TypeName(Text), Some(Text), [0x68, 0x69]);
            Shares(a, b) && !Alike(a, b)
  {
    var n := TypeName(Text);
    assert |n| == |Word(Text)| == 4;
    var x: JsString, y: JsString, hi: JsString := [0x61], [0x62], [0x68, 0x69];
    Joined(x, y, n + [COLON] + (n + [COLON] + hi));
    assert x + [COLON] + y == [0x61, COLON, 0x62];
    var p := n + [COLON] + hi;
    assert |p| == 7 && Prefix(p) == p && Prefix(hi) == hi;
  }
}
