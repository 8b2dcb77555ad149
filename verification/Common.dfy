/** Vocabulary shared by the modules: optional values, and facts about the order
    of elements in sequences. */
module Wrappers {
  datatype Option<+T> = None | Some(value: T)
}

module Sequences {

  predicate NoDuplicates<T(==)>(s: seq<T>) {
    forall i, j :: 0 <= i < j < |s| ==> s[i] != s[j]
  }

  /** `a` arises from `b` by deleting elements: order and multiplicity are kept. */
  predicate Subsequence<T(==)>(a: seq<T>, b: seq<T>) {
    if a == [] then true
    else if b == [] then false
    else
      || (a[|a| - 1] == b[|b| - 1] && Subsequence(a[..|a| - 1], b[..|b| - 1]))
      || Subsequence(a, b[..|b| - 1])
  }

  lemma SubsequenceSnoc<T>(a: seq<T>, b: seq<T>, x: T)
    requires Subsequence(a, b)
    ensures Subsequence(a + [x], b + [x])
    ensures Subsequence(a, b + [x])
  {
    assert (a + [x])[..|a|] == a && (b + [x])[..|b|] == b;
  }

  lemma {:induction false} SubsequencePrefix<T>(a: seq<T>, c: seq<T>, b: seq<T>)
    requires Subsequence(a + c, b)
    ensures Subsequence(a, b)
    decreases |b|
  {
    if a != [] {
      var ac, b' := a + c, b[..|b| - 1];
      if ac[|ac| - 1] == b[|b| - 1] && Subsequence(ac[..|ac| - 1], b') {
        if c == [] {
          assert ac == a;
        } else {
          assert ac[..|ac| - 1] == a + c[..|c| - 1];
          SubsequencePrefix(a, c[..|c| - 1], b');
        }
      } else {
        SubsequencePrefix(a, c, b');
      }
    }
  }

  /** Deleting one more element keeps a subsequence. */
  lemma {:induction false} SubsequenceDelete<T>(a: seq<T>, x: T, c: seq<T>, b: seq<T>)
    requires Subsequence(a + [x] + c, b)
    ensures Subsequence(a + c, b)
    decreases |b|
  {
    var axc, ac, b' := a + [x] + c, a + c, b[..|b| - 1];
    if axc[|axc| - 1] == b[|b| - 1] && Subsequence(axc[..|axc| - 1], b') {
      if c == [] {
        assert axc[..|axc| - 1] == a == ac;
      } else {
        var c' := c[..|c| - 1];
        assert axc[..|axc| - 1] == a + [x] + c';
        assert ac[..|ac| - 1] == a + c';
        SubsequenceDelete(a, x, c', b');
      }
    } else {
      SubsequenceDelete(a, x, c, b');
    }
  }

  /** What a subsequence means for positions: earlier in `a` is earlier in `b`. */
  lemma {:induction false} SubsequenceOrder<T>(a: seq<T>, b: seq<T>, i: nat, j: nat) returns (p: nat, q: nat)
    requires Subsequence(a, b) && i < j < |a|
    ensures p < q < |b| && b[p] == a[i] && b[q] == a[j]
    decreases |b|
  {
    var a', b' := a[..|a| - 1], b[..|b| - 1];
    if a[|a| - 1] == b[|b| - 1] && Subsequence(a', b') {
      if j < |a| - 1 {
        p, q := SubsequenceOrder(a', b', i, j);
      } else {
        p := SubsequenceMember(a', b', i);
        q := |b| - 1;
      }
    } else {
      p, q := SubsequenceOrder(a, b', i, j);
    }
  }

  lemma {:induction false} SubsequenceMember<T>(a: seq<T>, b: seq<T>, i: nat) returns (p: nat)
    requires Subsequence(a, b) && i < |a|
    ensures p < |b| && b[p] == a[i]
    decreases |b|
  {
    var a', b' := a[..|a| - 1], b[..|b| - 1];
    if a[|a| - 1] == b[|b| - 1] && Subsequence(a', b') {
      if i < |a| - 1 {
        p := SubsequenceMember(a', b', i);
      } else {
        p := |b| - 1;
      }
    } else {
      p := SubsequenceMember(a, b', i);
    }
  }

  lemma {:induction false} SubsequenceNoDuplicates<T>(a: seq<T>, b: seq<T>)
    requires Subsequence(a, b) && NoDuplicates(b)
    ensures NoDuplicates(a)
  {
    forall i, j | 0 <= i < j < |a| ensures a[i] != a[j] {
      var p, q := SubsequenceOrder(a, b, i, j);
    }
  }
}
