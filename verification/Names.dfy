/** The order of strings, and iteration over the keys of a `BTreeMap` in that order. */
module Names {

  /** Lexicographic order by code point, which for UTF-8 is the order of the bytes. */
  predicate Less(a: string, b: string) {
    if b == "" then false
    else if a == "" then true
    else a[0] < b[0] || (a[0] == b[0] && Less(a[1..], b[1..]))
  }

  /** `a` comes first in the alphabet: it ends where `b` goes on, or the first character in which
      they differ is smaller. */
  ghost predicate Alphabetical(a: string, b: string) {
    exists k: nat :: DiffersAt(a, b, k)
  }

  ghost predicate DiffersAt(a: string, b: string, k: nat) {
    && k <= |a| && k < |b|
    && (forall i | 0 <= i < k :: a[i] == b[i])
    && (k < |a| ==> a[k] < b[k])
  }

  lemma {:induction false} LessIsAlphabetical(a: string, b: string)
    ensures Less(a, b) <==> Alphabetical(a, b)
  {
    if b != "" && a != "" {
      LessIsAlphabetical(a[1..], b[1..]);
      if a[0] < b[0] {
        assert DiffersAt(a, b, 0);
      } else if a[0] == b[0] {
        if k: nat :| DiffersAt(a[1..], b[1..], k) {
          assert forall i | 0 < i < k + 1 :: a[i] == a[1..][i - 1] && b[i] == b[1..][i - 1];
          assert DiffersAt(a, b, k + 1);
        }
        if k: nat :| DiffersAt(a, b, k) {
          assert k > 0 && DiffersAt(a[1..], b[1..], k - 1);
        }
      }
    } else if b != "" {
      assert DiffersAt(a, b, 0);
    }
  }

  lemma {:induction false} LessIrreflexive(a: string)
    ensures !Less(a, a)
  {
    if a != "" { LessIrreflexive(a[1..]); }
  }

  lemma {:induction false} LessTransitive(a: string, b: string, c: string)
    requires Less(a, b) && Less(b, c)
    ensures Less(a, c)
  {
    if a != "" && a[0] == b[0] && b[0] == c[0] { LessTransitive(a[1..], b[1..], c[1..]); }
  }

  lemma {:induction false} LessTotal(a: string, b: string)
    ensures Less(a, b) || a == b || Less(b, a)
  {
    if a != "" && b != "" && a[0] == b[0] {
      LessTotal(a[1..], b[1..]);
      if a[1..] == b[1..] {
        assert a == [a[0]] + a[1..] && b == [b[0]] + b[1..];
      }
    }
  }

  lemma {:induction false} LessAsymmetric(a: string, b: string)
    requires Less(a, b)
    ensures !Less(b, a) && a != b
  {
    LessIrreflexive(a);
    if Less(b, a) { LessTransitive(a, b, a); }
  }

  ghost predicate IsFirst(m: string, s: set<string>) {
    m in s && forall x | x in s && x != m :: Less(m, x)
  }

  lemma {:induction false} FirstExists(s: set<string>)
    requires s != {}
    ensures exists m :: IsFirst(m, s)
  {
    var x :| x in s;
    var rest := s - {x};
    if rest == {} {
      assert forall y | y in s :: y == x || y in rest;
      assert IsFirst(x, s);
    } else {
      FirstExists(rest);
      var m :| IsFirst(m, rest);
      LessTotal(x, m);
      if Less(x, m) {
        forall y | y in s && y != x ensures Less(x, y) {
          if y != m { LessTransitive(x, m, y); }
        }
        assert IsFirst(x, s);
      } else {
        assert IsFirst(m, s);
      }
    }
  }

  lemma {:induction false} FirstUnique(m: string, n: string, s: set<string>)
    requires IsFirst(m, s) && IsFirst(n, s)
    ensures m == n
  {
    if m != n { LessAsymmetric(m, n); }
  }

  ghost function First(s: set<string>): (m: string)
    requires s != {}
    ensures IsFirst(m, s)
  {
    FirstExists(s);
    var m :| IsFirst(m, s);
    m
  }

  ghost predicate Ascending(names: seq<string>) {
    forall i, j | 0 <= i < j < |names| :: Less(names[i], names[j])
  }

  /** The keys of a map in ascending order. */
  method SortedNames(s: set<string>) returns (names: seq<string>)
    ensures Ascending(names)
    ensures forall x :: x in names <==> x in s
  {
    names := [];
    var rest := s;
    while rest != {}
      invariant rest <= s
      invariant Ascending(names)
      invariant forall x :: x in s <==> x in names || x in rest
      invariant forall i, x | 0 <= i < |names| && x in rest :: Less(names[i], x)
      decreases |rest|
    {
      var m := TakeFirst(rest);
      names := names + [m];
      rest := rest - {m};
    }
  }

  method TakeFirst(s: set<string>) returns (m: string)
    requires s != {}
    ensures IsFirst(m, s)
  {
    m :| m in s;
    var rest := s - {m};
    while rest != {}
      invariant rest <= s && m in s && m !in rest
      invariant forall x | x in s && x != m && x !in rest :: Less(m, x)
      decreases |rest|
    {
      var y :| y in rest;
      LessTotal(y, m);
      if Less(y, m) {
        forall x | x in s && x != y && x !in rest - {y} ensures Less(y, x) {
          if x != m { LessTransitive(y, m, x); }
        }
        m := y;
      }
      rest := rest - {y};
    }
  }
}
