/** Lists in a strict order. */
module Ordered {

  ghost predicate Strictly<T>(less: (T, T) -> bool, s: seq<T>) {
    forall i, j | 0 <= i < j < |s| :: less(s[i], s[j])
  }

  /** Two lists in strict order with the same elements are the same list. */
  lemma {:induction false} Unique<T>(less: (T, T) -> bool, a: seq<T>, b: seq<T>)
    requires forall x, y | x in a && y in a :: less(x, y) ==> !less(y, x)
    requires Strictly(less, a) && Strictly(less, b)
    requires forall x :: x in a <==> x in b
    ensures a == b
  {
    assert a != [] ==> a[0] in a;
    assert b != [] ==> b[0] in b;
    if a != [] {
      SameHead(less, a, b);
      forall x ensures x in a[1..] <==> x in b[1..] {
        InTail(less, a, x);
        InTail(less, b, x);
      }
      Unique(less, a[1..], b[1..]);
      assert a == [a[0]] + a[1..] && b == [b[0]] + b[1..];
    }
  }

  lemma {:induction false} SameHead<T>(less: (T, T) -> bool, a: seq<T>, b: seq<T>)
    requires forall x, y | x in a && y in a :: less(x, y) ==> !less(y, x)
    requires Strictly(less, a) && Strictly(less, b) && a != [] && b != []
    requires forall x :: x in a <==> x in b
    ensures a[0] == b[0]
  {
    assert a[0] in b && b[0] in a;
    var i :| 0 <= i < |b| && b[i] == a[0];
    var j :| 0 <= j < |a| && a[j] == b[0];
  }

  lemma {:induction false} InTail<T>(less: (T, T) -> bool, a: seq<T>, x: T)
    requires forall x, y | x in a && y in a :: less(x, y) ==> !less(y, x)
    requires Strictly(less, a) && a != []
    ensures x in a[1..] <==> x in a && x != a[0]
  {
    if x in a[1..] {
      var i :| 0 <= i < |a| - 1 && a[1..][i] == x;
      assert less(a[0], a[i + 1]);
    }
    if x in a && x != a[0] {
      var i :| 0 <= i < |a| && a[i] == x;
      assert a[1..][i - 1] == x;
    }
  }
}
