/** First-fit assignment of indices to demands. */
module Greedy {
  // The five loops of `match_tx` are instances. A demand says which indices may
  // serve it; demands are served in order, each from the indices that earlier demands left free.

  import opened Base

  lemma {:induction false} LeastExists(s: set<nat>, x: nat)
    requires x in s
    ensures exists m :: m in s && forall y | y in s :: m <= y
    decreases x
  {
    if !(forall y | y in s :: x <= y) {
      var y :| y in s && y < x;
      LeastExists(s, y);
    }
  }

  ghost function Least(s: set<nat>): (m: nat)
    requires s != {}
    ensures m in s && forall x | x in s :: m <= x
  {
    var x :| x in s;
    LeastExists(s, x);
    var m :| m in s && forall y | y in s :: m <= y;
    m
  }

  /** `Rows(rows, need)`: take for each row in turn its least free index, skipping rows that
      have none left; the demand is met when at least `need` indices were taken.
      `Every(row)`: take all free indices of the row. */
  datatype Demand = Rows(rows: seq<set<nat>>, need: nat) | Every(row: set<nat>)

  ghost function Picks(rows: seq<set<nat>>, taken: set<nat>): seq<nat> {
    if rows == [] then []
    else if rows[0] - taken == {} then Picks(rows[1..], taken)
    else
      var i := Least(rows[0] - taken);
      [i] + Picks(rows[1..], taken + {i})
  }

  ghost function Ascending(s: set<nat>): seq<nat> {
    if s == {} then [] else [Least(s)] + Ascending(s - {Least(s)})
  }

  ghost function Serve(d: Demand, taken: set<nat>): Option<seq<nat>> {
    match d
    case Rows(rows, need) =>
      var picks := Picks(rows, taken);
      if |picks| >= need then Some(picks) else None
    case Every(row) => Some(Ascending(row - taken))
  }

  ghost function Assign(ds: seq<Demand>, taken: set<nat>): Option<seq<seq<nat>>> {
    if ds == [] then Some([])
    else
      match Serve(ds[0], taken)
      case None => None
      case Some(slot) =>
        match Assign(ds[1..], taken + Elems(slot))
        case None => None
        case Some(rest) => Some([slot] + rest)
  }

  /** Everything taken by the slots before position `j`. */
  ghost function Before(slots: seq<seq<nat>>, j: nat): set<nat>
    requires j <= |slots|
  {
    set i: nat, k: nat | i < j && k < |slots[i]| :: slots[i][k]
  }

  ghost function Row(d: Demand): set<nat> {
    match d
    case Rows(rows, _) => set t: nat, x | t < |rows| && x in rows[t] :: x
    case Every(row) => row
  }

  // ----- what one demand gets

  ghost predicate Increasing(q: seq<nat>) {
    forall i, j :: 0 <= i < j < |q| ==> q[i] < q[j]
  }

  lemma {:induction false} AscendingSound(s: set<nat>)
    ensures Elems(Ascending(s)) == s
    ensures Increasing(Ascending(s))
  {
    if s != {} {
      var m := Least(s);
      var rest := Ascending(s - {m});
      AscendingSound(s - {m});
      ConsIncreasing(m, rest);
      assert {m} + (s - {m}) == s;
      assert Ascending(s) == [m] + rest;
    } else {
      assert Ascending(s) == [];
    }
  }

  lemma {:induction false} ConsIncreasing(m: nat, rest: seq<nat>)
    requires Increasing(rest)
    requires forall x | x in Elems(rest) :: m < x
    ensures Increasing([m] + rest)
    ensures Elems([m] + rest) == {m} + Elems(rest)
  {
    assert forall i | 0 <= i < |rest| :: rest[i] in Elems(rest);
  }

  /** Picks are new, distinct, and at most one per row. */
  lemma {:induction false} PicksSound(rows: seq<set<nat>>, taken: set<nat>)
    ensures |Picks(rows, taken)| <= |rows|
    ensures forall k :: 0 <= k < |Picks(rows, taken)| ==> Picks(rows, taken)[k] !in taken
    ensures forall k, l :: 0 <= k < l < |Picks(rows, taken)| ==> Picks(rows, taken)[k] != Picks(rows, taken)[l]
  {
    if rows != [] {
      if rows[0] - taken == {} {
        PicksSound(rows[1..], taken);
      } else {
        PicksSound(rows[1..], taken + {Least(rows[0] - taken)});
      }
    }
  }

  /** The `k`-th pick was the least free index of some row when it was made. */
  lemma {:induction false} PickIsLeastFree(rows: seq<set<nat>>, taken: set<nat>, k: nat) returns (t: nat)
    requires k < |Picks(rows, taken)|
    ensures k <= t < |rows|
    ensures var free := rows[t] - taken - Elems(Picks(rows, taken)[..k]);
            free != {} && Picks(rows, taken)[k] == Least(free)
  {
    var picks := Picks(rows, taken);
    if rows[0] - taken == {} {
      t := PickIsLeastFree(rows[1..], taken, k);
      t := t + 1;
    } else {
      var i := Least(rows[0] - taken);
      var rest := Picks(rows[1..], taken + {i});
      if k == 0 {
        assert rows[0] - taken - Elems(picks[..0]) == rows[0] - taken;
        t := 0;
      } else {
        t := PickIsLeastFree(rows[1..], taken + {i}, k - 1);
        assert picks[..k] == [i] + rest[..k - 1];
        assert rows[1..][t] - (taken + {i}) - Elems(rest[..k - 1]) == rows[t + 1] - taken - Elems(picks[..k]);
        t := t + 1;
      }
    }
  }

  /** Every row is served or used up. */
  lemma {:induction false} RowServedOrUsedUp(rows: seq<set<nat>>, taken: set<nat>, t: nat)
    requires t < |rows|
    ensures (exists k :: 0 <= k < |Picks(rows, taken)| && Picks(rows, taken)[k] in rows[t])
         || rows[t] <= taken + Elems(Picks(rows, taken))
  {
    var picks := Picks(rows, taken);
    if rows[0] - taken == {} {
      assert picks == Picks(rows[1..], taken);
      if t > 0 {
        RowServedOrUsedUp(rows[1..], taken, t - 1);
        assert rows[1..][t - 1] == rows[t];
      } else {
        forall x | x in rows[0] ensures x in taken {
          assert x !in rows[0] - taken;
        }
      }
    } else {
      var i := Least(rows[0] - taken);
      var rest := Picks(rows[1..], taken + {i});
      assert picks == [i] + rest;
      if t == 0 {
        assert picks[0] in rows[0];
      } else {
        RowServedOrUsedUp(rows[1..], taken + {i}, t - 1);
        if k :| 0 <= k < |rest| && rest[k] in rows[1..][t - 1] {
          assert picks[k + 1] in rows[t];
        }
      }
    }
  }

  /** When there are as many picks as rows, the rows were served one by one. */
  lemma {:induction false} FullPicks(rows: seq<set<nat>>, taken: set<nat>)
    requires |Picks(rows, taken)| == |rows|
    ensures forall k :: 0 <= k < |rows| ==> Picks(rows, taken)[k] in rows[k]
  {
    if rows != [] {
      PicksSound(rows[1..], taken);
      if rows[0] - taken != {} {
        FullPicks(rows[1..], taken + {Least(rows[0] - taken)});
      }
    }
  }

  lemma {:induction false} ServeSound(d: Demand, taken: set<nat>)
    requires Serve(d, taken).Some?
    ensures var slot := Serve(d, taken).value;
      && (forall k :: 0 <= k < |slot| ==> slot[k] in Row(d) && slot[k] !in taken)
      && (forall k, l :: 0 <= k < l < |slot| ==> slot[k] != slot[l])
  {
    match d
    case Rows(rows, _) =>
      PicksSound(rows, taken);
      forall k | 0 <= k < |Picks(rows, taken)| ensures Picks(rows, taken)[k] in Row(d) {
        var t := PickIsLeastFree(rows, taken, k);
        assert Picks(rows, taken)[k] in rows[t];
      }
    case Every(row) =>
      AscendingSound(row - taken);
      var slot := Ascending(row - taken);
      assert forall k | 0 <= k < |slot| :: slot[k] in Elems(slot);
  }

  // ----- what a whole run gets

  lemma {:induction false} BeforeStep(slots: seq<seq<nat>>, j: nat)
    requires j < |slots|
    ensures Before(slots, j + 1) == Before(slots, j) + Elems(slots[j])
  {
  }

  lemma {:induction false} BeforeCons(slot: seq<nat>, rest: seq<seq<nat>>, j: nat)
    requires j <= |rest|
    ensures Before([slot] + rest, j + 1) == Elems(slot) + Before(rest, j)
  {
    var all := [slot] + rest;
    assert forall i | 0 <= i < |rest| :: all[i + 1] == rest[i];
    forall x | x in Elems(slot) + Before(rest, j) ensures x in Before(all, j + 1) {
      if x in Elems(slot) {
        var k: nat :| k < |slot| && slot[k] == x;
        assert all[0][k] == x;
      } else {
        var i: nat, k: nat :| i < j && k < |rest[i]| && rest[i][k] == x;
        assert all[i + 1][k] == x;
      }
    }
  }

  /** Slot `j` is what demand `j` gets from the indices its predecessors left free. */
  lemma {:induction false} SlotAt(ds: seq<Demand>, taken: set<nat>, j: nat)
    requires Assign(ds, taken).Some?
    requires j < |ds|
    ensures |Assign(ds, taken).value| == |ds|
    ensures Serve(ds[j], taken + Before(Assign(ds, taken).value, j)) == Some(Assign(ds, taken).value[j])
  {
    var slots := Assign(ds, taken).value;
    var slot := Serve(ds[0], taken).value;
    var rest := Assign(ds[1..], taken + Elems(slot)).value;
    AssignLength(ds, taken);
    if j == 0 {
      assert taken + Before(slots, 0) == taken;
    } else {
      SlotAt(ds[1..], taken + Elems(slot), j - 1);
      BeforeCons(slot, rest, j - 1);
      assert taken + Elems(slot) + Before(rest, j - 1) == taken + Before(slots, j);
    }
  }

  lemma {:induction false} AssignLength(ds: seq<Demand>, taken: set<nat>)
    requires Assign(ds, taken).Some?
    ensures |Assign(ds, taken).value| == |ds|
  {
    if ds != [] { AssignLength(ds[1..], taken + Elems(Serve(ds[0], taken).value)); }
  }

  /** A run fails only because some demand cannot be met from what is left. */
  lemma {:induction false} FailureAt(ds: seq<Demand>, taken: set<nat>) returns (j: nat, slots: seq<seq<nat>>)
    requires Assign(ds, taken).None?
    ensures j < |ds| && |slots| == j
    ensures Assign(ds[..j], taken) == Some(slots)
    ensures Serve(ds[j], taken + Before(slots, j)).None?
  {
    match Serve(ds[0], taken)
    case None =>
      j, slots := 0, [];
      assert taken + Before(slots, 0) == taken;
    case Some(slot) =>
      var k, rest := FailureAt(ds[1..], taken + Elems(slot));
      j, slots := k + 1, [slot] + rest;
      BeforeCons(slot, rest, k);
      assert taken + Elems(slot) + Before(rest, k) == taken + Before(slots, j);
      assert ds[..j][0] == ds[0];
      assert ds[..j][1..] == ds[1..][..k];
  }

  /** Two positions of an assignment never hold the same index. */
  lemma {:induction false} AssignInjective(ds: seq<Demand>, taken: set<nat>, j: nat, k: nat, p: nat, q: nat)
    requires Assign(ds, taken).Some? && |Assign(ds, taken).value| == |ds|
    requires j < |ds| && p < |ds|
    requires var slots := Assign(ds, taken).value; k < |slots[j]| && q < |slots[p]|
    requires (j, k) != (p, q)
    ensures Assign(ds, taken).value[j][k] != Assign(ds, taken).value[p][q]
  {
    var slots := Assign(ds, taken).value;
    if j == p {
      SlotAt(ds, taken, j);
      ServeSound(ds[j], taken + Before(slots, j));
    } else if j < p {
      SlotAt(ds, taken, p);
      ServeSound(ds[p], taken + Before(slots, p));
      assert slots[j][k] in Before(slots, p);
    } else {
      SlotAt(ds, taken, j);
      ServeSound(ds[j], taken + Before(slots, j));
      assert slots[p][q] in Before(slots, j);
    }
  }

  /** No index is handed out twice, none was taken beforehand, and each comes from the
      demand that received it. */
  ghost predicate Disjoint(slots: seq<seq<nat>>) {
    forall j: nat, k: nat, p: nat, q: nat ::
      j < |slots| && k < |slots[j]| && p < |slots| && q < |slots[p]| && (j, k) != (p, q)
      ==> slots[j][k] != slots[p][q]
  }

  lemma {:induction false} AssignSound(ds: seq<Demand>, taken: set<nat>)
    requires Assign(ds, taken).Some?
    ensures var slots := Assign(ds, taken).value;
      && |slots| == |ds|
      && Disjoint(slots)
      && forall j: nat, k: nat :: j < |slots| && k < |slots[j]| ==> slots[j][k] in Row(ds[j]) && slots[j][k] !in taken
  {
    AssignLength(ds, taken);
    var slots := Assign(ds, taken).value;
    forall j: nat, k: nat, p: nat, q: nat |
      j < |slots| && k < |slots[j]| && p < |slots| && q < |slots[p]| && (j, k) != (p, q)
      ensures slots[j][k] != slots[p][q]
    {
      AssignInjective(ds, taken, j, k, p, q);
    }
    forall j: nat, k: nat | j < |slots| && k < |slots[j]|
      ensures slots[j][k] in Row(ds[j]) && slots[j][k] !in taken
    {
      SlotAt(ds, taken, j);
      ServeSound(ds[j], taken + Before(slots, j));
    }
  }

  // ----- counting

  function Total(slots: seq<seq<nat>>): nat {
    if slots == [] then 0 else Total(slots[..|slots| - 1]) + |slots[|slots| - 1]|
  }

  lemma {:induction false} DistinctCardinality(q: seq<nat>)
    requires forall k, l :: 0 <= k < l < |q| ==> q[k] != q[l]
    ensures |Elems(q)| == |q|
  {
    if q != [] {
      var front := q[..|q| - 1];
      DistinctCardinality(front);
      assert Elems(q) == Elems(front) + {q[|q| - 1]};
    }
  }

  lemma {:induction false} DisjointCardinality(slots: seq<seq<nat>>)
    requires Disjoint(slots)
    ensures |Before(slots, |slots|)| == Total(slots)
  {
    if slots == [] {
      assert Before(slots, 0) == {};
    } else {
      var n := |slots| - 1;
      var front, last := slots[..n], slots[n];
      assert Disjoint(front) by {
        assert forall j | 0 <= j < n :: front[j] == slots[j];
      }
      DisjointCardinality(front);
      assert Before(front, n) == Before(slots, n) by {
        assert forall j | 0 <= j < n :: front[j] == slots[j];
      }
      BeforeStep(slots, n);
      DistinctCardinality(last);
      assert Before(slots, n) !! Elems(last);
    }
  }

  /** The indices below `n`. */
  function Below(n: nat): (s: set<nat>)
    ensures |s| == n
    ensures forall x: nat :: x in s <==> x < n
  {
    if n == 0 then {} else Below(n - 1) + {n - 1}
  }

  lemma {:induction false} SubsetCardinality<T>(a: set<T>, b: set<T>)
    requires a <= b
    ensures |a| <= |b|
  {
    if x :| x in a {
      SubsetCardinality(a - {x}, b - {x});
    }
  }

  /** A disjoint assignment of `n` indices hands out at most `n`. */
  lemma {:induction false} TotalBound(slots: seq<seq<nat>>, n: nat)
    requires Disjoint(slots)
    requires forall j: nat, k: nat | j < |slots| && k < |slots[j]| :: slots[j][k] < n
    ensures Total(slots) <= n
  {
    DisjointCardinality(slots);
    SubsetCardinality(Before(slots, |slots|), Below(n));
  }

  /** When a row went unserved, its indices are all gone. */
  lemma {:induction false} UnservedRow(rows: seq<set<nat>>, taken: set<nat>) returns (t: nat)
    requires |Picks(rows, taken)| < |rows|
    ensures t < |rows| && rows[t] <= taken + Elems(Picks(rows, taken))
  {
    if rows[0] - taken == {} {
      t := 0;
    } else {
      var i := Least(rows[0] - taken);
      assert Picks(rows, taken) == [i] + Picks(rows[1..], taken + {i});
      t := UnservedRow(rows[1..], taken + {i});
      t := t + 1;
    }
  }

  // ----- single-row demands

  /** The usual kind of demand: one index out of `row`, which may be waived. */
  function One(row: set<nat>, required: bool): Demand {
    Rows([row], if required then 1 else 0)
  }

  lemma {:induction false} ServeOne(row: set<nat>, required: bool, taken: set<nat>)
    ensures row <= taken ==> Serve(One(row, required), taken) == if required then None else Some([])
    ensures !(row <= taken) ==> row - taken != {} && Serve(One(row, required), taken) == Some([Least(row - taken)])
  {
    assert [row][0] == row && [row][1..] == [];
    if row <= taken {
      assert row - taken == {};
      assert Picks([row], taken) == Picks([row][1..], taken);
    } else {
      var x :| x in row && x !in taken;
      assert x in row - taken;
      assert Picks([row][1..], taken + {Least(row - taken)}) == [];
      assert Picks([row], taken) == [Least(row - taken)];
    }
  }

  // ----- feeding demands in order

  /** Starting at index `c`, each row either accepts the next index or accepts nothing from
      there on. */
  ghost predicate RowsInOrder(rows: seq<set<nat>>, c: nat) {
    rows == [] ||
    if c in rows[0] then RowsInOrder(rows[1..], c + 1)
    else (forall x | x in rows[0] :: x < c) && RowsInOrder(rows[1..], c)
  }

  ghost function RowsFed(rows: seq<set<nat>>, c: nat): nat {
    if rows == [] then 0
    else if c in rows[0] then 1 + RowsFed(rows[1..], c + 1)
    else RowsFed(rows[1..], c)
  }

  ghost predicate InOrder(d: Demand, c: nat) {
    match d
    case Rows(rows, need) => RowsInOrder(rows, c) && RowsFed(rows, c) >= need
    case Every(row) => forall x | x in row :: x < c
  }

  ghost function Fed(d: Demand, c: nat): nat {
    match d
    case Rows(rows, _) => RowsFed(rows, c)
    case Every(_) => 0
  }

  ghost predicate AllInOrder(ds: seq<Demand>, c: nat) {
    ds == [] || (InOrder(ds[0], c) && AllInOrder(ds[1..], c + Fed(ds[0], c)))
  }

  lemma {:induction false} ConsInOrder(ds: seq<Demand>, d: Demand, rest: seq<Demand>, c: nat, fed: nat)
    requires ds == [d] + rest
    requires InOrder(d, c) && Fed(d, c) == fed && AllInOrder(rest, c + fed)
    ensures AllInOrder(ds, c)
  {
    assert ds[1..] == rest;
  }

  /** Nothing below `c` is still free for `row`. */
  ghost predicate UsedUpBelow(row: set<nat>, taken: set<nat>, c: nat) {
    forall x | x in row && x < c :: x in taken
  }

  lemma {:induction false} PicksInOrder(rows: seq<set<nat>>, taken: set<nat>, c: nat)
    requires RowsInOrder(rows, c)
    requires forall x | x in taken :: x < c
    requires forall t | 0 <= t < |rows| :: UsedUpBelow(rows[t], taken, c)
    ensures |Picks(rows, taken)| == RowsFed(rows, c)
    ensures forall x :: x in Elems(Picks(rows, taken)) <==> c <= x < c + RowsFed(rows, c)
  {
    if rows != [] {
      var free := rows[0] - taken;
      assert UsedUpBelow(rows[0], taken, c);
      if c in rows[0] {
        assert c in free && Least(free) == c;
        forall t | 0 <= t < |rows[1..]| ensures UsedUpBelow(rows[1..][t], taken + {c}, c + 1) {
          assert UsedUpBelow(rows[t + 1], taken, c);
        }
        PicksInOrder(rows[1..], taken + {c}, c + 1);
        assert Picks(rows, taken) == [c] + Picks(rows[1..], taken + {c});
        assert Elems(Picks(rows, taken)) == {c} + Elems(Picks(rows[1..], taken + {c}));
      } else {
        assert free == {};
        PicksInOrder(rows[1..], taken, c);
      }
    }
  }

  /** Demands that find their indices lined up in order are all met. */
  lemma {:induction false} AssignInOrder(ds: seq<Demand>, taken: set<nat>, c: nat)
    requires AllInOrder(ds, c)
    requires forall x | x in taken :: x < c
    requires forall j | 0 <= j < |ds| :: UsedUpBelow(Row(ds[j]), taken, c)
    ensures Assign(ds, taken).Some?
  {
    if ds != [] {
      var d := ds[0];
      assert UsedUpBelow(Row(d), taken, c);
      match d {
        case Rows(rows, _) =>
          forall t | 0 <= t < |rows| ensures UsedUpBelow(rows[t], taken, c) {
            assert forall x | x in rows[t] :: x in Row(d);
          }
          PicksInOrder(rows, taken, c);
        case Every(row) =>
          assert row - taken == {};
      }
      var slot := Serve(d, taken).value;
      assert forall x :: x in Elems(slot) <==> c <= x < c + Fed(d, c);
      forall j | 0 <= j < |ds[1..]| ensures UsedUpBelow(Row(ds[1..][j]), taken + Elems(slot), c + Fed(d, c)) {
        assert UsedUpBelow(Row(ds[j + 1]), taken, c);
      }
      AssignInOrder(ds[1..], taken + Elems(slot), c + Fed(d, c));
    }
  }

  lemma {:induction false} InOrderOne(row: set<nat>, required: bool, c: nat)
    requires c in row || (!required && forall x | x in row :: x < c)
    ensures InOrder(One(row, required), c)
    ensures Fed(One(row, required), c) == if c in row then 1 else 0
  {
    assert [row][0] == row && [row][1..] == [];
    assert RowsInOrder([row][1..], c) && RowsInOrder([row][1..], c + 1);
    assert RowsFed([row][1..], c) == 0 && RowsFed([row][1..], c + 1) == 0;
  }

  lemma {:induction false} RowOfOne(row: set<nat>, required: bool)
    ensures Row(One(row, required)) == row
  {
    assert [row][0] == row;
  }
}
