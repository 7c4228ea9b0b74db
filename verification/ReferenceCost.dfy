/** The fewest reference inputs that serve a template. */
module ReferenceCost {
  // A list takes everything that is there of it and still free. So what later lists need of it
  // has to be there once more for each time it names it; and only a list that shares nothing
  // with what follows has a choice.

  import opened Base
  import opened Tir
  import opened Expr
  import opened Payload
  import opened Greedy
  import opened Matching
  import opened MatchLaws
  import opened Fingerprint
  import opened Witness

  /** What of a list is in `later`, as often as the list names it. */
  function Kept(refs: seq<UtxoRef>, later: set<UtxoRef>): seq<UtxoRef> {
    if refs == [] then []
    else (if refs[0] in later then [refs[0]] else []) + Kept(refs[1..], later)
  }

  /** The fewest reference inputs for the first `j` references, if those in `later` are there
      for the ones that follow. */
  ghost function Fewest(references: seq<Expression>, j: nat, later: set<UtxoRef>): nat
    requires j <= |references| && NoEmptyList(references)
    decreases j, 0
  {
    if j == 0 then 0
    else
      match ConstUtxoRefs(references[j - 1])
      case None => 1 + Fewest(references, j - 1, later)
      case Some(refs) =>
        if Kept(refs, later) != [] then |Kept(refs, later)| + Fewest(references, j - 1, later)
        else
          assert refs[0] in refs;
          1 + Least(Options(references, j - 1, refs, later))
  }

  /** What it comes to for each choice of a list. */
  ghost function Options(
      references: seq<Expression>, j: nat, refs: seq<UtxoRef>, later: set<UtxoRef>): (options: set<nat>)
    requires j <= |references| && NoEmptyList(references)
    ensures forall r | r in refs :: Fewest(references, j, later + {r}) in options
    ensures forall n | n in options :: exists r :: r in refs && n == Fewest(references, j, later + {r})
    decreases j, 1
  {
    set r | r in refs :: Fewest(references, j, later + {r})
  }

  ghost function FewestReferences(references: seq<Expression>): nat
    requires NoEmptyList(references)
  {
    Fewest(references, |references|, {})
  }

  // ----- more to keep never costs less

  lemma {:induction false} KeptGrows(refs: seq<UtxoRef>, p: set<UtxoRef>, q: set<UtxoRef>)
    requires p <= q
    ensures |Kept(refs, p)| <= |Kept(refs, q)|
  {
    if refs != [] { KeptGrows(refs[1..], p, q); }
  }

  lemma {:induction false} KeptNames(refs: seq<UtxoRef>, later: set<UtxoRef>)
    ensures forall r :: r in Kept(refs, later) <==> r in refs && r in later
    ensures Kept(refs, later) == [] <==> forall r | r in refs :: r !in later
  {
    if refs != [] {
      KeptNames(refs[1..], later);
      assert refs == [refs[0]] + refs[1..];
      assert refs[0] in later ==> Kept(refs, later)[0] == refs[0];
    }
  }

  lemma {:induction false} FewestGrows(references: seq<Expression>, j: nat, p: set<UtxoRef>, q: set<UtxoRef>)
    requires j <= |references| && NoEmptyList(references) && p <= q
    ensures Fewest(references, j, p) <= Fewest(references, j, q)
    decreases j, 0
  {
    if j > 0 {
      match ConstUtxoRefs(references[j - 1]) {
        case None => FewestGrows(references, j - 1, p, q);
        case Some(refs) => ListFewestGrows(references, j - 1, refs, p, q);
      }
    }
  }

  lemma {:induction false} ListFewestGrows(
      references: seq<Expression>, j: nat, refs: seq<UtxoRef>, p: set<UtxoRef>, q: set<UtxoRef>)
    requires j < |references| && NoEmptyList(references) && p <= q && ConstUtxoRefs(references[j]) == Some(refs)
    ensures Fewest(references, j + 1, p) <= Fewest(references, j + 1, q)
    decreases j, 1
  {
    KeptGrows(refs, p, q);
    KeptNames(refs, p);
    KeptNames(refs, q);
    if Kept(refs, p) != [] {
      FewestGrows(references, j, p, q);
    } else if Kept(refs, q) != [] {
      var r := Kept(refs, q)[0];
      assert r in Kept(refs, q);
      FewestGrows(references, j, p + {r}, q);
      assert Fewest(references, j, p + {r}) in Options(references, j, refs, p);
    } else {
      assert refs[0] in refs;
      var n := Least(Options(references, j, refs, q));
      var r :| r in refs && n == Fewest(references, j, q + {r});
      FewestGrows(references, j, p + {r}, q + {r});
      assert Fewest(references, j, p + {r}) in Options(references, j, refs, p);
    }
  }

  // ----- no match has fewer

  /** What the slots from `j` on hold. */
  ghost function Held(slots: seq<seq<nat>>, ins: seq<TxInput>, j: nat): set<UtxoRef>
    requires InRange(slots, |ins|)
  {
    set l: nat, q: nat | j <= l < |slots| && q < |slots[l]| :: Key(ins[slots[l][q]])
  }

  /** A list is served as often as it names what later slots hold: that was still free. */
  lemma {:induction false} KeptAreServed(
      refs: seq<UtxoRef>, ins: seq<TxInput>, slot: seq<nat>, before: set<nat>, later: set<UtxoRef>)
    requires PartlyServed(RefRows(ins, refs), slot, before)
    requires forall r | r in later :: StillFree(RefRow(ins, r), before + Elems(slot))
    ensures |Kept(refs, later)| <= |slot|
  {
    var counts :| ServedInTurn(RefRows(ins, refs), slot, before, counts);
    KeptAreServedFrom(refs, ins, slot, before, later, counts, 0);
    assert refs[0..] == refs;
  }

  ghost predicate StillFree(row: set<nat>, taken: set<nat>) {
    exists x :: x in row && x !in taken
  }

  lemma {:induction false} KeptAreServedFrom(
      refs: seq<UtxoRef>, ins: seq<TxInput>, slot: seq<nat>, before: set<nat>, later: set<UtxoRef>,
      counts: seq<nat>, t: nat)
    requires t <= |refs| && ServedInTurn(RefRows(ins, refs), slot, before, counts)
    requires forall r | r in later :: StillFree(RefRow(ins, r), before + Elems(slot))
    ensures counts[t] + |Kept(refs[t..], later)| <= |slot|
    decreases |refs| - t
  {
    if t < |refs| {
      KeptAreServedFrom(refs, ins, slot, before, later, counts, t + 1);
      assert refs[t..] == [refs[t]] + refs[t + 1..];
      var row := RefRows(ins, refs)[t];
      assert ServedOrPassed(row, slot, before, counts[t], counts[t + 1]);
      if refs[t] in later {
        assert StillFree(row, before + Elems(slot));
        assert Elems(slot[..counts[t]]) <= Elems(slot);
        assert counts[t + 1] == counts[t] + 1;
      }
    }
  }

  /** What a later slot holds was free when slot `j` was filled. */
  lemma {:induction false} HeldIsFree(slots: seq<seq<nat>>, ins: seq<TxInput>, j: nat)
    requires InRange(slots, |ins|) && Disjoint(slots) && j < |slots|
    ensures forall r | r in Held(slots, ins, j + 1) ::
      StillFree(RefRow(ins, r), Before(slots, j) + Elems(slots[j]))
  {
    BeforeStep(slots, j);
    forall r | r in Held(slots, ins, j + 1) ensures StillFree(RefRow(ins, r), Before(slots, j) + Elems(slots[j])) {
      var l: nat, q: nat :| j + 1 <= l < |slots| && q < |slots[l]| && r == Key(ins[slots[l][q]]);
      var x := slots[l][q];
      assert x in RefRow(ins, r);
      assert x !in Before(slots, j + 1);
    }
  }

  lemma {:induction false} HeldStep(slots: seq<seq<nat>>, ins: seq<TxInput>, j: nat)
    requires InRange(slots, |ins|) && j < |slots|
    ensures Held(slots, ins, j + 1) <= Held(slots, ins, j)
    ensures forall q | 0 <= q < |slots[j]| :: Key(ins[slots[j][q]]) in Held(slots, ins, j)
  {}

  lemma {:induction false} FewestIsNeeded(
      references: seq<Expression>, ins: seq<TxInput>, slots: seq<seq<nat>>, j: nat)
    requires NoEmptyList(references) && j <= |references| == |slots|
    requires InRange(slots, |ins|) && Disjoint(slots)
    requires forall i: nat | i < |references| ::
      ReferenceSlotOk(references[i], slots[i], Before(slots, i), ins)
    ensures Fewest(references, j, Held(slots, ins, j)) <= Total(slots[..j])
    decreases j
  {
    if j > 0 {
      FewestIsNeeded(references, ins, slots, j - 1);
      assert slots[..j][..j - 1] == slots[..j - 1];
      HeldStep(slots, ins, j - 1);
      assert ReferenceSlotOk(references[j - 1], slots[j - 1], Before(slots, j - 1), ins);
      HeldIsFree(slots, ins, j - 1);
      ListIsNeeded(references, ins, slots, j - 1);
    }
  }

  lemma {:induction false} ListIsNeeded(
      references: seq<Expression>, ins: seq<TxInput>, slots: seq<seq<nat>>, j: nat)
    requires NoEmptyList(references) && j < |references| == |slots|
    requires InRange(slots, |ins|)
    requires ReferenceSlotOk(references[j], slots[j], Before(slots, j), ins)
    requires forall r | r in Held(slots, ins, j + 1) ::
      StillFree(RefRow(ins, r), Before(slots, j) + Elems(slots[j]))
    ensures Fewest(references, j + 1, Held(slots, ins, j + 1)) <=
      |slots[j]| + Fewest(references, j, Held(slots, ins, j))
  {
    var later, now := Held(slots, ins, j + 1), Held(slots, ins, j);
    HeldStep(slots, ins, j);
    FewestGrows(references, j, later, now);
    match ConstUtxoRefs(references[j]) {
      case None =>
      case Some(refs) =>
        KeptAreServed(refs, ins, slots[j], Before(slots, j), later);
        if Kept(refs, later) == [] {
          var r := FirstServed(refs, ins, slots[j], Before(slots, j));
          assert Key(ins[slots[j][0]]) in now;
          FewestGrows(references, j, later + {r}, now);
          assert Fewest(references, j, later + {r}) in Options(references, j, refs, later);
        }
    }
  }

  lemma {:induction false} FirstServed(refs: seq<UtxoRef>, ins: seq<TxInput>, slot: seq<nat>, before: set<nat>)
    returns (r: UtxoRef)
    requires PartlyServed(RefRows(ins, refs), slot, before)
    ensures r in refs && slot != [] && slot[0] < |ins| && Key(ins[slot[0]]) == r
  {
    assert PickOk(RefRows(ins, refs), slot, before, 0);
    var t: nat :| t < |refs| && slot[0] in RefRow(ins, refs[t]);
    r := refs[t];
  }

  /** A match has at least as many reference inputs. */
  lemma {:induction false} FewestNecessary(references: seq<Expression>, ins: seq<TxInput>)
    requires Assign(ReferenceDemands(references, ins), {}).Some?
    ensures NoEmptyList(references) && FewestReferences(references) <= |ins|
  {
    EmptyListNeverMatches(references, ins);
    var slots := Assign(ReferenceDemands(references, ins), {}).value;
    ReferencesSound(references, ins, slots);
    hide Assign, ReferenceDemands, ReferenceSlotOk;
    FewestIsNeeded(references, ins, slots, |references|);
    assert Held(slots, ins, |references|) == {};
    assert slots[..|references|] == slots;
    TotalBound(slots, |ins|);
  }

  // ----- a match that has no more

  /** The choice of a list that makes for the fewest. */
  ghost function BestChoice(references: seq<Expression>, j: nat, refs: seq<UtxoRef>, later: set<UtxoRef>): (r: UtxoRef)
    requires j <= |references| && NoEmptyList(references) && refs != []
    ensures r in refs
    ensures Options(references, j, refs, later) != {}
    ensures Fewest(references, j, later + {r}) == Least(Options(references, j, refs, later))
  {
    assert refs[0] in refs;
    var r :| r in refs && Fewest(references, j, later + {r}) == Least(Options(references, j, refs, later));
    r
  }

  /** Reference inputs for the first `j` references, a parameter being given `stray`. */
  ghost function Serving(references: seq<Expression>, j: nat, later: set<UtxoRef>, stray: TxInput): (ins: seq<TxInput>)
    requires j <= |references| && NoEmptyList(references)
    ensures |ins| == Fewest(references, j, later)
    decreases j
  {
    if j == 0 then []
    else
      match ConstUtxoRefs(references[j - 1])
      case None => Serving(references, j - 1, later, stray) + [stray]
      case Some(refs) =>
        if Kept(refs, later) != [] then Serving(references, j - 1, later, stray) + InputsFor(Kept(refs, later))
        else
          var r := BestChoice(references, j - 1, refs, later);
          Serving(references, j - 1, later + {r}, stray) + [InputFor(r)]
  }

  /** Rows that are met below `d` at most feed nothing from there on. */
  lemma {:induction false} NothingFrom(refs: seq<UtxoRef>, ins: seq<TxInput>, d: nat)
    requires forall r, i | r in refs && d <= i < |ins| :: Key(ins[i]) != r
    ensures RowsInOrder(RefRows(ins, refs), d) && RowsFed(RefRows(ins, refs), d) == 0
  {
    if refs != [] {
      assert forall r | r in refs[1..] :: r in refs;
      NothingFrom(refs[1..], ins, d);
      RefRowsCons(refs, ins);
      assert refs[0] in refs;
      RowsInOrderCons(RefRows(ins, refs), RefRow(ins, refs[0]), RefRows(ins, refs[1..]), d);
    }
  }

  /** A list is served once, at `c`, if what is there is the only thing of it from there on. */
  lemma {:induction false} ListServedOnce(refs: seq<UtxoRef>, ins: seq<TxInput>, c: nat)
    requires c < |ins| && Key(ins[c]) in refs
    requires forall r, i | r in refs && c < i < |ins| :: Key(ins[i]) != r
    ensures RowsInOrder(RefRows(ins, refs), c) && RowsFed(RefRows(ins, refs), c) == 1
  {
    RefRowsCons(refs, ins);
    assert refs == [refs[0]] + refs[1..];
    assert refs[0] in refs && forall r | r in refs[1..] :: r in refs;
    if refs[0] == Key(ins[c]) {
      NothingFrom(refs[1..], ins, c + 1);
    } else {
      ListServedOnce(refs[1..], ins, c);
    }
    hide RowsInOrder, RowsFed, RefRows;
    RowsInOrderCons(RefRows(ins, refs), RefRow(ins, refs[0]), RefRows(ins, refs[1..]), c);
  }

  /** A list is served by what it keeps, if that is all there is of it from `c` on. */
  lemma {:induction false} KeptInOrder(refs: seq<UtxoRef>, later: set<UtxoRef>, ins: seq<TxInput>, c: nat)
    requires Lists(ins, c, Kept(refs, later))
    requires forall i | c <= i < |ins| && Key(ins[i]) in refs :: Key(ins[i]) in later
    ensures RowsInOrder(RefRows(ins, refs), c) && RowsFed(RefRows(ins, refs), c) == |Kept(refs, later)|
    decreases |refs|
  {
    if refs != [] {
      assert refs[0] in refs && forall r | r in refs[1..] :: r in refs;
      RefRowsCons(refs, ins);
      RowsInOrderCons(RefRows(ins, refs), RefRow(ins, refs[0]), RefRows(ins, refs[1..]), c);
      if refs[0] in later {
        assert Kept(refs, later) == [refs[0]] + Kept(refs[1..], later);
        ListsCons(ins, c, refs[0], Kept(refs[1..], later));
        KeptInOrder(refs[1..], later, ins, c + 1);
      } else {
        assert Kept(refs, later) == Kept(refs[1..], later);
        KeptInOrder(refs[1..], later, ins, c);
      }
    }
  }

  /** How many indices the demands are fed in all. */
  ghost function FedInAll(ds: seq<Demand>, c: nat): nat {
    if ds == [] then 0 else Fed(ds[0], c) + FedInAll(ds[1..], c + Fed(ds[0], c))
  }

  lemma {:induction false} SnocInOrder(ds: seq<Demand>, d: Demand, c: nat)
    requires AllInOrder(ds, c) && InOrder(d, c + FedInAll(ds, c))
    ensures AllInOrder(ds + [d], c)
    ensures FedInAll(ds + [d], c) == FedInAll(ds, c) + Fed(d, c + FedInAll(ds, c))
  {
    if ds == [] {
      assert [d][1..] == [] && ds + [d] == [d];
    } else {
      SnocInOrder(ds[1..], d, c + Fed(ds[0], c));
      assert (ds + [d])[1..] == ds[1..] + [d] && (ds + [d])[0] == ds[0];
    }
  }

  /** From `c` on there is nothing but what is in `later`, and what no reference names. */
  ghost predicate OnlyFrom(references: seq<Expression>, ins: seq<TxInput>, c: nat, later: set<UtxoRef>) {
    forall i: nat | c <= i < |ins| :: Key(ins[i]) in later || Key(ins[i]) !in RequiredReferenceRefs(references)
  }

  lemma {:induction false} ListIsRequired(references: seq<Expression>, j: nat, r: UtxoRef)
    requires j < |references| && r in RefsOf(references[j])
    ensures r in RequiredReferenceRefs(references)
  {}

  lemma {:induction false} ParameterInOrder(
      references: seq<Expression>, j: nat, later: set<UtxoRef>, ins: seq<TxInput>, c: nat)
    requires j < |references| && ConstUtxoRefs(references[j]).None?
    requires c < |ins| && Key(ins[c]) !in RequiredReferenceRefs(references)
    requires OnlyFrom(references, ins, c + 1, later)
    ensures InOrder(ReferenceDemand(references[j], ins), c) && Fed(ReferenceDemand(references[j], ins), c) == 1
    ensures OnlyFrom(references, ins, c, later)
  {
    InOrderOne(ReferenceRow(references[j], ins), true, c);
  }

  lemma {:induction false} KeptListInOrder(
      references: seq<Expression>, j: nat, refs: seq<UtxoRef>, later: set<UtxoRef>, ins: seq<TxInput>, c: nat)
    requires j < |references| && ConstUtxoRefs(references[j]) == Some(refs) && Kept(refs, later) != []
    requires Lists(ins, c, Kept(refs, later))
    requires OnlyFrom(references, ins, c + |Kept(refs, later)|, later)
    ensures InOrder(ReferenceDemand(references[j], ins), c)
    ensures Fed(ReferenceDemand(references[j], ins), c) == |Kept(refs, later)|
    ensures OnlyFrom(references, ins, c, later)
  {
    var own := Kept(refs, later);
    KeptNames(refs, later);
    forall i: nat | c <= i < c + |own| ensures Key(ins[i]) in later {
      assert Key(ins[i]) == own[i - c] && own[i - c] in own;
    }
    forall i: nat | c <= i < |ins| && Key(ins[i]) in refs ensures Key(ins[i]) in later {
      ListIsRequired(references, j, Key(ins[i]));
    }
    KeptInOrder(refs, later, ins, c);
  }

  lemma {:induction false} ChoiceInOrder(
      references: seq<Expression>, j: nat, refs: seq<UtxoRef>, later: set<UtxoRef>, ins: seq<TxInput>, c: nat)
    requires j < |references| && ConstUtxoRefs(references[j]) == Some(refs) && Kept(refs, later) == []
    requires c < |ins| && Key(ins[c]) in refs
    requires OnlyFrom(references, ins, c + 1, later)
    ensures InOrder(ReferenceDemand(references[j], ins), c) && Fed(ReferenceDemand(references[j], ins), c) == 1
    ensures OnlyFrom(references, ins, c, later + {Key(ins[c])})
  {
    KeptNames(refs, later);
    forall x, i: nat | x in refs && c < i < |ins| ensures Key(ins[i]) != x {
      ListIsRequired(references, j, x);
    }
    ListServedOnce(refs, ins, c);
  }

  /** The first `j` demands are served in order by the first `n` reference inputs. */
  ghost predicate ServedBy(references: seq<Expression>, ins: seq<TxInput>, j: nat, n: nat)
    requires j <= |references|
  {
    var ds := ReferenceDemands(references, ins)[..j];
    AllInOrder(ds, 0) && FedInAll(ds, 0) == n
  }

  lemma {:induction false} OneMoreServed(references: seq<Expression>, ins: seq<TxInput>, j: nat, n: nat)
    requires j < |references| && ServedBy(references, ins, j, n) && InOrder(ReferenceDemand(references[j], ins), n)
    ensures ServedBy(references, ins, j + 1, n + Fed(ReferenceDemand(references[j], ins), n))
  {
    var ds := ReferenceDemands(references, ins);
    assert ds[..j + 1] == ds[..j] + [ds[j]];
    SnocInOrder(ds[..j], ds[j], 0);
  }

  lemma {:induction false} PrefixAndOne<T>(before: seq<T>, x: T, ins: seq<T>)
    requires before + [x] <= ins
    ensures before <= ins && |before| < |ins| && ins[|before|] == x
  {
    assert ins[|before|] == (before + [x])[|before|];
  }

  lemma {:induction false} ServingInOrder(
      references: seq<Expression>, j: nat, later: set<UtxoRef>, stray: TxInput, ins: seq<TxInput>)
    requires j <= |references| && NoEmptyList(references)
    requires Key(stray) !in RequiredReferenceRefs(references)
    requires Serving(references, j, later, stray) <= ins
    requires OnlyFrom(references, ins, |Serving(references, j, later, stray)|, later)
    ensures ServedBy(references, ins, j, |Serving(references, j, later, stray)|)
    decreases j, 0
  {
    hide *;
    if j == 0 {
      NoneServed(references, later, stray, ins);
    } else {
      ServingIs(references, j - 1, later, stray);
      match ConstUtxoRefs(references[j - 1]) {
        case None =>
          ServingParameter(references, j - 1, later, stray, ins);
        case Some(refs) =>
          if Kept(refs, later) != [] {
            ServingKept(references, j - 1, refs, later, stray, ins);
          } else {
            ServingChoice(references, j - 1, refs, BestChoice(references, j - 1, refs, later), later, stray, ins);
          }
      }
    }
  }

  lemma {:induction false} NoneServed(
      references: seq<Expression>, later: set<UtxoRef>, stray: TxInput, ins: seq<TxInput>)
    requires NoEmptyList(references)
    ensures ServedBy(references, ins, 0, |Serving(references, 0, later, stray)|)
  {
    assert ReferenceDemands(references, ins)[..0] == [];
  }

  lemma {:induction false} ServingIs(references: seq<Expression>, i: nat, later: set<UtxoRef>, stray: TxInput)
    requires i < |references| && NoEmptyList(references)
    ensures match ConstUtxoRefs(references[i])
      case None => Serving(references, i + 1, later, stray) == Serving(references, i, later, stray) + [stray]
      case Some(refs) =>
        && refs != []
        && |InputsFor(Kept(refs, later))| == |Kept(refs, later)|
        && (Kept(refs, later) != [] ==>
              Serving(references, i + 1, later, stray)
              == Serving(references, i, later, stray) + InputsFor(Kept(refs, later)))
        && (Kept(refs, later) == [] ==>
              Serving(references, i + 1, later, stray)
              == Serving(references, i, later + {BestChoice(references, i, refs, later)}, stray)
               + [InputFor(BestChoice(references, i, refs, later))])
  {
    hide Kept, Fewest, Options, Least;
  }

  lemma {:induction false} ServingParameter(
      references: seq<Expression>, i: nat, later: set<UtxoRef>, stray: TxInput, ins: seq<TxInput>)
    requires i < |references| && NoEmptyList(references) && ConstUtxoRefs(references[i]).None?
    requires Key(stray) !in RequiredReferenceRefs(references)
    requires Serving(references, i, later, stray) + [stray] <= ins
    requires OnlyFrom(references, ins, |Serving(references, i, later, stray)| + 1, later)
    ensures ServedBy(references, ins, i + 1, |Serving(references, i, later, stray)| + 1)
    decreases i, 1
  {
    hide *;
    var before := Serving(references, i, later, stray);
    PrefixAndOne(before, stray, ins);
    ParameterInOrder(references, i, later, ins, |before|);
    ServingInOrder(references, i, later, stray, ins);
    OneMoreServed(references, ins, i, |before|);
  }

  lemma {:induction false} ServingKept(
      references: seq<Expression>, i: nat, refs: seq<UtxoRef>, later: set<UtxoRef>, stray: TxInput, ins: seq<TxInput>)
    requires i < |references| && NoEmptyList(references) && ConstUtxoRefs(references[i]) == Some(refs)
    requires Key(stray) !in RequiredReferenceRefs(references) && Kept(refs, later) != []
    requires Serving(references, i, later, stray) + InputsFor(Kept(refs, later)) <= ins
    requires OnlyFrom(references, ins, |Serving(references, i, later, stray)| + |Kept(refs, later)|, later)
    ensures ServedBy(references, ins, i + 1, |Serving(references, i, later, stray)| + |Kept(refs, later)|)
    decreases i, 1
  {
    hide *;
    var before := Serving(references, i, later, stray);
    ShareLists(before, Kept(refs, later), ins);
    KeptListInOrder(references, i, refs, later, ins, |before|);
    ServingInOrder(references, i, later, stray, ins);
    OneMoreServed(references, ins, i, |before|);
  }

  lemma {:induction false} ServingChoice(
      references: seq<Expression>, i: nat, refs: seq<UtxoRef>, r: UtxoRef, later: set<UtxoRef>, stray: TxInput,
      ins: seq<TxInput>)
    requires i < |references| && NoEmptyList(references) && ConstUtxoRefs(references[i]) == Some(refs) && r in refs
    requires Key(stray) !in RequiredReferenceRefs(references) && Kept(refs, later) == []
    requires Serving(references, i, later + {r}, stray) + [InputFor(r)] <= ins
    requires OnlyFrom(references, ins, |Serving(references, i, later + {r}, stray)| + 1, later)
    ensures ServedBy(references, ins, i + 1, |Serving(references, i, later + {r}, stray)| + 1)
    decreases i, 1
  {
    hide *;
    var before := Serving(references, i, later + {r}, stray);
    PrefixAndOne(before, InputFor(r), ins);
    KeyOfInput(r);
    ChoiceInOrder(references, i, refs, later, ins, |before|);
    ServingInOrder(references, i, later + {r}, stray, ins);
    OneMoreServed(references, ins, i, |before|);
  }

  lemma {:induction false} KeyOfInput(r: UtxoRef)
    ensures Key(InputFor(r)) == r
  {}

  lemma {:induction false} ShareLists(before: seq<TxInput>, own: seq<UtxoRef>, ins: seq<TxInput>)
    requires before + InputsFor(own) <= ins
    ensures before <= ins && Lists(ins, |before|, own)
  {
    assert forall i | |before| <= i < |before| + |own| :: ins[i] == (before + InputsFor(own))[i];
  }

  /** A reference that is named nowhere. */
  lemma {:induction false} LongerThanAll(refs: set<UtxoRef>) returns (n: nat)
    ensures forall r | r in refs :: |r.txid| < n
  {
    if refs == {} {
      n := 0;
    } else {
      var r :| r in refs;
      n := LongerThanAll(refs - {r});
      if n <= |r.txid| { n := |r.txid| + 1; }
    }
  }

  /** Some reference inputs serve the template and are as few. */
  lemma {:induction false} FewestSuffices(references: seq<Expression>) returns (ins: seq<TxInput>)
    requires NoEmptyList(references)
    ensures |ins| == FewestReferences(references)
    ensures Assign(ReferenceDemands(references, ins), {}).Some?
  {
    var n := LongerThanAll(RequiredReferenceRefs(references));
    var stray := TxInput(seq(n, _ => 0), 0);
    assert |Key(stray).txid| == n;
    ins := Serving(references, |references|, {}, stray);
    ServingInOrder(references, |references|, {}, stray, ins);
    var ds := ReferenceDemands(references, ins);
    assert ds[..|references|] == ds;
    AssignInOrder(ds, {}, 0);
  }
}
