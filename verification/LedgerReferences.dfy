/** Reference lists on a ledger, where no reference input occurs twice. */
module LedgerReferences {
  // A list is served only by what no earlier list names, because earlier lists take all there is
  // of theirs.

  import opened Base
  import opened Tir
  import opened Expr
  import opened Payload
  import opened Greedy
  import opened Ledger
  import opened Matching
  import opened MatchLaws
  import opened Fingerprint
  import opened Summarize
  import opened Prefilter
  import opened PrefilterExact
  import opened ReferenceCost
  import opened Witness

  ghost predicate NamedBefore(references: seq<Expression>, j: nat, r: UtxoRef) {
    exists i: nat :: i < j && i < |references| && r in RefsOf(references[i])
  }

  /** What list `j` names first. */
  ghost function News(references: seq<Expression>, j: nat): set<UtxoRef>
    requires j < |references|
  {
    set r | r in RefsOf(references[j]) && |r.txid| == 32 && !NamedBefore(references, j, r)
  }

  ghost predicate EveryListHasNews(references: seq<Expression>) {
    forall j: nat | j < |references| && ConstUtxoRefs(references[j]).Some? :: News(references, j) != {}
  }

  // ----- what a match needs

  /** When list `i` was served nothing that it names is left. */
  lemma {:induction false} ListTakesAll(
      references: seq<Expression>, ins: seq<TxInput>, slots: seq<seq<nat>>, i: nat, r: UtxoRef, x: nat)
    requires i < |references| == |slots| && r in RefsOf(references[i]) && x in RefRow(ins, r)
    requires Spendable(ins) && ReferenceSlotOk(references[i], slots[i], Before(slots, i), ins)
    ensures x in Before(slots, i + 1)
  {
    var refs := RefsOf(references[i]);
    var t: nat :| t < |refs| && refs[t] == r;
    assert ServedOrUsedUp(RefRows(ins, refs)[t], slots[i], Before(slots, i));
    BeforeStep(slots, i);
    if k: nat :| k < |slots[i]| && slots[i][k] in RefRow(ins, r) {
      assert slots[i][k] == x;
    }
  }

  /** A list that is served is served by something that it names first. */
  lemma {:induction false} ServedByNews(
      references: seq<Expression>, ins: seq<TxInput>, slots: seq<seq<nat>>, j: nat)
    returns (r: UtxoRef)
    requires Assign(ReferenceDemands(references, ins), {}) == Some(slots) && Spendable(ins)
    requires j < |references| && ConstUtxoRefs(references[j]).Some?
    ensures r in News(references, j) && r in InputRefs(ins)
  {
    ReferencesSound(references, ins, slots);
    var refs := RefsOf(references[j]);
    assert ReferenceSlotOk(references[j], slots[j], Before(slots, j), ins);
    assert PickOk(RefRows(ins, refs), slots[j], Before(slots, j), 0);
    var t: nat :| t < |refs| && slots[j][0] in RefRow(ins, refs[t]) && slots[j][0] !in Before(slots, j);
    r := refs[t];
    var x := slots[j][0];
    forall i: nat | i < j && r in RefsOf(references[i]) ensures false {
      assert ReferenceSlotOk(references[i], slots[i], Before(slots, i), ins);
      BeforeGrows(slots, i + 1, j);
      ListTakesAll(references, ins, slots, i, r, x);
    }
    assert ins[x] in ins && Key(ins[x]) == r;
  }

  /** Every reference that some list names is the only one that some list names first. */
  ghost predicate NewsForced(references: seq<Expression>) {
    forall r | r in RequiredReferenceRefs(references) :: SoleNews(references, r)
  }

  ghost predicate SoleNews(references: seq<Expression>, r: UtxoRef) {
    exists j: nat :: j < |references| && News(references, j) == {r}
  }

  lemma {:induction false} NewsNecessary(references: seq<Expression>, ins: seq<TxInput>)
    requires Assign(ReferenceDemands(references, ins), {}).Some? && Spendable(ins)
    ensures EveryListHasNews(references)
    ensures NewsForced(references) ==> RequiredReferenceRefs(references) <= InputRefs(ins)
  {
    var slots := Assign(ReferenceDemands(references, ins), {}).value;
    forall j: nat | j < |references| && ConstUtxoRefs(references[j]).Some? ensures News(references, j) != {} {
      var r := ServedByNews(references, ins, slots, j);
    }
    forall r | SoleNews(references, r) ensures r in InputRefs(ins) {
      var j: nat :| j < |references| && News(references, j) == {r};
      assert r in News(references, j);
      var s := ServedByNews(references, ins, slots, j);
    }
  }

  /** Every list and every parameter takes at least one reference input. */
  lemma {:induction false} OneEach(references: seq<Expression>, ins: seq<TxInput>)
    requires Assign(ReferenceDemands(references, ins), {}).Some?
    ensures |references| <= |ins|
  {
    var slots := Assign(ReferenceDemands(references, ins), {}).value;
    ReferencesSound(references, ins, slots);
    forall j | 0 <= j < |slots| ensures 1 <= |slots[j]| {
      assert ReferenceSlotOk(references[j], slots[j], Before(slots, j), ins);
    }
    SumBelowTotal(Ones(|references|), slots);
    SumOfOnes(|references|);
    TotalBound(slots, |ins|);
  }

  // ----- a match that needs no more

  /** What list `j` is served by: something it names first, and not `avoid` where it has a
      choice. */
  ghost function PickNews(references: seq<Expression>, j: nat, avoid: Option<UtxoRef>): (r: UtxoRef)
    requires j < |references| && News(references, j) != {}
    ensures r in News(references, j)
    ensures avoid.Some? && News(references, j) != {avoid.value} ==> Some(r) != avoid
  {
    var news := News(references, j);
    if exists r :: r in news && Some(r) != avoid then
      var r :| r in news && Some(r) != avoid;
      r
    else
      var r :| r in news;
      assert Some(r) == avoid && forall x | x in news :: Some(x) == avoid;
      r
  }

  /** A reference input for each list and, from `strays`, for each parameter. */
  ghost function LedgerRefs(references: seq<Expression>, avoid: Option<UtxoRef>, strays: seq<TxInput>): seq<TxInput>
    requires EveryListHasNews(references) && |strays| == |references|
  {
    seq(|references|, j requires 0 <= j < |references| =>
      if ConstUtxoRefs(references[j]).Some? then InputFor(PickNews(references, j, avoid)) else strays[j])
  }

  /** Nothing the references name is among `strays`. */
  ghost predicate Unnamed(references: seq<Expression>, strays: seq<TxInput>) {
    && |strays| == |references| && Spendable(strays)
    && forall i, j | 0 <= i < |strays| && 0 <= j < |references| :: Key(strays[i]) !in RefsOf(references[j])
  }

  /** No list names what is there for a later one, or for a later parameter. */
  lemma {:induction false} NotNamedEarlier(
      references: seq<Expression>, avoid: Option<UtxoRef>, strays: seq<TxInput>, j: nat, i: nat)
    requires EveryListHasNews(references) && Unnamed(references, strays)
    requires j < i < |references|
    ensures Key(LedgerRefs(references, avoid, strays)[i]) !in RefsOf(references[j])
  {
    if ConstUtxoRefs(references[i]).Some? {
      var r := PickNews(references, i, avoid);
      assert !NamedBefore(references, i, r);
    }
  }

  lemma {:induction false} LedgerRefsInOrder(
      references: seq<Expression>, avoid: Option<UtxoRef>, strays: seq<TxInput>, j: nat)
    requires EveryListHasNews(references) && Unnamed(references, strays) && j < |references|
    ensures var d := ReferenceDemand(references[j], LedgerRefs(references, avoid, strays));
      InOrder(d, j) && Fed(d, j) == 1
  {
    var ins := LedgerRefs(references, avoid, strays);
    match ConstUtxoRefs(references[j]) {
      case Some(refs) =>
        forall r, i: nat | r in refs && j < i < |ins| ensures Key(ins[i]) != r {
          NotNamedEarlier(references, avoid, strays, j, i);
        }
        assert Key(ins[j]) == PickNews(references, j, avoid);
        ListServedOnce(refs, ins, j);
      case None =>
        InOrderOne(ReferenceRow(references[j], ins), true, j);
    }
  }

  lemma {:induction false} LedgerRefsFrom(
      references: seq<Expression>, avoid: Option<UtxoRef>, strays: seq<TxInput>, j: nat)
    requires EveryListHasNews(references) && Unnamed(references, strays) && j <= |references|
    ensures AllInOrder(ReferenceDemands(references, LedgerRefs(references, avoid, strays))[j..], j)
    decreases |references| - j
  {
    var ds := ReferenceDemands(references, LedgerRefs(references, avoid, strays));
    if j < |references| {
      LedgerRefsFrom(references, avoid, strays, j + 1);
      LedgerRefsInOrder(references, avoid, strays, j);
      assert ds[j..] == [ds[j]] + ds[j + 1..];
      hide *;
      ConsInOrder(ds[j..], ds[j], ds[j + 1..], j, 1);
    }
  }

  lemma {:induction false} LedgerRefsServed(references: seq<Expression>, avoid: Option<UtxoRef>, strays: seq<TxInput>)
    requires EveryListHasNews(references) && Unnamed(references, strays)
    ensures Assign(ReferenceDemands(references, LedgerRefs(references, avoid, strays)), {}).Some?
  {
    var ds := ReferenceDemands(references, LedgerRefs(references, avoid, strays));
    LedgerRefsFrom(references, avoid, strays, 0);
    assert ds[0..] == ds;
    AssignInOrder(ds, {}, 0);
  }

  lemma {:induction false} LedgerRefsAreSpendable(
      references: seq<Expression>, avoid: Option<UtxoRef>, strays: seq<TxInput>)
    requires EveryListHasNews(references) && Unnamed(references, strays)
    ensures Spendable(LedgerRefs(references, avoid, strays))
  {
    var ins := LedgerRefs(references, avoid, strays);
    forall i: nat, j: nat | i < j < |ins| ensures Key(ins[i]) != Key(ins[j]) {
      NotNamedEarlier(references, avoid, strays, i, j);
      if ConstUtxoRefs(references[i]).Some? {
        assert Key(ins[i]) in RefsOf(references[i]);
      } else if ConstUtxoRefs(references[j]).Some? {
        assert Key(ins[j]) in RefsOf(references[j]);
      }
    }
  }

  lemma {:induction false} LedgerRefAt(
      references: seq<Expression>, avoid: Option<UtxoRef>, strays: seq<TxInput>, j: nat)
    requires EveryListHasNews(references) && |strays| == |references| && j < |references|
    ensures ConstUtxoRefs(references[j]).Some? ==>
      News(references, j) != {} &&
      Key(LedgerRefs(references, avoid, strays)[j]) == PickNews(references, j, avoid)
    ensures ConstUtxoRefs(references[j]).None? ==> LedgerRefs(references, avoid, strays)[j] == strays[j]
  {}

  /** A reference that is not forced is left out. */
  lemma {:induction false} LedgerRefsAvoid(references: seq<Expression>, r: UtxoRef, strays: seq<TxInput>)
    requires EveryListHasNews(references) && Unnamed(references, strays)
    requires r in RequiredReferenceRefs(references) && !SoleNews(references, r)
    ensures r !in InputRefs(LedgerRefs(references, Some(r), strays))
  {
    var k: nat :| k < |references| && r in RefsOf(references[k]);
    forall j: nat | j < |references| ensures Key(LedgerRefs(references, Some(r), strays)[j]) != r {
      LedgerRefAt(references, Some(r), strays, j);
      hide LedgerRefs, News, RefsOf, RequiredReferenceRefs, EveryListHasNews, Spendable;
      assert News(references, j) != {r};
      assert Key(strays[j]) !in RefsOf(references[k]);
    }
  }

  /** Strays of which the references name none, if there are ids enough. */
  lemma {:induction false} UnnamedStrays(references: seq<Expression>) returns (strays: seq<TxInput>)
    requires |references| + ReferenceTotal(references) <= Ids(32)
    ensures Unnamed(references, strays)
  {
    hide Ids, Strays;
    RequiredAreFew(references);
    strays := Strays(|references|, RequiredReferenceRefs(references));
    forall i, j | 0 <= i < |strays| && 0 <= j < |references| ensures Key(strays[i]) !in RefsOf(references[j]) {
      assert forall r | r in RefsOf(references[j]) :: r in RequiredReferenceRefs(references);
    }
  }

  lemma {:induction false} RequiredAreFew(references: seq<Expression>)
    ensures |RequiredReferenceRefs(references)| <= ReferenceTotal(references)
  {
    if references != [] {
      var rest := references[1..];
      RequiredAreFew(rest);
      var own := Elems(RefsOf(references[0]));
      forall r | r in RequiredReferenceRefs(references) ensures r in own + RequiredReferenceRefs(rest) {
        var j: nat :| j < |references| && r in RefsOf(references[j]);
        if j > 0 { assert rest[j - 1] == references[j]; }
      }
      SubsetCardinality(RequiredReferenceRefs(references), own + RequiredReferenceRefs(rest));
      ElemsAreFew(RefsOf(references[0]));
    }
  }

  lemma {:induction false} ElemsAreFew<T>(s: seq<T>)
    ensures |Elems(s)| <= |s|
  {
    if s != [] {
      ElemsAreFew(s[1..]);
      assert Elems(s) == {s[0]} + Elems(s[1..]);
    }
  }
}
