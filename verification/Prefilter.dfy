/** The pre-filter against the matcher: what a successful match already guarantees about the
    fingerprint, component by component. */
module Prefilter {
  import opened Base
  import opened Tir
  import opened Expr
  import opened Payload
  import opened Greedy
  import opened Matching
  import opened MatchLaws
  import opened Fingerprint
  import opened Summarize
  import Summary

  // ----- sums

  function Sum(xs: seq<nat>): nat {
    if xs == [] then 0 else Sum(xs[..|xs| - 1]) + xs[|xs| - 1]
  }

  /** Adding with saturation at every step is adding and saturating once. */
  lemma {:induction false} SaturatingSumIsSum(xs: seq<u16>)
    ensures SaturatingSum(xs) == Saturate16(Sum(xs))
  {
    if xs != [] { SaturatingSumIsSum(xs[..|xs| - 1]); }
  }

  lemma {:induction false} SumOfOnes(n: nat)
    ensures Sum(Ones(n)) == n
  {
    if n > 0 {
      SumOfOnes(n - 1);
      assert Ones(n)[..n - 1] == Ones(n - 1);
    }
  }

  /** Minimums that each slot meets are met in total. */
  lemma {:induction false} SumBelowTotal(mins: seq<u16>, slots: seq<seq<nat>>)
    requires |mins| == |slots|
    requires forall j | 0 <= j < |mins| :: mins[j] <= |slots[j]|
    ensures Sum(mins) <= Total(slots)
  {
    if mins != [] { SumBelowTotal(mins[..|mins| - 1], slots[..|mins| - 1]); }
  }

  /** The count test passes when every slot is at least as large as its element's minimum. */
  lemma {:induction false} CountPasses(mins: seq<u16>, slots: seq<seq<nat>>, n: nat)
    requires |mins| == |slots| && Disjoint(slots) && InRange(slots, n)
    requires forall j | 0 <= j < |mins| :: mins[j] <= |slots[j]|
    ensures SaturatingSum(mins) <= Saturate16(n)
  {
    SaturatingSumIsSum(mins);
    SumBelowTotal(mins, slots);
    TotalBound(slots, n);
  }

  // ----- components that every match guarantees

  lemma {:induction false} InputRefsNecessary(
      inputs: seq<Input>, ins: seq<TxInput>, resolved: ResolvedInputs, slots: seq<seq<nat>>)
    requires Assign(InputDemands(inputs, ins, resolved), {}) == Some(slots)
    ensures RequiredInputRefs(inputs) <= InputRefs(ins)
  {
    InputsSound(inputs, ins, resolved, slots);
    forall r | r in RequiredInputRefs(inputs) ensures r in InputRefs(ins) {
      var j: nat :| j < |inputs| && r in RefsOf(inputs[j].utxos);
      assert InputSlotOk(inputs[j].utxos, slots[j], Before(slots, j), ins, resolved);
      var k :| 0 <= k < |slots[j]| && RefsOf(inputs[j].utxos)[k] == r;
      assert slots[j][k] in RefRow(ins, r);
    }
  }

  lemma {:induction false} OutputCountNecessary(outputs: seq<Output>, outs: seq<TxOutput>, slots: seq<seq<nat>>)
    requires Assign(OutputDemands(outputs, outs), {}) == Some(slots)
    ensures SaturatingSum(OutputMinimums(outputs)) <= Saturate16(|outs|)
  {
    OutputsSound(outputs, outs, slots);
    forall j | 0 <= j < |outputs| ensures OutputMinimums(outputs)[j] <= |slots[j]| {
      assert OutputSlotOk(outputs[j], slots[j], Before(slots, j), outs);
    }
    CountPasses(OutputMinimums(outputs), slots, |outs|);
  }

  /** Every mint takes an entry of its sign, so there are at least as many entries of that
      sign as mints. */
  lemma {:induction false} MintCountNecessary(
      mints: seq<Mint>, burn: bool, entries: seq<MintEntry>, slots: seq<seq<nat>>)
    requires Assign(MintDemands(mints, burn, entries), {}) == Some(slots)
    ensures SaturatingSum(Ones(|mints|)) <=
      Saturate16(|if burn then NegativeEntries(entries) else PositiveEntries(entries)|)
  {
    hide Assign, MintDemands;
    MintsSound(mints, burn, entries, slots);
    var signed := if burn then NegativeEntries(entries) else PositiveEntries(entries);
    forall j: nat, k: nat | j < |slots| && k < |slots[j]| ensures slots[j][k] in signed {
      assert MintSlotOk(mints[j], burn, slots[j], Before(slots, j), entries);
    }
    DisjointCardinality(slots);
    SubsetCardinality(Before(slots, |slots|), signed);
    SaturatingSumIsSum(Ones(|mints|));
    forall j | 0 <= j < |mints| ensures Ones(|mints|)[j] <= |slots[j]| {
      assert MintSlotOk(mints[j], burn, slots[j], Before(slots, j), entries);
    }
    SumBelowTotal(Ones(|mints|), slots);
  }

  // ----- components that need a condition

  /** The inputs whose query pins an address got an entry. */
  ghost predicate PinnedQueriesFilled(inputs: seq<Input>, slots: seq<seq<nat>>)
    requires |slots| == |inputs|
  {
    forall j | 0 <= j < |inputs| :: PinnedByQuery(inputs[j].utxos).Some? ==> slots[j] != []
  }

  /** The inputs whose query asks for one entry got it. */
  ghost predicate SingleQueriesFilled(inputs: seq<Input>, slots: seq<seq<nat>>)
    requires |slots| == |inputs|
  {
    forall j | 0 <= j < |inputs| ::
      QueryOf(inputs[j].utxos).Some? && !QueryOf(inputs[j].utxos).value.many ==> slots[j] != []
  }

  lemma {:induction false} InputAddressesNecessary(
      inputs: seq<Input>, ins: seq<TxInput>, resolved: ResolvedInputs, slots: seq<seq<nat>>)
    requires Assign(InputDemands(inputs, ins, resolved), {}) == Some(slots) && |slots| == |inputs|
    requires PinnedQueriesFilled(inputs, slots)
    ensures RequiredInputAddresses(inputs) <= InputAddresses(ins, resolved)
  {
    InputsSound(inputs, ins, resolved, slots);
    forall a | a in RequiredInputAddresses(inputs) ensures a in InputAddresses(ins, resolved) {
      var j: nat :| j < |inputs| && a in ToSet(PinnedByQuery(inputs[j].utxos));
      var q := QueryOf(inputs[j].utxos).value;
      assert InputSlotOk(inputs[j].utxos, slots[j], Before(slots, j), ins, resolved);
      var i := slots[j][0];
      assert i in Elems(slots[j]);
      assert i in QueryRow(q, ins, resolved);
      assert ResolvedAddress(resolved, ins[i]) == Some(a);
    }
  }

  lemma {:induction false} InputCountNecessary(
      inputs: seq<Input>, ins: seq<TxInput>, resolved: ResolvedInputs, slots: seq<seq<nat>>)
    requires Assign(InputDemands(inputs, ins, resolved), {}) == Some(slots) && |slots| == |inputs|
    requires SingleQueriesFilled(inputs, slots)
    ensures SaturatingSum(InputMinimums(inputs)) <= Saturate16(|ins|)
  {
    InputsSound(inputs, ins, resolved, slots);
    forall j | 0 <= j < |inputs| ensures InputMinimums(inputs)[j] <= |slots[j]| {
      assert InputSlotOk(inputs[j].utxos, slots[j], Before(slots, j), ins, resolved);
    }
    CountPasses(InputMinimums(inputs), slots, |ins|);
  }

  /** Every address an optional output pins is also pinned by an output that is not optional. */
  ghost predicate OptionalPinsCovered(outputs: seq<Output>) {
    forall a | a in RequiredOutputAddresses(outputs) :: PinnedByRequired(outputs, a)
  }

  ghost predicate PinnedByRequired(outputs: seq<Output>, a: Base.Bytes) {
    exists j: nat :: j < |outputs| && !outputs[j].optional && ConstAddress(outputs[j].address) == Some(a)
  }

  lemma {:induction false} OutputAddressesNecessary(outputs: seq<Output>, outs: seq<TxOutput>, slots: seq<seq<nat>>)
    requires Assign(OutputDemands(outputs, outs), {}) == Some(slots)
    requires OptionalPinsCovered(outputs)
    ensures RequiredOutputAddresses(outputs) <= OutputAddresses(outs)
  {
    OutputsSound(outputs, outs, slots);
    forall a | a in RequiredOutputAddresses(outputs) ensures a in OutputAddresses(outs) {
      assert PinnedByRequired(outputs, a);
      var j: nat :| j < |outputs| && !outputs[j].optional && ConstAddress(outputs[j].address) == Some(a);
      assert OutputSlotOk(outputs[j], slots[j], Before(slots, j), outs);
      assert outs[slots[j][0]].address == Some(a);
    }
  }

  /** Every policy some mint names is the only policy of some mint. */
  ghost predicate PoliciesForced(mints: seq<Mint>) {
    forall p | p in RequiredPolicies(mints) :: SolePolicy(mints, p)
  }

  ghost predicate SolePolicy(mints: seq<Mint>, p: Base.Bytes) {
    exists j: nat :: j < |mints| && Elems(ConstPoliciesIn(mints[j].amount)) == {p}
  }

  lemma {:induction false} MintPoliciesNecessary(
      mints: seq<Mint>, burn: bool, entries: seq<MintEntry>, slots: seq<seq<nat>>)
    requires Assign(MintDemands(mints, burn, entries), {}) == Some(slots)
    requires PoliciesForced(mints)
    ensures RequiredPolicies(mints) <= if burn then NegativePolicies(entries) else PositivePolicies(entries)
  {
    MintsSound(mints, burn, entries, slots);
    forall p | p in RequiredPolicies(mints)
      ensures p in if burn then NegativePolicies(entries) else PositivePolicies(entries)
    {
      assert SolePolicy(mints, p);
      var j: nat :| j < |mints| && Elems(ConstPoliciesIn(mints[j].amount)) == {p};
      assert MintSlotOk(mints[j], burn, slots[j], Before(slots, j), entries);
      var i := slots[j][0];
      assert p in Elems(ConstPoliciesIn(mints[j].amount));
      assert entries[i].policy in Elems(ConstPoliciesIn(mints[j].amount));
      assert entries[i].policy == p;
    }
  }

  /** Every reference some list names is the only reference of some list. */
  ghost predicate RefsForced(references: seq<Expression>) {
    forall r | r in RequiredReferenceRefs(references) :: SoleRef(references, r)
  }

  ghost predicate SoleRef(references: seq<Expression>, r: UtxoRef) {
    exists j: nat :: j < |references| && Elems(RefsOf(references[j])) == {r}
  }

  lemma {:induction false} ReferenceRefsNecessary(references: seq<Expression>, ins: seq<TxInput>, slots: seq<seq<nat>>)
    requires Assign(ReferenceDemands(references, ins), {}) == Some(slots)
    requires RefsForced(references)
    ensures RequiredReferenceRefs(references) <= InputRefs(ins)
  {
    ReferencesSound(references, ins, slots);
    forall r | r in RequiredReferenceRefs(references) ensures r in InputRefs(ins) {
      assert SoleRef(references, r);
      var j: nat :| j < |references| && Elems(RefsOf(references[j])) == {r};
      var refs := RefsOf(references[j]);
      assert r in Elems(refs);
      assert ReferenceSlotOk(references[j], slots[j], Before(slots, j), ins);
      assert PickOk(RefRows(ins, refs), slots[j], Before(slots, j), 0);
      var t: nat :| t < |refs| && slots[j][0] in RefRow(ins, refs[t]);
      assert refs[t] in Elems(refs);
    }
  }

  /** A list of several references only names references that a later list names again. */
  ghost predicate ListsRecur(references: seq<Expression>) {
    forall j, r | 0 <= j < |references| && |RefsOf(references[j])| >= 2 && r in RefsOf(references[j]) ::
      NamedAfter(references, j, r)
  }

  ghost predicate NamedAfter(references: seq<Expression>, j: int, r: UtxoRef) {
    exists k :: j < k < |references| && k >= 0 && r in RefsOf(references[k])
  }

  /** Under `ListsRecur` no reference list is served in part: the later list still finds its
      entry, so it was free when the earlier list looked for it. */
  lemma {:induction false} ListsServedInFull(
      references: seq<Expression>, ins: seq<TxInput>, slots: seq<seq<nat>>, j: nat)
    requires Assign(ReferenceDemands(references, ins), {}) == Some(slots)
    requires ListsRecur(references)
    requires j < |references| == |slots|
    requires ConstUtxoRefs(references[j]).Some?
    ensures |slots[j]| == |RefsOf(references[j])|
    decreases |references| - j
  {
    var ds := ReferenceDemands(references, ins);
    var refs := RefsOf(references[j]);
    var rows := RefRows(ins, refs);
    var before := Before(slots, j);
    SlotAt(ds, {}, j);
    assert {} + before == before;
    PicksSound(rows, before);
    if |slots[j]| < |refs| {
      var t := UnservedRow(rows, before);
      assert NamedAfter(references, j, refs[t]);
      var k :| j < k < |references| && refs[t] in RefsOf(references[k]);
      ListsServedInFull(references, ins, slots, k);
      ReferencesSound(references, ins, slots);
      assert ReferenceSlotOk(references[k], slots[k], Before(slots, k), ins);
      var q :| 0 <= q < |RefsOf(references[k])| && RefsOf(references[k])[q] == refs[t];
      var i := slots[k][q];
      assert i in rows[t];
      BeforeStep(slots, j);
      assert false;
    }
  }

  lemma {:induction false} ReferenceCountNecessary(references: seq<Expression>, ins: seq<TxInput>, slots: seq<seq<nat>>)
    requires Assign(ReferenceDemands(references, ins), {}) == Some(slots)
    requires ListsRecur(references)
    ensures SaturatingSum(ReferenceMinimums(references)) <= Saturate16(|ins|)
  {
    hide Assign, ReferenceDemands, ListsRecur, Disjoint, InRange;
    ReferencesSound(references, ins, slots);
    forall j | 0 <= j < |references| ensures ReferenceMinimums(references)[j] <= |slots[j]| {
      if ConstUtxoRefs(references[j]).Some? {
        ListsServedInFull(references, ins, slots, j);
      } else {
        assert ReferenceSlotOk(references[j], slots[j], Before(slots, j), ins);
      }
    }
    CountPasses(ReferenceMinimums(references), slots, |ins|);
  }

  // ----- the pre-filter as a whole

  /** The tests of `Fingerprint::matches` that concern what the structural matcher looks at. */
  predicate StructuralPass(fp: Fingerprint, s: Summary.PayloadSummary) {
    && fp.inputRefs <= s.inputRefs
    && fp.inputAddresses <= s.inputAddresses
    && fp.outputAddresses <= s.outputAddresses
    && fp.referenceRefs <= s.referenceRefs
    && fp.mintPolicies <= s.mintPolicies
    && fp.burnPolicies <= s.burnPolicies
    && fp.minInputs <= s.inputCount
    && fp.minOutputs <= s.outputCount
    && fp.minMints <= s.mintCount
    && fp.minBurns <= s.burnCount
    && fp.minReferences <= s.referenceCount
  }

  /** The pre-filter never rejects a transaction that matches with all its query slots filled,
      for a TIR whose optional pins, policies and reference lists leave the matcher no choice. */
  lemma {:induction false} PrefilterNecessary(tx: Tx, ctx: CardanoTx, resolved: ResolvedInputs, m: MatchAssignment)
    requires MatchSpec(tx, ctx, resolved, m.profileName, m.txName) == Some(m) && |m.inputMap| == |tx.inputs|
    requires PinnedQueriesFilled(tx.inputs, m.inputMap) && SingleQueriesFilled(tx.inputs, m.inputMap)
    requires OptionalPinsCovered(tx.outputs)
    requires PoliciesForced(tx.mints) && PoliciesForced(tx.burns)
    requires RefsForced(tx.references) && ListsRecur(tx.references)
    ensures StructuralPass(Extracted(tx), Summarized(ctx, resolved))
  {
    InputRefsNecessary(tx.inputs, ctx.inputs, resolved, m.inputMap);
    InputAddressesNecessary(tx.inputs, ctx.inputs, resolved, m.inputMap);
    InputCountNecessary(tx.inputs, ctx.inputs, resolved, m.inputMap);
    OutputAddressesNecessary(tx.outputs, ctx.outputs, m.outputMap);
    OutputCountNecessary(tx.outputs, ctx.outputs, m.outputMap);
    MintPoliciesNecessary(tx.mints, false, ctx.mints, m.mintMap);
    MintCountNecessary(tx.mints, false, ctx.mints, m.mintMap);
    MintPoliciesNecessary(tx.burns, true, ctx.mints, m.burnMap);
    MintCountNecessary(tx.burns, true, ctx.mints, m.burnMap);
    ReferenceRefsNecessary(tx.references, ctx.references, m.referenceMap);
    ReferenceCountNecessary(tx.references, ctx.references, m.referenceMap);
  }
}
