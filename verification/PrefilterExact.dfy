/** Exactly when the pre-filter is necessary for a match. */
module PrefilterExact {
  // `Fingerprint::matches` is taken component by component. The conditions
  // are on the TIR alone; witness transactions show the only-if halves.

  import opened Base
  import opened Tir
  import opened Expr
  import opened Payload
  import opened Greedy
  import opened Matching
  import opened MatchLaws
  import opened Fingerprint
  import opened Summarize
  import opened Prefilter
  import opened ReferenceCost
  import opened Witness
  import opened Summary

  // ----- input addresses

  ghost predicate InputAddressesAlwaysPass(tx: Tx) {
    forall ctx: CardanoTx, resolved: ResolvedInputs | Accepts(tx, ctx, resolved) ::
      RequiredInputAddresses(tx.inputs) <= InputAddresses(ctx.inputs, resolved)
  }

  /** A query slot may stay empty, so a query that pins an address can be rejected by the
      filter although the matcher accepts. */
  lemma {:induction false} InputAddressesExact(tx: Tx)
    requires Matchable(tx)
    ensures InputAddressesAlwaysPass(tx) <==> RequiredInputAddresses(tx.inputs) == {}
  {
    WitnessAccepted(tx, FullChoice(tx));
    assert Accepts(tx, WitnessTx(tx, FullChoice(tx)), map[]);
    assert InputAddresses(InputFeed(tx.inputs), map[]) == {};
  }

  // ----- input count

  ghost predicate InputCountAlwaysPasses(tx: Tx) {
    forall ctx: CardanoTx, resolved: ResolvedInputs | Accepts(tx, ctx, resolved) ::
      SaturatingSum(InputMinimums(tx.inputs)) <= Saturate16(|ctx.inputs|)
  }

  lemma {:induction false} TotalHead(slots: seq<seq<nat>>)
    requires slots != []
    ensures Total(slots) == |slots[0]| + Total(slots[1..])
  {
    if |slots| > 1 {
      var front := slots[..|slots| - 1];
      TotalHead(front);
      assert slots[1..][..|slots| - 2] == front[1..];
    }
  }

  lemma {:induction false} FeedBelowTotal(inputs: seq<Input>, slots: seq<seq<nat>>)
    requires |inputs| == |slots|
    requires forall j | 0 <= j < |inputs| :: |OwnInputs(inputs[j..])| <= |slots[j]|
    ensures |InputFeed(inputs)| <= Total(slots)
  {
    if inputs != [] {
      assert inputs[0..] == inputs;
      forall j | 0 <= j < |inputs[1..]| ensures |OwnInputs(inputs[1..][j..])| <= |slots[1..][j]| {
        assert inputs[1..][j..] == inputs[j + 1..];
      }
      FeedBelowTotal(inputs[1..], slots[1..]);
      TotalHead(slots);
    }
  }

  /** An open query in front of references is never left empty: the references' inputs are
      still free when it looks. */
  lemma {:induction false} OpenQueryFilled(inputs: seq<Input>, ins: seq<TxInput>, resolved: ResolvedInputs,
                                           slots: seq<seq<nat>>, j: nat, l: nat)
    requires Assign(InputDemands(inputs, ins, resolved), {}) == Some(slots) && |slots| == |inputs|
    requires j < l < |inputs| && OpenQuery(inputs[j].utxos, false) && RefsOf(inputs[l].utxos) != []
    ensures slots[j] != []
  {
    InputsSound(inputs, ins, resolved, slots);
    assert InputSlotOk(inputs[j].utxos, slots[j], Before(slots, j), ins, resolved);
    assert InputSlotOk(inputs[l].utxos, slots[l], Before(slots, l), ins, resolved);
    var i := slots[l][0];
    assert i in QueryRow(QueryOf(inputs[j].utxos).value, ins, resolved);
    assert i !in Before(slots, l) + Elems(slots[l][..0]);
    assert i !in Before(slots, j);
  }

  lemma {:induction false} ForcedSlot(inputs: seq<Input>, ins: seq<TxInput>, resolved: ResolvedInputs,
                                      slots: seq<seq<nat>>, j: nat)
    requires Assign(InputDemands(inputs, ins, resolved), {}) == Some(slots) && |slots| == |inputs|
    requires j < |inputs|
    ensures |OwnInputs(inputs[j..])| <= |slots[j]|
  {
    var e := inputs[j].utxos;
    assert inputs[j..][0] == inputs[j] && inputs[j..][1..] == inputs[j + 1..];
    if OpenQuery(e, false) && HasRefs(inputs[j + 1..]) {
      var k :| 0 <= k < |inputs[j + 1..]| && RefsOf(inputs[j + 1..][k].utxos) != [];
      OpenQueryFilled(inputs, ins, resolved, slots, j, j + 1 + k);
    } else {
      InputsSound(inputs, ins, resolved, slots);
      assert InputSlotOk(e, slots[j], Before(slots, j), ins, resolved);
    }
  }

  lemma {:induction false} ForcedInputs(inputs: seq<Input>, ins: seq<TxInput>, resolved: ResolvedInputs)
    requires Assign(InputDemands(inputs, ins, resolved), {}).Some?
    ensures |InputFeed(inputs)| <= |ins|
  {
    var slots := Assign(InputDemands(inputs, ins, resolved), {}).value;
    InputsSound(inputs, ins, resolved, slots);
    forall j | 0 <= j < |inputs| ensures |OwnInputs(inputs[j..])| <= |slots[j]| {
      ForcedSlot(inputs, ins, resolved, slots, j);
    }
    FeedBelowTotal(inputs, slots);
    TotalBound(slots, |ins|);
  }

  /** The fewest inputs any matching transaction has is the size of the witness. */
  lemma {:induction false} InputCountExact(tx: Tx)
    requires Matchable(tx)
    ensures InputCountAlwaysPasses(tx) <==>
      SaturatingSum(InputMinimums(tx.inputs)) <= Saturate16(|InputFeed(tx.inputs)|)
  {
    WitnessAccepted(tx, FullChoice(tx));
    assert Accepts(tx, WitnessTx(tx, FullChoice(tx)), map[]);
    forall ctx: CardanoTx, resolved: ResolvedInputs | Accepts(tx, ctx, resolved)
      ensures |InputFeed(tx.inputs)| <= |ctx.inputs|
    {
      ForcedInputs(tx.inputs, ctx.inputs, resolved);
    }
  }

  // ----- output addresses

  ghost predicate OutputAddressesAlwaysPass(tx: Tx) {
    forall ctx: CardanoTx, resolved: ResolvedInputs | Accepts(tx, ctx, resolved) ::
      RequiredOutputAddresses(tx.outputs) <= OutputAddresses(ctx.outputs)
  }

  lemma {:induction false} OutputAddressesExact(tx: Tx)
    requires Matchable(tx)
    ensures OutputAddressesAlwaysPass(tx) <==> OptionalPinsCovered(tx.outputs)
  {
    if OptionalPinsCovered(tx.outputs) {
      forall ctx: CardanoTx, resolved: ResolvedInputs | Accepts(tx, ctx, resolved)
        ensures RequiredOutputAddresses(tx.outputs) <= OutputAddresses(ctx.outputs)
      {
        var slots := Assign(OutputDemands(tx.outputs, ctx.outputs), {}).value;
        OutputAddressesNecessary(tx.outputs, ctx.outputs, slots);
      }
    } else {
      var a :| a in RequiredOutputAddresses(tx.outputs) && !PinnedByRequired(tx.outputs, a);
      var ch := FullChoice(tx).(avoidOutput := Some(a));
      assert OnlyOptionalPins(tx.outputs, Some(a));
      WitnessAccepted(tx, ch);
      OutputFeedPlain(tx.outputs, Some(a));
      assert a !in OutputAddresses(WitnessTx(tx, ch).outputs);
    }
  }

  // ----- mint and burn policies

  ghost predicate MintPoliciesAlwaysPass(tx: Tx) {
    forall ctx: CardanoTx, resolved: ResolvedInputs | Accepts(tx, ctx, resolved) ::
      RequiredPolicies(tx.mints) <= PositivePolicies(ctx.mints)
  }

  ghost predicate BurnPoliciesAlwaysPass(tx: Tx) {
    forall ctx: CardanoTx, resolved: ResolvedInputs | Accepts(tx, ctx, resolved) ::
      RequiredPolicies(tx.burns) <= NegativePolicies(ctx.mints)
  }

  /** The witness entries of one sign avoid a policy that no mint is tied to. */
  lemma {:induction false} FeedAvoids(tx: Tx, ch: Choice, p: Base.Bytes)
    ensures ch.avoidMint == Some(p) && !SolePolicy(tx.mints, p) ==> p !in PositivePolicies(WitnessTx(tx, ch).mints)
    ensures ch.avoidBurn == Some(p) && !SolePolicy(tx.burns, p) ==> p !in NegativePolicies(WitnessTx(tx, ch).mints)
  {
    var minted, burnt := MintFeed(tx.mints, false, ch.avoidMint), MintFeed(tx.burns, true, ch.avoidBurn);
    var entries := minted + burnt;
    forall i: nat | i < |entries|
      ensures AnyPositive(entries[i]) <==> i < |minted|
      ensures AnyNegative(entries[i]) <==> i >= |minted|
      ensures i < |minted| && ch.avoidMint == Some(p) && !SolePolicy(tx.mints, p) ==> entries[i].policy != p
      ensures i >= |minted| && ch.avoidBurn == Some(p) && !SolePolicy(tx.burns, p) ==> entries[i].policy != p
    {
      if i < |minted| {
        EntrySign(tx.mints[i], false, ch.avoidMint);
        ChoosePolicySound(ConstPoliciesIn(tx.mints[i].amount), ch.avoidMint);
      } else {
        EntrySign(tx.burns[i - |minted|], true, ch.avoidBurn);
        ChoosePolicySound(ConstPoliciesIn(tx.burns[i - |minted|].amount), ch.avoidBurn);
      }
    }
  }

  lemma {:induction false} MintPoliciesExact(tx: Tx)
    requires Matchable(tx)
    ensures MintPoliciesAlwaysPass(tx) <==> PoliciesForced(tx.mints)
  {
    if PoliciesForced(tx.mints) {
      forall ctx: CardanoTx, resolved: ResolvedInputs | Accepts(tx, ctx, resolved)
        ensures RequiredPolicies(tx.mints) <= PositivePolicies(ctx.mints)
      {
        MintPoliciesNecessary(tx.mints, false, ctx.mints, Assign(MintDemands(tx.mints, false, ctx.mints), {}).value);
      }
    } else {
      var p :| p in RequiredPolicies(tx.mints) && !SolePolicy(tx.mints, p);
      var ch := FullChoice(tx).(avoidMint := Some(p));
      WitnessAccepted(tx, ch);
      FeedAvoids(tx, ch, p);
      assert p !in PositivePolicies(WitnessTx(tx, ch).mints);
    }
  }

  lemma {:induction false} BurnPoliciesExact(tx: Tx)
    requires Matchable(tx)
    ensures BurnPoliciesAlwaysPass(tx) <==> PoliciesForced(tx.burns)
  {
    if PoliciesForced(tx.burns) {
      forall ctx: CardanoTx, resolved: ResolvedInputs | Accepts(tx, ctx, resolved)
        ensures RequiredPolicies(tx.burns) <= NegativePolicies(ctx.mints)
      {
        MintPoliciesNecessary(tx.burns, true, ctx.mints, Assign(MintDemands(tx.burns, true, ctx.mints), {}).value);
      }
    } else {
      var p :| p in RequiredPolicies(tx.burns) && !SolePolicy(tx.burns, p);
      var ch := FullChoice(tx).(avoidBurn := Some(p));
      WitnessAccepted(tx, ch);
      FeedAvoids(tx, ch, p);
      assert p !in NegativePolicies(WitnessTx(tx, ch).mints);
    }
  }

  // ----- references

  ghost predicate ReferenceRefsAlwaysPass(tx: Tx) {
    forall ctx: CardanoTx, resolved: ResolvedInputs | Accepts(tx, ctx, resolved) ::
      RequiredReferenceRefs(tx.references) <= InputRefs(ctx.references)
  }

  lemma {:induction false} OnlyNamesSole(refs: seq<UtxoRef>, r: UtxoRef)
    ensures OnlyNames(refs, r) <==> Elems(refs) == {r}
  {
    if OnlyNames(refs, r) {
      assert refs[0] in refs && forall x | x in refs :: x == r;
    } else if refs != [] {
      var x := Without(refs, r)[0];
      assert x in Without(refs, r);
      assert x in Elems(refs) && x != r;
    }
  }

  lemma {:induction false} ThinnedWitness(tx: Tx, r: UtxoRef)
    requires Matchable(tx) && !SoleRef(tx.references, r)
    ensures exists ctx: CardanoTx, resolved :: Accepts(tx, ctx, resolved) && r !in InputRefs(ctx.references)
  {
    forall j | 0 <= j < |tx.references| ensures !OnlyNames(RefsOf(tx.references[j]), r) {
      OnlyNamesSole(RefsOf(tx.references[j]), r);
    }
    var ch := FullChoice(tx).(k := 0, r := r);
    WitnessAccepted(tx, ch);
    FeedLacks(tx.references, r);
    assert r !in InputRefs(WitnessTx(tx, ch).references);
  }

  lemma {:induction false} ReferenceRefsExact(tx: Tx)
    requires Matchable(tx)
    ensures ReferenceRefsAlwaysPass(tx) <==> RefsForced(tx.references)
  {
    if RefsForced(tx.references) {
      forall ctx: CardanoTx, resolved: ResolvedInputs | Accepts(tx, ctx, resolved)
        ensures RequiredReferenceRefs(tx.references) <= InputRefs(ctx.references)
      {
        ReferenceRefsNecessary(tx.references, ctx.references,
                               Assign(ReferenceDemands(tx.references, ctx.references), {}).value);
      }
    } else {
      var r :| r in RequiredReferenceRefs(tx.references) && !SoleRef(tx.references, r);
      ThinnedWitness(tx, r);
    }
  }

  ghost predicate ReferenceCountAlwaysPasses(tx: Tx) {
    forall ctx: CardanoTx, resolved: ResolvedInputs | Accepts(tx, ctx, resolved) ::
      SaturatingSum(ReferenceMinimums(tx.references)) <= Saturate16(|ctx.references|)
  }

  /** How many references the lists name in all, a parameter counting as one. */
  function ReferenceTotal(references: seq<Expression>): nat {
    if references == [] then 0
    else
      (match ConstUtxoRefs(references[0])
       case Some(refs) => |refs|
       case None => 1) + ReferenceTotal(references[1..])
  }

  lemma {:induction false} SumHead(xs: seq<nat>)
    requires xs != []
    ensures Sum(xs) == xs[0] + Sum(xs[1..])
  {
    if |xs| > 1 {
      var front := xs[..|xs| - 1];
      SumHead(front);
      assert xs[1..][..|xs| - 2] == front[1..];
    }
  }

  lemma {:induction false} ReferenceTotalIsSum(references: seq<Expression>)
    requires ReferenceTotal(references) <= U16_MAX
    ensures Sum(ReferenceMinimums(references)) == ReferenceTotal(references)
  {
    if references != [] {
      ReferenceTotalIsSum(references[1..]);
      SumHead(ReferenceMinimums(references));
      assert ReferenceMinimums(references)[1..] == ReferenceMinimums(references[1..]);
    }
  }

  /** Thinning a list of several references leaves at least one of them out. */
  lemma {:induction false} FeedShrinks(references: seq<Expression>, k: nat, r: UtxoRef)
    ensures |ReferenceFeed(references, k, r)| <= ReferenceTotal(references)
    ensures k < |references| && r in RefsOf(references[k]) && |RefsOf(references[k])| >= 2 ==>
      |ReferenceFeed(references, k, r)| < ReferenceTotal(references)
  {
    if references != [] {
      FeedShrinks(references[1..], if k == 0 then 0 else k - 1, r);
    }
  }

  /** The count passes always exactly if the fewest reference inputs that serve the template
      meet the minimum. */
  lemma {:induction false} ReferenceCountExact(tx: Tx)
    requires Matchable(tx)
    ensures ReferenceCountAlwaysPasses(tx) <==>
      SaturatingSum(ReferenceMinimums(tx.references)) <= Saturate16(FewestReferences(tx.references))
  {
    forall ctx: CardanoTx, resolved: ResolvedInputs | Accepts(tx, ctx, resolved)
      ensures FewestReferences(tx.references) <= |ctx.references|
    {
      FewestNecessary(tx.references, ctx.references);
    }
    var ins := FewestSuffices(tx.references);
    var ctx := WitnessTx(tx, FullChoice(tx)).(references := ins);
    WitnessAccepted(tx, FullChoice(tx));
    assert Accepts(tx, ctx, map[]);
  }

  /** Up to 65535 references, where the counters neither wrap nor saturate, that is so exactly
      if no list of several references can be served in part, all of them being needed again by
      later lists. */
  lemma {:induction false} RecurringListsExact(tx: Tx)
    requires Matchable(tx)
    ensures ListsRecur(tx.references) ==> ReferenceCountAlwaysPasses(tx)
    ensures ReferenceTotal(tx.references) <= U16_MAX && ReferenceCountAlwaysPasses(tx) ==> ListsRecur(tx.references)
  {
    if ListsRecur(tx.references) {
      forall ctx: CardanoTx, resolved: ResolvedInputs | Accepts(tx, ctx, resolved)
        ensures SaturatingSum(ReferenceMinimums(tx.references)) <= Saturate16(|ctx.references|)
      {
        ReferenceCountNecessary(tx.references, ctx.references,
                                Assign(ReferenceDemands(tx.references, ctx.references), {}).value);
      }
    } else if ReferenceTotal(tx.references) <= U16_MAX {
      var j, r :| 0 <= j < |tx.references| && |RefsOf(tx.references[j])| >= 2 && r in RefsOf(tx.references[j]) &&
        !NamedAfter(tx.references, j, r);
      var ch := FullChoice(tx).(k := j, r := r);
      forall i, l | j <= i < l < |tx.references| && r in RefsOf(tx.references[i])
        ensures !OnlyNames(RefsOf(tx.references[l]), r)
      {
        OnlyNamesSole(RefsOf(tx.references[l]), r);
        assert r !in RefsOf(tx.references[l]);
      }
      assert CanThin(tx.references, j, r);
      WitnessAccepted(tx, ch);
      FeedShrinks(tx.references, j, r);
      ReferenceTotalIsSum(tx.references);
      SaturatingSumIsSum(ReferenceMinimums(tx.references));
      assert Accepts(tx, WitnessTx(tx, ch), map[]);
    }
  }

  // ----- the whole filter

  ghost predicate NeverRejectsAMatch(tx: Tx) {
    forall ctx: CardanoTx, resolved: ResolvedInputs | Accepts(tx, ctx, resolved) ::
      Extracted(tx).Matches(Summarized(ctx, resolved))
  }

  /** Nothing is required of parts the matcher does not look at. */
  ghost predicate RequiresOnlyStructure(tx: Tx) {
    && Extracted(tx).valuePolicies == {}
    && Extracted(tx).signers == {}
    && Extracted(tx).metadataLabels == {}
    && tx.validity.None?
    && tx.collateral == []
  }

  ghost predicate StructureForced(tx: Tx) {
    && RequiredInputAddresses(tx.inputs) == {}
    && SaturatingSum(InputMinimums(tx.inputs)) <= Saturate16(|InputFeed(tx.inputs)|)
    && OptionalPinsCovered(tx.outputs)
    && PoliciesForced(tx.mints)
    && PoliciesForced(tx.burns)
    && RefsForced(tx.references)
    && NoEmptyList(tx.references)
    && SaturatingSum(ReferenceMinimums(tx.references)) <= Saturate16(FewestReferences(tx.references))
  }

  /** Nothing but structure: no assets, signers, metadata, collateral or validity interval. */
  ghost predicate Bare(s: PayloadSummary) {
    s.valuePolicies == {} && s.signers == {} && s.metadataLabels == {} && s.collateralCount == 0 && !s.hasValidity
  }

  /** The remaining tests of the filter fail on the witness as soon as they require anything. */
  lemma {:induction false} WitnessIsBare(tx: Tx)
    ensures Bare(Summarized(WitnessTx(tx, FullChoice(tx)), map[]))
  {
    OutputFeedPlain(tx.outputs, None);
    assert forall i | 0 <= i < |OutputFeed(tx.outputs, None)| ::
      OutputFeed(tx.outputs, None)[i] in OutputFeed(tx.outputs, None);
  }

  lemma {:induction false} ForcedNeverRejects(tx: Tx, ctx: CardanoTx, resolved: ResolvedInputs)
    requires Matchable(tx) && RequiresOnlyStructure(tx) && StructureForced(tx)
    requires Accepts(tx, ctx, resolved)
    ensures Extracted(tx).Matches(Summarized(ctx, resolved))
  {
    var m := MatchSpec(tx, ctx, resolved, "", "").value;
    InputRefsNecessary(tx.inputs, ctx.inputs, resolved, m.inputMap);
    InputCountExact(tx);
    OutputAddressesNecessary(tx.outputs, ctx.outputs, m.outputMap);
    OutputCountNecessary(tx.outputs, ctx.outputs, m.outputMap);
    MintPoliciesNecessary(tx.mints, false, ctx.mints, m.mintMap);
    MintCountNecessary(tx.mints, false, ctx.mints, m.mintMap);
    MintPoliciesNecessary(tx.burns, true, ctx.mints, m.burnMap);
    MintCountNecessary(tx.burns, true, ctx.mints, m.burnMap);
    ReferenceRefsNecessary(tx.references, ctx.references, m.referenceMap);
    FewestNecessary(tx.references, ctx.references);
  }

  lemma {:induction false} NeverRejectsComponents(tx: Tx)
    requires NeverRejectsAMatch(tx)
    ensures InputAddressesAlwaysPass(tx) && InputCountAlwaysPasses(tx) && OutputAddressesAlwaysPass(tx)
    ensures MintPoliciesAlwaysPass(tx) && BurnPoliciesAlwaysPass(tx)
    ensures ReferenceRefsAlwaysPass(tx) && ReferenceCountAlwaysPasses(tx)
  {
  }

  /** The pre-filter is a necessary condition for a match exactly when the TIR leaves the
      matcher no way around what the filter requires. */
  lemma {:induction false} PrefilterExactness(tx: Tx)
    requires Matchable(tx)
    ensures NeverRejectsAMatch(tx) <==> RequiresOnlyStructure(tx) && StructureForced(tx)
  {
    if RequiresOnlyStructure(tx) && StructureForced(tx) {
      forall ctx: CardanoTx, resolved: ResolvedInputs | Accepts(tx, ctx, resolved)
        ensures Extracted(tx).Matches(Summarized(ctx, resolved))
      {
        ForcedNeverRejects(tx, ctx, resolved);
      }
    }
    if NeverRejectsAMatch(tx) {
      NeverRejectsComponents(tx);
      InputAddressesExact(tx);
      InputCountExact(tx);
      OutputAddressesExact(tx);
      MintPoliciesExact(tx);
      BurnPoliciesExact(tx);
      ReferenceRefsExact(tx);
      ReferenceCountExact(tx);
      WitnessAccepted(tx, FullChoice(tx));
      WitnessIsBare(tx);
    }
  }

  // ----- a concrete rejection

  /** An enterprise address: a header byte and a key hash of 28 bytes. */
  function AddressOf(b: byte): Base.Bytes {
    [0x61] + seq(28, _ => b)
  }

  /** One input that must come from a given address. */
  const PINNED_QUERY :=
    Tx([Input("source", EvalParam(ExpectInput("source", InputQuery(Address(AddressOf(1)), NoExpr, false))))],
       [], [], [], [], [], None, [], None)

  /** A transaction with no inputs matches it (the slot stays empty) and is rejected by its
      fingerprint. */
  lemma {:induction false} PrefilterRejectsAMatch()
    ensures exists ctx, resolved ::
      Accepts(PINNED_QUERY, ctx, resolved) && !Extracted(PINNED_QUERY).Matches(Summarized(ctx, resolved))
  {
    var tx := PINNED_QUERY;
    assert AddressOf(1) in ToSet(PinnedByQuery(tx.inputs[0].utxos));
    assert AddressOf(1) in RequiredInputAddresses(tx.inputs);
    InputAddressesExact(tx);
    var ctx: CardanoTx, resolved: ResolvedInputs :| Accepts(tx, ctx, resolved) &&
      !(RequiredInputAddresses(tx.inputs) <= InputAddresses(ctx.inputs, resolved));
    assert !Extracted(tx).Matches(Summarized(ctx, resolved));
  }
}
