/** `Set` wrappers anywhere in a TIR change neither its fingerprint nor any match. */
module ErasureInvariance {
  import opened Base
  import opened Tir
  import opened Expr
  import opened SetErasure
  import opened Payload
  import opened Greedy
  import opened Matching
  import opened Fingerprint

  // ----- element by element

  lemma {:induction false} EraseInputParts(e: Expression)
    ensures RefsOf(Erase(e)) == RefsOf(e)
    ensures PinnedByQuery(Erase(e)) == PinnedByQuery(e)
    ensures InputMinimum(Erase(e)) == InputMinimum(e)
    ensures ReferenceMinimum(Erase(e)) == ReferenceMinimum(e)
  {
    ErasePreservesReaders(e);
    match ExpectInputQuery(e)
    case Some(q) => ErasePreservesReaders(q.address);
    case None =>
  }

  lemma {:induction false} EraseInputValues(i: Input)
    ensures ValuePoliciesOfInput(EraseInput(i)) == ValuePoliciesOfInput(i)
  {
    ErasePreservesReaders(i.utxos);
    match ExpectInputQuery(i.utxos)
    case Some(q) => ErasePreservesPolicies(q.minAmount);
    case None =>
  }

  lemma {:induction false} EraseOutputParts(o: Output)
    ensures ConstAddress(EraseOutput(o).address) == ConstAddress(o.address)
    ensures ConstPoliciesIn(EraseOutput(o).amount) == ConstPoliciesIn(o.amount)
    ensures OutputMinimum(EraseOutput(o)) == OutputMinimum(o)
  {
    ErasePreservesReaders(o.address);
    ErasePreservesPolicies(o.amount);
  }

  // ----- the fingerprint

  lemma {:induction false} EraseInputsFingerprint(tx: Tx)
    ensures var inputs := EraseTx(tx).inputs;
      && RequiredInputRefs(inputs) == RequiredInputRefs(tx.inputs)
      && RequiredInputAddresses(inputs) == RequiredInputAddresses(tx.inputs)
      && InputValuePolicies(inputs) == InputValuePolicies(tx.inputs)
      && InputMinimums(inputs) == InputMinimums(tx.inputs)
  {
    var inputs := EraseTx(tx).inputs;
    forall j | 0 <= j < |inputs|
      ensures RefsOf(inputs[j].utxos) == RefsOf(tx.inputs[j].utxos)
      ensures PinnedByQuery(inputs[j].utxos) == PinnedByQuery(tx.inputs[j].utxos)
      ensures InputMinimum(inputs[j].utxos) == InputMinimum(tx.inputs[j].utxos)
      ensures ValuePoliciesOfInput(inputs[j]) == ValuePoliciesOfInput(tx.inputs[j])
    {
      EraseInputParts(tx.inputs[j].utxos);
      EraseInputValues(tx.inputs[j]);
    }
  }

  lemma {:induction false} EraseOutputsFingerprint(tx: Tx)
    ensures var outputs := EraseTx(tx).outputs;
      && RequiredOutputAddresses(outputs) == RequiredOutputAddresses(tx.outputs)
      && OutputValuePolicies(outputs) == OutputValuePolicies(tx.outputs)
      && OutputMinimums(outputs) == OutputMinimums(tx.outputs)
  {
    var outputs := EraseTx(tx).outputs;
    forall j | 0 <= j < |outputs|
      ensures ConstAddress(outputs[j].address) == ConstAddress(tx.outputs[j].address)
      ensures ConstPoliciesIn(outputs[j].amount) == ConstPoliciesIn(tx.outputs[j].amount)
      ensures OutputMinimum(outputs[j]) == OutputMinimum(tx.outputs[j])
    {
      EraseOutputParts(tx.outputs[j]);
    }
  }

  lemma {:induction false} EraseMintsFingerprint(mints: seq<Mint>)
    ensures RequiredPolicies(EraseMints(mints)) == RequiredPolicies(mints)
  {
    forall j | 0 <= j < |mints|
      ensures ConstPoliciesIn(EraseMints(mints)[j].amount) == ConstPoliciesIn(mints[j].amount)
    {
      ErasePreservesPolicies(mints[j].amount);
    }
  }

  lemma {:induction false} EraseReferencesFingerprint(tx: Tx)
    ensures RequiredReferenceRefs(EraseTx(tx).references) == RequiredReferenceRefs(tx.references)
    ensures ReferenceMinimums(EraseTx(tx).references) == ReferenceMinimums(tx.references)
  {
    var references := EraseTx(tx).references;
    forall j | 0 <= j < |references|
      ensures RefsOf(references[j]) == RefsOf(tx.references[j])
      ensures ReferenceMinimum(references[j]) == ReferenceMinimum(tx.references[j])
    {
      EraseInputParts(tx.references[j]);
    }
  }

  lemma {:induction false} EraseEachAt(es: seq<Expression>, j: nat)
    requires j < |es|
    ensures EraseEach(es)[j] == Erase(es[j])
  {
    if j > 0 { EraseEachAt(es[1..], j - 1); }
  }

  lemma {:induction false} EraseSignersFingerprint(tx: Tx)
    ensures RequiredSigners(EraseTx(tx).signers) == RequiredSigners(tx.signers)
    ensures RequiredLabels(EraseTx(tx).metadata) == RequiredLabels(tx.metadata)
  {
    if tx.signers.Some? {
      var es := tx.signers.value;
      forall j | 0 <= j < |es| ensures ConstBytes(EraseEach(es)[j]) == ConstBytes(es[j]) {
        EraseEachAt(es, j);
        ErasePreservesReaders(es[j]);
      }
    }
    var metadata := EraseTx(tx).metadata;
    forall j | 0 <= j < |metadata| ensures LabelOf(metadata[j]) == LabelOf(tx.metadata[j]) {
      ErasePreservesReaders(tx.metadata[j].key);
    }
  }

  /** Every required set and every minimum is unchanged. (The content hash `tir_hash` is taken
      of the serialized TIR and is not part of the fingerprint modelled here.) */
  lemma {:induction false} ErasePreservesFingerprint(tx: Tx)
    ensures Extracted(EraseTx(tx)) == Extracted(tx)
  {
    EraseInputsFingerprint(tx);
    EraseOutputsFingerprint(tx);
    EraseMintsFingerprint(tx.mints);
    EraseMintsFingerprint(tx.burns);
    EraseReferencesFingerprint(tx);
    EraseSignersFingerprint(tx);
  }

  // ----- the match

  lemma {:induction false} EraseInputDemand(e: Expression, ins: seq<TxInput>, resolved: ResolvedInputs)
    ensures InputDemand(Erase(e), ins, resolved) == InputDemand(e, ins, resolved)
  {
    ErasePreservesReaders(e);
    match ExpectInputQuery(e)
    case Some(q) =>
      ErasePreservesReaders(q.address);
      assert QueryRow(EraseQuery(q), ins, resolved) == QueryRow(q, ins, resolved);
    case None =>
  }

  lemma {:induction false} EraseDemands(tx: Tx, ctx: CardanoTx, resolved: ResolvedInputs)
    ensures InputDemands(EraseTx(tx).inputs, ctx.inputs, resolved) == InputDemands(tx.inputs, ctx.inputs, resolved)
    ensures OutputDemands(EraseTx(tx).outputs, ctx.outputs) == OutputDemands(tx.outputs, ctx.outputs)
    ensures ReferenceDemands(EraseTx(tx).references, ctx.references) == ReferenceDemands(tx.references, ctx.references)
  {
    var e := EraseTx(tx);
    forall j | 0 <= j < |tx.inputs|
      ensures InputDemand(e.inputs[j].utxos, ctx.inputs, resolved)
        == InputDemand(tx.inputs[j].utxos, ctx.inputs, resolved)
    {
      EraseInputDemand(tx.inputs[j].utxos, ctx.inputs, resolved);
    }
    forall j | 0 <= j < |tx.outputs|
      ensures OutputDemand(e.outputs[j], ctx.outputs) == OutputDemand(tx.outputs[j], ctx.outputs)
    {
      EraseOutputParts(tx.outputs[j]);
      assert OutputRow(e.outputs[j], ctx.outputs) == OutputRow(tx.outputs[j], ctx.outputs);
    }
    forall j | 0 <= j < |tx.references|
      ensures ReferenceDemand(e.references[j], ctx.references) == ReferenceDemand(tx.references[j], ctx.references)
    {
      ErasePreservesReaders(tx.references[j]);
      assert ReferenceRow(e.references[j], ctx.references) == ReferenceRow(tx.references[j], ctx.references);
    }
  }

  lemma {:induction false} EraseMintDemands(mints: seq<Mint>, burn: bool, entries: seq<MintEntry>)
    ensures MintDemands(EraseMints(mints), burn, entries) == MintDemands(mints, burn, entries)
  {
    forall j | 0 <= j < |mints|
      ensures MintDemand(EraseMints(mints)[j], burn, entries) == MintDemand(mints[j], burn, entries)
    {
      ErasePreservesPolicies(mints[j].amount);
      assert MintRow(EraseMints(mints)[j], burn, entries) == MintRow(mints[j], burn, entries);
    }
  }

  /** The result of `match_tx` is unchanged, on every payload. */
  lemma {:induction false} ErasePreservesMatch(tx: Tx, ctx: CardanoTx, resolved: ResolvedInputs, profileName: string,
                                               txName: string)
    ensures MatchSpec(EraseTx(tx), ctx, resolved, profileName, txName)
      == MatchSpec(tx, ctx, resolved, profileName, txName)
  {
    EraseDemands(tx, ctx, resolved);
    EraseMintDemands(tx.mints, false, ctx.mints);
    EraseMintDemands(tx.burns, true, ctx.mints);
  }
}
