/** The projection of a transaction (crates/tx3-lift-cardano/src/summarize.rs). */
module Summarize {
  import opened Base
  import opened Payload
  import opened Summary

  function InputRefs(ins: seq<TxInput>): set<UtxoRef> {
    set i: nat | i < |ins| :: Key(ins[i])
  }

  function InputAddresses(ins: seq<TxInput>, resolved: ResolvedInputs): set<Bytes> {
    set i: nat | i < |ins| && ResolvedAddress(resolved, ins[i]).Some? :: ResolvedAddress(resolved, ins[i]).value
  }

  function InputPolicies(ins: seq<TxInput>, resolved: ResolvedInputs): set<Bytes> {
    set i: nat, p | i < |ins| && ResolvedOutput(resolved, ins[i]).Some? &&
                    p in ResolvedOutput(resolved, ins[i]).value.policies :: p
  }

  function OutputAddresses(outs: seq<TxOutput>): set<Bytes> {
    set i: nat | i < |outs| && outs[i].address.Some? :: outs[i].address.value
  }

  function DatumAddresses(outs: seq<TxOutput>): set<Bytes> {
    set i: nat | i < |outs| && outs[i].address.Some? && outs[i].datum.Some? :: outs[i].address.value
  }

  function OutputPolicies(outs: seq<TxOutput>): set<Bytes> {
    set i: nat, p | i < |outs| && p in outs[i].policies :: p
  }

  function PositivePolicies(entries: seq<MintEntry>): set<Bytes> {
    set i: nat | i < |entries| && AnyPositive(entries[i]) :: entries[i].policy
  }

  function NegativePolicies(entries: seq<MintEntry>): set<Bytes> {
    set i: nat | i < |entries| && AnyNegative(entries[i]) :: entries[i].policy
  }

  function PositiveEntries(entries: seq<MintEntry>): set<nat> {
    set i: nat | i < |entries| && AnyPositive(entries[i])
  }

  function NegativeEntries(entries: seq<MintEntry>): set<nat> {
    set i: nat | i < |entries| && AnyNegative(entries[i])
  }

  /** Sets are images of the transaction's parts; counts are cardinalities capped at 65535. */
  function Summarized(tx: CardanoTx, resolved: ResolvedInputs): PayloadSummary {
    PayloadSummary(
      InputAddresses(tx.inputs, resolved),
      OutputAddresses(tx.outputs),
      DatumAddresses(tx.outputs),
      InputRefs(tx.inputs),
      InputRefs(tx.references),
      PositivePolicies(tx.mints),
      NegativePolicies(tx.mints),
      InputPolicies(tx.inputs, resolved) + OutputPolicies(tx.outputs),
      Elems(tx.signers),
      Elems(tx.metadataLabels),
      Saturate16(|tx.inputs|),
      Saturate16(|tx.outputs|),
      Saturate16(|PositiveEntries(tx.mints)|),
      Saturate16(|NegativeEntries(tx.mints)|),
      Saturate16(|tx.collateral|),
      Saturate16(|tx.references|),
      tx.validityStart.Some? || tx.ttl.Some?,
      map[])
  }

  method Summarize(payload: CardanoPayload) returns (r: Result<PayloadSummary>)
    ensures payload.parsed.None? ==> r == Err(PallasDecode)
    ensures payload.parsed.Some? ==> r == Ok(Summarized(payload.parsed.value, payload.resolved))
  {
    if payload.parsed.None? {
      return Err(PallasDecode);
    }
    var tx := payload.parsed.value;
    var inputRefs, inputAddresses, inputPolicies := SummarizeInputs(tx.inputs, payload.resolved);
    var outputAddresses, datumAddresses, outputPolicies := SummarizeOutputs(tx.outputs);
    var mintPolicies, burnPolicies, mintCount, burnCount := SummarizeMints(tx.mints);
    var referenceRefs: set<UtxoRef> := {};
    for i := 0 to |tx.references|
      invariant referenceRefs == InputRefs(tx.references[..i])
    {
      assert forall j | 0 <= j < i :: tx.references[..i + 1][j] == tx.references[..i][j];
      assert InputRefs(tx.references[..i + 1]) == InputRefs(tx.references[..i]) + {Key(tx.references[i])};
      referenceRefs := referenceRefs + {Key(tx.references[i])};
    }
    assert tx.references[..|tx.references|] == tx.references;
    return Ok(PayloadSummary(
      inputAddresses, outputAddresses, datumAddresses, inputRefs, referenceRefs, mintPolicies, burnPolicies,
      inputPolicies + outputPolicies, Elems(tx.signers), Elems(tx.metadataLabels),
      Saturate16(|tx.inputs|), Saturate16(|tx.outputs|), mintCount, burnCount,
      Saturate16(|tx.collateral|), Saturate16(|tx.references|),
      tx.validityStart.Some? || tx.ttl.Some?, map[]));
  }

  lemma {:induction false} InputStep(ins: seq<TxInput>, resolved: ResolvedInputs, i: nat)
    requires i < |ins|
    ensures InputRefs(ins[..i + 1]) == InputRefs(ins[..i]) + {Key(ins[i])}
    ensures var output := ResolvedOutput(resolved, ins[i]);
      && InputAddresses(ins[..i + 1], resolved) ==
           InputAddresses(ins[..i], resolved)
           + (if output.Some? && output.value.address.Some? then {output.value.address.value} else {})
      && InputPolicies(ins[..i + 1], resolved) ==
           InputPolicies(ins[..i], resolved) + (if output.Some? then Elems(output.value.policies) else {})
  {
    assert forall j | 0 <= j < i :: ins[..i + 1][j] == ins[..i][j];
    assert ins[..i + 1][i] == ins[i];
  }

  lemma {:induction false} PositiveStep(entries: seq<MintEntry>, i: nat)
    requires i < |entries|
    ensures PositivePolicies(entries[..i + 1]) ==
      PositivePolicies(entries[..i]) + (if AnyPositive(entries[i]) then {entries[i].policy} else {})
    ensures |PositiveEntries(entries[..i + 1])| ==
      |PositiveEntries(entries[..i])| + (if AnyPositive(entries[i]) then 1 else 0)
  {
    var before, done := entries[..i], entries[..i + 1];
    assert done == before + [entries[i]];
    assert PositiveEntries(done) == PositiveEntries(before) + (if AnyPositive(entries[i]) then {i} else {});
  }

  lemma {:induction false} NegativeStep(entries: seq<MintEntry>, i: nat)
    requires i < |entries|
    ensures NegativePolicies(entries[..i + 1]) ==
      NegativePolicies(entries[..i]) + (if AnyNegative(entries[i]) then {entries[i].policy} else {})
    ensures |NegativeEntries(entries[..i + 1])| ==
      |NegativeEntries(entries[..i])| + (if AnyNegative(entries[i]) then 1 else 0)
  {
    var before, done := entries[..i], entries[..i + 1];
    assert done == before + [entries[i]];
    assert NegativeEntries(done) == NegativeEntries(before) + (if AnyNegative(entries[i]) then {i} else {});
  }

  method SummarizeInputs(ins: seq<TxInput>, resolved: ResolvedInputs)
    returns (refs: set<UtxoRef>, addresses: set<Bytes>, policies: set<Bytes>)
    ensures refs == InputRefs(ins)
    ensures addresses == InputAddresses(ins, resolved)
    ensures policies == InputPolicies(ins, resolved)
  {
    refs, addresses, policies := {}, {}, {};
    for i := 0 to |ins|
      invariant refs == InputRefs(ins[..i])
      invariant addresses == InputAddresses(ins[..i], resolved)
      invariant policies == InputPolicies(ins[..i], resolved)
    {
      InputStep(ins, resolved, i);
      refs := refs + {Key(ins[i])};
      if Key(ins[i]) in resolved && resolved[Key(ins[i])].Decoded? {
        var output := resolved[Key(ins[i])].output;
        if output.address.Some? {
          addresses := addresses + {output.address.value};
        }
        policies := policies + Elems(output.policies);
      }
    }
    assert ins[..|ins|] == ins;
  }

  method SummarizeOutputs(outs: seq<TxOutput>)
    returns (addresses: set<Bytes>, withDatum: set<Bytes>, policies: set<Bytes>)
    ensures addresses == OutputAddresses(outs)
    ensures withDatum == DatumAddresses(outs)
    ensures policies == OutputPolicies(outs)
  {
    addresses, withDatum, policies := {}, {}, {};
    for i := 0 to |outs|
      invariant addresses == OutputAddresses(outs[..i])
      invariant withDatum == DatumAddresses(outs[..i])
      invariant policies == OutputPolicies(outs[..i])
    {
      ghost var done := outs[..i + 1];
      assert forall j | 0 <= j < i :: done[j] == outs[..i][j];
      assert done[i] == outs[i];
      if outs[i].address.Some? {
        addresses := addresses + {outs[i].address.value};
        if outs[i].datum.Some? {
          withDatum := withDatum + {outs[i].address.value};
        }
      }
      policies := policies + Elems(outs[i].policies);
      assert addresses == OutputAddresses(done);
      assert withDatum == DatumAddresses(done);
      assert policies == OutputPolicies(done);
    }
    assert outs[..|outs|] == outs;
  }

  method SummarizeMints(entries: seq<MintEntry>)
    returns (mintPolicies: set<Bytes>, burnPolicies: set<Bytes>, mintCount: u16, burnCount: u16)
    ensures mintPolicies == PositivePolicies(entries) && mintCount == Saturate16(|PositiveEntries(entries)|)
    ensures burnPolicies == NegativePolicies(entries) && burnCount == Saturate16(|NegativeEntries(entries)|)
  {
    hide AnyPositive, AnyNegative;
    mintPolicies, burnPolicies, mintCount, burnCount := {}, {}, 0, 0;
    for i := 0 to |entries|
      invariant mintPolicies == PositivePolicies(entries[..i])
      invariant mintCount == Saturate16(|PositiveEntries(entries[..i])|)
      invariant burnPolicies == NegativePolicies(entries[..i])
      invariant burnCount == Saturate16(|NegativeEntries(entries[..i])|)
    {
      PositiveStep(entries, i);
      NegativeStep(entries, i);
      var hasPositive, hasNegative := Signs(entries[i]);
      if hasPositive {
        mintPolicies := mintPolicies + {entries[i].policy};
        mintCount := SaturatingAdd16(mintCount, 1);
      }
      if hasNegative {
        burnPolicies := burnPolicies + {entries[i].policy};
        burnCount := SaturatingAdd16(burnCount, 1);
      }
    }
    assert entries[..|entries|] == entries;
  }

  /** The sign scan over one policy's assets. */
  method Signs(entry: MintEntry) returns (hasPositive: bool, hasNegative: bool)
    ensures hasPositive == AnyPositive(entry)
    ensures hasNegative == AnyNegative(entry)
  {
    hasPositive, hasNegative := false, false;
    for i := 0 to |entry.assets|
      invariant hasPositive <==> exists j | 0 <= j < i :: entry.assets[j].coin > 0
      invariant hasNegative <==> exists j | 0 <= j < i :: entry.assets[j].coin < 0
    {
      var coin := entry.assets[i].coin;
      if coin > 0 {
        hasPositive := true;
      } else if coin < 0 {
        hasNegative := true;
      }
    }
  }

  /** The datum set is the part of the output addresses that carries a datum. */
  lemma {:induction false} DatumAddressesAreOutputAddresses(tx: CardanoTx, resolved: ResolvedInputs)
    ensures Summarized(tx, resolved).outputAddressesWithDatum <= Summarized(tx, resolved).outputAddresses
  {
  }
}
