/** The cheap pre-filter derived from a specialized TIR (crates/tx3-lift/src/fingerprint.rs). */
module Fingerprint {
  import opened Base
  import opened Tir
  import opened Expr
  import opened Summary

  datatype Fingerprint = Fingerprint(
    inputAddresses: set<Base.Bytes>,
    outputAddresses: set<Base.Bytes>,
    inputRefs: set<UtxoRef>,
    referenceRefs: set<UtxoRef>,
    mintPolicies: set<Base.Bytes>,
    burnPolicies: set<Base.Bytes>,
    valuePolicies: set<Base.Bytes>,
    signers: set<Base.Bytes>,
    metadataLabels: set<u64>,
    minInputs: u16,
    minOutputs: u16,
    minMints: u16,
    minBurns: u16,
    minCollateral: u16,
    minReferences: u16,
    hasValidity: bool,
    extras: map<string, Base.Bytes>)
  {
    predicate Matches(s: PayloadSummary) {
      && inputAddresses <= s.inputAddresses
      && outputAddresses <= s.outputAddresses
      && inputRefs <= s.inputRefs
      && referenceRefs <= s.referenceRefs
      && mintPolicies <= s.mintPolicies
      && burnPolicies <= s.burnPolicies
      && valuePolicies <= s.valuePolicies
      && signers <= s.signers
      && metadataLabels <= s.metadataLabels
      && minInputs <= s.inputCount
      && minOutputs <= s.outputCount
      && minMints <= s.mintCount
      && minBurns <= s.burnCount
      && minCollateral <= s.collateralCount
      && minReferences <= s.referenceCount
      && (hasValidity ==> s.hasValidity)
      && (forall k | k in extras :: k in s.extras && s.extras[k] == extras[k])
    }

    function InformationScore(): nat {
      |inputAddresses| + |outputAddresses| + |inputRefs| + |referenceRefs| + |mintPolicies|
      + |burnPolicies| + |valuePolicies| + |signers| + |metadataLabels|
    }
  }

  // ----- what one TIR element requires

  /** The constant references of an input or reference expression. */
  function RefsOf(e: Expression): seq<UtxoRef> {
    match ConstUtxoRefs(e)
    case Some(refs) => refs
    case None => []
  }

  /** The query of an input that has no constant references. */
  function QueryOf(e: Expression): Option<InputQuery> {
    if ConstUtxoRefs(e).Some? then None else ExpectInputQuery(e)
  }

  function PinnedByQuery(e: Expression): Option<Base.Bytes> {
    match QueryOf(e)
    case Some(q) => ConstAddress(q.address)
    case None => None
  }

  function ValuePoliciesOfInput(i: Input): seq<Base.Bytes> {
    match QueryOf(i.utxos)
    case Some(q) => ConstPoliciesIn(q.minAmount)
    case None => []
  }

  /** How much one input adds to `min_inputs`. */
  function InputMinimum(e: Expression): u16 {
    match ConstUtxoRefs(e)
    case Some(refs) => Truncate16(|refs|)
    case None =>
      match ExpectInputQuery(e)
      case Some(q) => if q.many then 0 else 1
      case None => 0
  }

  function ReferenceMinimum(e: Expression): u16 {
    match ConstUtxoRefs(e)
    case Some(refs) => Truncate16(|refs|)
    case None => 1
  }

  function OutputMinimum(o: Output): u16 {
    if o.optional then 0 else 1
  }

  // ----- what a list of TIR elements requires

  function ToSet<T(==)>(o: Option<T>): set<T> {
    match o
    case Some(x) => {x}
    case None => {}
  }

  /** Saturating sum, in the order the loops add. */
  function SaturatingSum(xs: seq<u16>): u16 {
    if xs == [] then 0 else SaturatingAdd16(SaturatingSum(xs[..|xs| - 1]), xs[|xs| - 1])
  }

  function InputMinimums(inputs: seq<Input>): seq<u16> {
    seq(|inputs|, j requires 0 <= j < |inputs| => InputMinimum(inputs[j].utxos))
  }

  function OutputMinimums(outputs: seq<Output>): seq<u16> {
    seq(|outputs|, j requires 0 <= j < |outputs| => OutputMinimum(outputs[j]))
  }

  function ReferenceMinimums(references: seq<Expression>): seq<u16> {
    seq(|references|, j requires 0 <= j < |references| => ReferenceMinimum(references[j]))
  }

  function Ones(n: nat): seq<u16> {
    seq(n, _ => 1)
  }

  function RequiredInputRefs(inputs: seq<Input>): set<UtxoRef> {
    set j: nat, r | j < |inputs| && r in RefsOf(inputs[j].utxos) :: r
  }

  function RequiredInputAddresses(inputs: seq<Input>): set<Base.Bytes> {
    set j: nat, a | j < |inputs| && a in ToSet(PinnedByQuery(inputs[j].utxos)) :: a
  }

  function InputValuePolicies(inputs: seq<Input>): set<Base.Bytes> {
    set j: nat, p | j < |inputs| && p in ValuePoliciesOfInput(inputs[j]) :: p
  }

  function RequiredOutputAddresses(outputs: seq<Output>): set<Base.Bytes> {
    set j: nat, a | j < |outputs| && a in ToSet(ConstAddress(outputs[j].address)) :: a
  }

  function OutputValuePolicies(outputs: seq<Output>): set<Base.Bytes> {
    set j: nat, p | j < |outputs| && p in ConstPoliciesIn(outputs[j].amount) :: p
  }

  function RequiredPolicies(mints: seq<Mint>): set<Base.Bytes> {
    set j: nat, p | j < |mints| && p in ConstPoliciesIn(mints[j].amount) :: p
  }

  function RequiredReferenceRefs(references: seq<Expression>): set<UtxoRef> {
    set j: nat, r | j < |references| && r in RefsOf(references[j]) :: r
  }

  function RequiredSigners(signers: Option<seq<Expression>>): set<Base.Bytes> {
    match signers
    case None => {}
    case Some(es) => set j: nat, b | j < |es| && b in ToSet(ConstBytes(es[j])) :: b
  }

  /** The metadata label an entry pins: a constant number that fits `u64`. */
  function LabelOf(m: Metadata): Option<u64> {
    match ConstNumber(m.key)
    case Some(n) => if 0 <= n < TWO_TO_THE_64 then Some(n) else None
    case None => None
  }

  function RequiredLabels(metadata: seq<Metadata>): set<u64> {
    set j: nat, l | j < |metadata| && l in ToSet(LabelOf(metadata[j])) :: l
  }

  /** The fingerprint as a whole: required sets are unions over the TIR elements, minimum
      counts are saturating sums. */
  function Extracted(tx: Tx): Fingerprint {
    Fingerprint(
      RequiredInputAddresses(tx.inputs),
      RequiredOutputAddresses(tx.outputs),
      RequiredInputRefs(tx.inputs),
      RequiredReferenceRefs(tx.references),
      RequiredPolicies(tx.mints),
      RequiredPolicies(tx.burns),
      InputValuePolicies(tx.inputs) + OutputValuePolicies(tx.outputs),
      RequiredSigners(tx.signers),
      RequiredLabels(tx.metadata),
      SaturatingSum(InputMinimums(tx.inputs)),
      SaturatingSum(OutputMinimums(tx.outputs)),
      SaturatingSum(Ones(|tx.mints|)),
      SaturatingSum(Ones(|tx.burns|)),
      Saturate16(|tx.collateral|),
      SaturatingSum(ReferenceMinimums(tx.references)),
      tx.validity.Some?,
      map[])
  }

  lemma {:induction false} SaturatingSumSnoc(xs: seq<u16>, k: nat)
    requires k < |xs|
    ensures SaturatingSum(xs[..k + 1]) == SaturatingAdd16(SaturatingSum(xs[..k]), xs[k])
  {
    assert xs[..k + 1][..k] == xs[..k];
  }

  // ----- the loops

  lemma {:induction false} InputStep(inputs: seq<Input>, j: nat)
    requires j < |inputs|
    ensures var e := inputs[j].utxos;
      && RequiredInputRefs(inputs[..j + 1]) == RequiredInputRefs(inputs[..j]) + Elems(RefsOf(e))
      && RequiredInputAddresses(inputs[..j + 1]) == RequiredInputAddresses(inputs[..j]) + ToSet(PinnedByQuery(e))
      && InputValuePolicies(inputs[..j + 1]) == InputValuePolicies(inputs[..j]) + Elems(ValuePoliciesOfInput(inputs[j]))
  {
    var done := inputs[..j + 1];
    assert forall i | 0 <= i < j :: done[i] == inputs[..j][i];
    assert RequiredInputRefs(done) == RequiredInputRefs(inputs[..j]) + Elems(RefsOf(inputs[j].utxos));
    assert RequiredInputAddresses(done) == RequiredInputAddresses(inputs[..j]) + ToSet(PinnedByQuery(inputs[j].utxos));
    assert InputValuePolicies(done) == InputValuePolicies(inputs[..j]) + Elems(ValuePoliciesOfInput(inputs[j]));
  }

  method ExtractInputs(inputs: seq<Input>)
    returns (refs: set<UtxoRef>, addresses: set<Base.Bytes>, values: set<Base.Bytes>, minInputs: u16)
    ensures refs == RequiredInputRefs(inputs) && addresses == RequiredInputAddresses(inputs)
    ensures values == InputValuePolicies(inputs) && minInputs == SaturatingSum(InputMinimums(inputs))
  {
    refs, addresses, values, minInputs := {}, {}, {}, 0;
    ghost var mins := InputMinimums(inputs);
    for j := 0 to |inputs|
      invariant refs == RequiredInputRefs(inputs[..j]) && addresses == RequiredInputAddresses(inputs[..j])
      invariant values == InputValuePolicies(inputs[..j]) && minInputs == SaturatingSum(mins[..j])
    {
      var e := inputs[j].utxos;
      InputStep(inputs, j);
      SaturatingSumSnoc(mins, j);
      var constRefs := ConstUtxoRefs(e);
      if constRefs.Some? {
        refs := refs + Elems(constRefs.value);
        minInputs := SaturatingAdd16(minInputs, Truncate16(|constRefs.value|));
        continue;
      }
      var query := ExpectInputQuery(e);
      if query.Some? {
        var q := query.value;
        var address := ConstAddress(q.address);
        if address.Some? {
          addresses := addresses + {address.value};
        }
        values := values + Elems(ConstPoliciesIn(q.minAmount));
        if !q.many {
          minInputs := SaturatingAdd16(minInputs, 1);
        }
      }
    }
    assert inputs[..|inputs|] == inputs && mins[..|inputs|] == mins;
  }

  lemma {:induction false} OutputStep(outputs: seq<Output>, j: nat)
    requires j < |outputs|
    ensures RequiredOutputAddresses(outputs[..j + 1]) ==
      RequiredOutputAddresses(outputs[..j]) + ToSet(ConstAddress(outputs[j].address))
    ensures OutputValuePolicies(outputs[..j + 1]) ==
      OutputValuePolicies(outputs[..j]) + Elems(ConstPoliciesIn(outputs[j].amount))
  {
    var done := outputs[..j + 1];
    assert forall i | 0 <= i < j :: done[i] == outputs[..j][i];
    assert done[j] == outputs[j];
  }

  method ExtractOutputs(outputs: seq<Output>)
    returns (addresses: set<Base.Bytes>, values: set<Base.Bytes>, minOutputs: u16)
    ensures addresses == RequiredOutputAddresses(outputs) && values == OutputValuePolicies(outputs)
    ensures minOutputs == SaturatingSum(OutputMinimums(outputs))
  {
    addresses, values, minOutputs := {}, {}, 0;
    ghost var mins := OutputMinimums(outputs);
    for j := 0 to |outputs|
      invariant addresses == RequiredOutputAddresses(outputs[..j]) && values == OutputValuePolicies(outputs[..j])
      invariant minOutputs == SaturatingSum(mins[..j])
    {
      var output := outputs[j];
      OutputStep(outputs, j);
      SaturatingSumSnoc(mins, j);
      if !output.optional {
        minOutputs := SaturatingAdd16(minOutputs, 1);
      }
      var address := ConstAddress(output.address);
      if address.Some? {
        addresses := addresses + {address.value};
      }
      values := values + Elems(ConstPoliciesIn(output.amount));
    }
    assert outputs[..|outputs|] == outputs && mins[..|outputs|] == mins;
  }

  method ExtractMints(mints: seq<Mint>) returns (policies: set<Base.Bytes>, counter: u16)
    ensures policies == RequiredPolicies(mints)
    ensures counter == SaturatingSum(Ones(|mints|))
  {
    policies, counter := {}, 0;
    ghost var ones := Ones(|mints|);
    for j := 0 to |mints|
      invariant policies == RequiredPolicies(mints[..j])
      invariant counter == SaturatingSum(ones[..j])
    {
      ghost var done := mints[..j + 1];
      assert forall i | 0 <= i < j :: done[i] == mints[..j][i];
      assert RequiredPolicies(done) == RequiredPolicies(mints[..j]) + Elems(ConstPoliciesIn(mints[j].amount));
      SaturatingSumSnoc(ones, j);
      policies := policies + Elems(ConstPoliciesIn(mints[j].amount));
      counter := SaturatingAdd16(counter, 1);
    }
    assert mints[..|mints|] == mints && ones[..|mints|] == ones;
  }

  method ExtractReferences(references: seq<Expression>) returns (refs: set<UtxoRef>, minReferences: u16)
    ensures refs == RequiredReferenceRefs(references)
    ensures minReferences == SaturatingSum(ReferenceMinimums(references))
  {
    refs, minReferences := {}, 0;
    ghost var mins := ReferenceMinimums(references);
    for j := 0 to |references|
      invariant refs == RequiredReferenceRefs(references[..j])
      invariant minReferences == SaturatingSum(mins[..j])
    {
      ghost var done := references[..j + 1];
      assert forall i | 0 <= i < j :: done[i] == references[..j][i];
      assert RequiredReferenceRefs(done) == RequiredReferenceRefs(references[..j]) + Elems(RefsOf(references[j]));
      SaturatingSumSnoc(mins, j);
      var constRefs := ConstUtxoRefs(references[j]);
      if constRefs.Some? {
        refs := refs + Elems(constRefs.value);
        minReferences := SaturatingAdd16(minReferences, Truncate16(|constRefs.value|));
      } else {
        minReferences := SaturatingAdd16(minReferences, 1);
      }
    }
    assert references[..|references|] == references && mins[..|references|] == mins;
  }

  method ExtractSigners(signers: Option<seq<Expression>>) returns (required: set<Base.Bytes>)
    ensures required == RequiredSigners(signers)
  {
    required := {};
    if signers.Some? {
      var es := signers.value;
      for j := 0 to |es|
        invariant required == RequiredSigners(Some(es[..j]))
      {
        assert forall i | 0 <= i < j :: es[..j + 1][i] == es[..j][i];
        assert RequiredSigners(Some(es[..j + 1])) == RequiredSigners(Some(es[..j])) + ToSet(ConstBytes(es[j]));
        var b := ConstBytes(es[j]);
        if b.Some? {
          required := required + {b.value};
        }
      }
      assert es[..|es|] == es;
    }
  }

  method ExtractLabels(metadata: seq<Metadata>) returns (labels: set<u64>)
    ensures labels == RequiredLabels(metadata)
  {
    labels := {};
    for j := 0 to |metadata|
      invariant labels == RequiredLabels(metadata[..j])
    {
      assert forall i | 0 <= i < j :: metadata[..j + 1][i] == metadata[..j][i];
      assert RequiredLabels(metadata[..j + 1]) == RequiredLabels(metadata[..j]) + ToSet(LabelOf(metadata[j]));
      var n := ConstNumber(metadata[j].key);
      if n.Some? && 0 <= n.value < TWO_TO_THE_64 {
        labels := labels + {n.value};
      }
    }
    assert metadata[..|metadata|] == metadata;
  }

  method Extract(tx: Tx) returns (fp: Fingerprint)
    ensures fp == Extracted(tx)
  {
    var inputRefs, inputAddresses, inputValues, minInputs := ExtractInputs(tx.inputs);
    var outputAddresses, outputValues, minOutputs := ExtractOutputs(tx.outputs);
    var mintPolicies, minMints := ExtractMints(tx.mints);
    var burnPolicies, minBurns := ExtractMints(tx.burns);
    var referenceRefs, minReferences := ExtractReferences(tx.references);
    var signers := ExtractSigners(tx.signers);
    var labels := ExtractLabels(tx.metadata);
    fp := Fingerprint(
      inputAddresses, outputAddresses, inputRefs, referenceRefs, mintPolicies, burnPolicies,
      inputValues + outputValues, signers, labels, minInputs, minOutputs, minMints, minBurns,
      Saturate16(|tx.collateral|), minReferences, tx.validity.Some?, map[]);
  }
}
