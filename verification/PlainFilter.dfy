/** What the gate and the pre-filter say, in terms of template and transaction. */
module PlainFilter {
  // No reader and no summary is named in these statements.

  import opened Base
  import opened Tir
  import opened Expr
  import opened Payload
  import opened Readers
  import opened PlainMatch
  import opened Fingerprint
  import opened Summarize
  import opened Prefilter
  import Anchors

  // ----- the transaction

  ghost predicate SomeSpends(ins: seq<TxInput>, r: UtxoRef) {
    exists i :: 0 <= i < |ins| && Spends(ins[i], r)
  }

  ghost predicate SomeComesFrom(ins: seq<TxInput>, resolved: ResolvedInputs, a: Base.Bytes) {
    exists i :: 0 <= i < |ins| && ComesFrom(resolved, ins[i], a)
  }

  ghost predicate SomePays(outs: seq<TxOutput>, a: Base.Bytes) {
    exists i :: 0 <= i < |outs| && outs[i].address == Some(a)
  }

  ghost predicate SomeSendsData(outs: seq<TxOutput>, a: Base.Bytes) {
    exists i :: 0 <= i < |outs| && outs[i].address == Some(a) && outs[i].datum != None
  }

  ghost predicate SomeMoves(entries: seq<MintEntry>, burn: bool, p: Base.Bytes) {
    exists i :: 0 <= i < |entries| && entries[i].policy == p && Moves(entries[i], burn)
  }

  ghost predicate SpendsAsset(ins: seq<TxInput>, resolved: ResolvedInputs, p: Base.Bytes) {
    exists i, o :: 0 <= i < |ins| && ResolvesTo(resolved, ins[i], o) && p in o.policies
  }

  ghost predicate SendsAsset(outs: seq<TxOutput>, p: Base.Bytes) {
    exists i :: 0 <= i < |outs| && p in outs[i].policies
  }

  lemma {:induction false} RefsSummarized(ins: seq<TxInput>, r: UtxoRef)
    ensures r in InputRefs(ins) <==> SomeSpends(ins, r)
  {
    forall i: nat | i < |ins| ensures Key(ins[i]) == r <==> Spends(ins[i], r) { KeyIsSpent(ins[i], r); }
    hide Spends, Key;
  }

  lemma {:induction false} AddressesSummarized(ins: seq<TxInput>, resolved: ResolvedInputs, a: Base.Bytes)
    ensures a in InputAddresses(ins, resolved) <==> SomeComesFrom(ins, resolved, a)
  {
    forall i: nat | i < |ins| ensures ResolvedAddress(resolved, ins[i]) == Some(a) <==> ComesFrom(resolved, ins[i], a) {
      AddressIs(resolved, ins[i], a);
    }
    hide ComesFrom, ResolvedAddress;
  }

  lemma {:induction false} OutputsSummarized(outs: seq<TxOutput>, a: Base.Bytes)
    ensures a in OutputAddresses(outs) <==> SomePays(outs, a)
    ensures a in DatumAddresses(outs) <==> SomeSendsData(outs, a)
    ensures a in OutputPolicies(outs) <==> SendsAsset(outs, a)
  {}

  lemma {:induction false} MintsSummarized(entries: seq<MintEntry>, p: Base.Bytes)
    ensures p in PositivePolicies(entries) <==> SomeMoves(entries, false, p)
    ensures p in NegativePolicies(entries) <==> SomeMoves(entries, true, p)
  {
    forall i: nat | i < |entries|
      ensures AnyPositive(entries[i]) <==> Moves(entries[i], false)
      ensures AnyNegative(entries[i]) <==> Moves(entries[i], true)
    {
      MovesIsSign(entries[i]);
    }
    hide AnyPositive, AnyNegative, Moves;
  }

  lemma {:induction false} AssetsSummarized(ins: seq<TxInput>, resolved: ResolvedInputs, p: Base.Bytes)
    ensures p in InputPolicies(ins, resolved) <==> SpendsAsset(ins, resolved, p)
  {
    if p in InputPolicies(ins, resolved) {
      var i: nat :| i < |ins| && ResolvedOutput(resolved, ins[i]).Some? &&
        p in ResolvedOutput(resolved, ins[i]).value.policies;
      ResolvedIs(resolved, ins[i], ResolvedOutput(resolved, ins[i]).value);
    }
    if SpendsAsset(ins, resolved, p) {
      var i, o :| 0 <= i < |ins| && ResolvesTo(resolved, ins[i], o) && p in o.policies;
      ResolvedIs(resolved, ins[i], o);
    }
  }

  /** How many of the entries mint, or burn. */
  ghost function Moving(entries: seq<MintEntry>, burn: bool): set<nat> {
    set i: nat | i < |entries| && Moves(entries[i], burn)
  }

  lemma {:induction false} MovingSummarized(entries: seq<MintEntry>)
    ensures PositiveEntries(entries) == Moving(entries, false) && NegativeEntries(entries) == Moving(entries, true)
  {
    forall i: nat | i < |entries|
      ensures AnyPositive(entries[i]) <==> Moves(entries[i], false)
      ensures AnyNegative(entries[i]) <==> Moves(entries[i], true)
    {
      MovesIsSign(entries[i]);
    }
    hide AnyPositive, AnyNegative, Moves;
  }

  // ----- the gate

  /** A source gates exactly where one of its anchors is an address that an input comes from or
      that an output with a datum pays, an output that is spent or referenced, or a policy of
      which something is minted or burnt. */
  lemma {:induction false} GatesPlainly(a: Anchors.ProtocolAnchors, tx: CardanoTx, resolved: ResolvedInputs)
    ensures Anchors.HitsOf(a, Summarized(tx, resolved)).Gates() <==>
      || (exists x :: x in a.addresses && (SomeComesFrom(tx.inputs, resolved, x) || SomeSendsData(tx.outputs, x)))
      || (exists r :: r in a.utxoRefs && (SomeSpends(tx.inputs, r) || SomeSpends(tx.references, r)))
      || (exists p :: p in a.policies && (SomeMoves(tx.mints, false, p) || SomeMoves(tx.mints, true, p)))
  {
    Anchors.GatesExact(a, Summarized(tx, resolved));
    forall x
      ensures x in InputAddresses(tx.inputs, resolved) <==> SomeComesFrom(tx.inputs, resolved, x)
      ensures x in DatumAddresses(tx.outputs) <==> SomeSendsData(tx.outputs, x)
      ensures x in PositivePolicies(tx.mints) <==> SomeMoves(tx.mints, false, x)
      ensures x in NegativePolicies(tx.mints) <==> SomeMoves(tx.mints, true, x)
    {
      AddressesSummarized(tx.inputs, resolved, x);
      OutputsSummarized(tx.outputs, x);
      MintsSummarized(tx.mints, x);
    }
    forall r
      ensures r in InputRefs(tx.inputs) <==> SomeSpends(tx.inputs, r)
      ensures r in InputRefs(tx.references) <==> SomeSpends(tx.references, r)
    {
      RefsSummarized(tx.inputs, r);
      RefsSummarized(tx.references, r);
    }
    hide SomeComesFrom, SomeSendsData, SomeMoves, SomeSpends, Anchors.HitsOf;
    hide InputAddresses, DatumAddresses, PositivePolicies, NegativePolicies, InputRefs;
  }

  // ----- the template

  /** A query of the input pins the address. */
  ghost predicate QueriesAt(e: Expression, a: Base.Bytes) {
    exists q :: Asks(e, q) && Wraps(q.address, Address(a))
  }

  ghost predicate QueriesFor(e: Expression, p: Base.Bytes) {
    exists q :: Asks(e, q) && NamesPolicy(q.minAmount, p)
  }

  ghost predicate Lists(e: Expression, r: UtxoRef) {
    exists refs :: Wraps(e, UtxoRefs(refs)) && r in refs
  }

  lemma {:induction false} QueryIs(e: Expression, q: InputQuery)
    ensures QueryOf(e) == Some(q) <==> Asks(e, q)
  {
    QueryRead(e, q);
    RefsOrQuery(e);
  }

  lemma {:induction false} PinIs(e: Expression, a: Base.Bytes)
    ensures PinnedByQuery(e) == Some(a) <==> QueriesAt(e, a)
  {
    if PinnedByQuery(e) == Some(a) {
      QueryIs(e, QueryOf(e).value);
      AddressRead(QueryOf(e).value.address, a);
    }
    if q :| Asks(e, q) && Wraps(q.address, Address(a)) {
      QueryIs(e, q);
      AddressRead(q.address, a);
    }
  }

  lemma {:induction false} ValuesAre(i: Input, p: Base.Bytes)
    ensures p in ValuePoliciesOfInput(i) <==> QueriesFor(i.utxos, p)
  {
    if p in ValuePoliciesOfInput(i) {
      QueryIs(i.utxos, QueryOf(i.utxos).value);
      PoliciesRead(QueryOf(i.utxos).value.minAmount, p);
    }
    if q :| Asks(i.utxos, q) && NamesPolicy(q.minAmount, p) {
      QueryIs(i.utxos, q);
      PoliciesRead(q.minAmount, p);
    }
  }

  lemma {:induction false} ListIs(e: Expression, r: UtxoRef)
    ensures r in RefsOf(e) <==> Lists(e, r)
  {
    if r in RefsOf(e) { RefsRead(e, RefsOf(e)); }
    if refs :| Wraps(e, UtxoRefs(refs)) && r in refs { RefsRead(e, refs); }
  }

  /** How many inputs an element counts for: as many as its list has, modulo 2^16, one for a query
      of a single input, none for a query of many or anything else. */
  ghost predicate CountsFor(e: Expression, n: nat) {
    || (exists refs :: Wraps(e, UtxoRefs(refs)) && n == |refs| % 0x1_0000)
    || (exists q :: Asks(e, q) && n == if q.many then 0 else 1)
    || ((forall refs :: !Wraps(e, UtxoRefs(refs))) && (forall q :: !Asks(e, q)) && n == 0)
  }

  lemma {:induction false} CountIs(e: Expression, n: nat)
    ensures InputMinimum(e) == n <==> CountsFor(e, n)
  {
    forall refs ensures ConstUtxoRefs(e) == Some(refs) <==> Wraps(e, UtxoRefs(refs)) { RefsRead(e, refs); }
    forall q ensures ExpectInputQuery(e) == Some(q) <==> Asks(e, q) { QueryRead(e, q); }
    RefsOrQuery(e);
    hide Wraps, Asks, ConstUtxoRefs, ExpectInputQuery;
  }

  /** As many as a list has, modulo 2^16, and one for a parameter. */
  ghost predicate RefersTo(e: Expression, n: nat) {
    || (exists refs :: Wraps(e, UtxoRefs(refs)) && n == |refs| % 0x1_0000)
    || ((forall refs :: !Wraps(e, UtxoRefs(refs))) && n == 1)
  }

  lemma {:induction false} ReferenceCountIs(e: Expression, n: nat)
    ensures ReferenceMinimum(e) == n <==> RefersTo(e, n)
  {
    forall refs ensures ConstUtxoRefs(e) == Some(refs) <==> Wraps(e, UtxoRefs(refs)) { RefsRead(e, refs); }
    hide Wraps, ConstUtxoRefs;
  }

  ghost function Mandatory(outputs: seq<Output>): set<nat> {
    set j: nat | j < |outputs| && !outputs[j].optional
  }

  // ----- the filter, test by test

  ghost predicate InputTests(inputs: seq<Input>, ins: seq<TxInput>, resolved: ResolvedInputs) {
    && (forall j: nat, a | j < |inputs| && QueriesAt(inputs[j].utxos, a) :: SomeComesFrom(ins, resolved, a))
    && (forall j: nat, r | j < |inputs| && Lists(inputs[j].utxos, r) :: SomeSpends(ins, r))
  }

  lemma {:induction false} InputTestsAre(inputs: seq<Input>, ins: seq<TxInput>, resolved: ResolvedInputs)
    ensures InputTests(inputs, ins, resolved) <==>
      RequiredInputAddresses(inputs) <= InputAddresses(ins, resolved) && RequiredInputRefs(inputs) <= InputRefs(ins)
  {
    forall a ensures a in InputAddresses(ins, resolved) <==> SomeComesFrom(ins, resolved, a) {
      AddressesSummarized(ins, resolved, a);
    }
    forall r ensures r in InputRefs(ins) <==> SomeSpends(ins, r) { RefsSummarized(ins, r); }
    forall j: nat, a | j < |inputs|
      ensures PinnedByQuery(inputs[j].utxos) == Some(a) <==> QueriesAt(inputs[j].utxos, a)
    {
      PinIs(inputs[j].utxos, a);
    }
    forall j: nat, r | j < |inputs| ensures r in RefsOf(inputs[j].utxos) <==> Lists(inputs[j].utxos, r) {
      ListIs(inputs[j].utxos, r);
    }
    hide InputAddresses, InputRefs, SomeComesFrom, SomeSpends, PinnedByQuery, QueriesAt, RefsOf, Lists;
    AddressesAsked(inputs);
    RefsAsked(inputs);
    hide RequiredInputAddresses, RequiredInputRefs;
  }

  lemma {:induction false} AddressesAsked(inputs: seq<Input>)
    ensures forall a :: a in RequiredInputAddresses(inputs) <==>
      exists j: nat :: j < |inputs| && PinnedByQuery(inputs[j].utxos) == Some(a)
  {
    forall a ensures a in RequiredInputAddresses(inputs) <==>
      exists j: nat :: j < |inputs| && PinnedByQuery(inputs[j].utxos) == Some(a)
    {
      if j: nat :| j < |inputs| && PinnedByQuery(inputs[j].utxos) == Some(a) {
        assert a in ToSet(PinnedByQuery(inputs[j].utxos));
      }
    }
  }

  lemma {:induction false} RefsAsked(inputs: seq<Input>)
    ensures forall r ::
      r in RequiredInputRefs(inputs) <==> exists j: nat :: j < |inputs| && r in RefsOf(inputs[j].utxos)
  {}

  ghost predicate OutputTests(outputs: seq<Output>, outs: seq<TxOutput>) {
    forall j: nat, a | j < |outputs| && Wraps(outputs[j].address, Address(a)) :: SomePays(outs, a)
  }

  lemma {:induction false} OutputTestsAre(outputs: seq<Output>, outs: seq<TxOutput>)
    ensures RequiredOutputAddresses(outputs) <= OutputAddresses(outs) <==> OutputTests(outputs, outs)
  {
    forall a ensures a in OutputAddresses(outs) <==> SomePays(outs, a) { OutputsSummarized(outs, a); }
    forall j: nat, a | j < |outputs|
      ensures a in ToSet(ConstAddress(outputs[j].address)) <==> Wraps(outputs[j].address, Address(a))
    {
      AddressRead(outputs[j].address, a);
    }
    hide OutputAddresses, SomePays, ConstAddress, Wraps, ToSet;
    OutputsAsked(outputs);
    hide RequiredOutputAddresses;
  }

  lemma {:induction false} OutputsAsked(outputs: seq<Output>)
    ensures forall a :: a in RequiredOutputAddresses(outputs) <==>
      exists j: nat :: j < |outputs| && a in ToSet(ConstAddress(outputs[j].address))
  {}

  ghost predicate MintTests(mints: seq<Mint>, burn: bool, entries: seq<MintEntry>) {
    forall j: nat, p | j < |mints| && NamesPolicy(mints[j].amount, p) :: SomeMoves(entries, burn, p)
  }

  lemma {:induction false} MintTestsAre(mints: seq<Mint>, burn: bool, entries: seq<MintEntry>)
    ensures RequiredPolicies(mints) <= (if burn then NegativePolicies(entries) else PositivePolicies(entries))
       <==> MintTests(mints, burn, entries)
  {
    forall p
      ensures p in PositivePolicies(entries) <==> SomeMoves(entries, false, p)
      ensures p in NegativePolicies(entries) <==> SomeMoves(entries, true, p)
    {
      MintsSummarized(entries, p);
    }
    forall j: nat, p | j < |mints|
      ensures p in ConstPoliciesIn(mints[j].amount) <==> NamesPolicy(mints[j].amount, p)
    {
      PoliciesRead(mints[j].amount, p);
    }
    hide PositivePolicies, NegativePolicies, SomeMoves, ConstPoliciesIn, NamesPolicy;
    PoliciesAsked(mints);
    hide RequiredPolicies;
  }

  lemma {:induction false} PoliciesAsked(mints: seq<Mint>)
    ensures forall p :: p in RequiredPolicies(mints) <==>
      exists j: nat :: j < |mints| && p in ConstPoliciesIn(mints[j].amount)
  {}

  ghost predicate ReferenceTests(references: seq<Expression>, ins: seq<TxInput>) {
    forall j: nat, r | j < |references| && Lists(references[j], r) :: SomeSpends(ins, r)
  }

  lemma {:induction false} ReferenceTestsAre(references: seq<Expression>, ins: seq<TxInput>)
    ensures RequiredReferenceRefs(references) <= InputRefs(ins) <==> ReferenceTests(references, ins)
  {
    forall r ensures r in InputRefs(ins) <==> SomeSpends(ins, r) { RefsSummarized(ins, r); }
    forall j: nat, r | j < |references| ensures r in RefsOf(references[j]) <==> Lists(references[j], r) {
      ListIs(references[j], r);
    }
    hide InputRefs, SomeSpends, RefsOf, Lists;
    ReferencesAsked(references);
    hide RequiredReferenceRefs;
  }

  lemma {:induction false} ReferencesAsked(references: seq<Expression>)
    ensures forall r :: r in RequiredReferenceRefs(references) <==>
      exists j: nat :: j < |references| && r in RefsOf(references[j])
  {}

  /** The policies of minimum amounts and of outputs are among those spent or sent. */
  ghost predicate ValueTests(tx: Tx, ctx: CardanoTx, resolved: ResolvedInputs) {
    && (forall j: nat, p | j < |tx.inputs| && QueriesFor(tx.inputs[j].utxos, p) ::
          SpendsAsset(ctx.inputs, resolved, p) || SendsAsset(ctx.outputs, p))
    && (forall j: nat, p | j < |tx.outputs| && NamesPolicy(tx.outputs[j].amount, p) ::
          SpendsAsset(ctx.inputs, resolved, p) || SendsAsset(ctx.outputs, p))
  }

  lemma {:induction false} ValueTestsAre(tx: Tx, ctx: CardanoTx, resolved: ResolvedInputs)
    ensures InputValuePolicies(tx.inputs) + OutputValuePolicies(tx.outputs)
         <= InputPolicies(ctx.inputs, resolved) + OutputPolicies(ctx.outputs)
       <==> ValueTests(tx, ctx, resolved)
  {
    var held := InputPolicies(ctx.inputs, resolved) + OutputPolicies(ctx.outputs);
    forall p ensures p in held <==> SpendsAsset(ctx.inputs, resolved, p) || SendsAsset(ctx.outputs, p) {
      AssetsSummarized(ctx.inputs, resolved, p);
      OutputsSummarized(ctx.outputs, p);
    }
    InputValuesAre(tx.inputs, held);
    OutputValuesAre(tx.outputs, held);
    hide InputPolicies, OutputPolicies, SpendsAsset, SendsAsset, QueriesFor, NamesPolicy, InputValuePolicies;
    hide OutputValuePolicies;
  }

  lemma {:induction false} InputValuesAre(inputs: seq<Input>, held: set<Base.Bytes>)
    ensures InputValuePolicies(inputs) <= held <==>
      forall j: nat, p | j < |inputs| && QueriesFor(inputs[j].utxos, p) :: p in held
  {
    forall j: nat, p | j < |inputs| ensures p in ValuePoliciesOfInput(inputs[j]) <==> QueriesFor(inputs[j].utxos, p) {
      ValuesAre(inputs[j], p);
    }
    hide ValuePoliciesOfInput, QueriesFor;
    assert forall j: nat, p | j < |inputs| && p in ValuePoliciesOfInput(inputs[j]) :: p in InputValuePolicies(inputs);
  }

  lemma {:induction false} OutputValuesAre(outputs: seq<Output>, held: set<Base.Bytes>)
    ensures OutputValuePolicies(outputs) <= held <==>
      forall j: nat, p | j < |outputs| && NamesPolicy(outputs[j].amount, p) :: p in held
  {
    forall j: nat, p | j < |outputs|
      ensures p in ConstPoliciesIn(outputs[j].amount) <==> NamesPolicy(outputs[j].amount, p)
    {
      PoliciesRead(outputs[j].amount, p);
    }
    hide ConstPoliciesIn, NamesPolicy;
    assert forall j: nat, p | j < |outputs| && p in ConstPoliciesIn(outputs[j].amount) ::
      p in OutputValuePolicies(outputs);
  }

  /** Required signers that are spelt out sign, and labels that are numbers are there. */
  ghost predicate SignerTests(tx: Tx, ctx: CardanoTx) {
    && (tx.signers.Some? ==>
          forall j: nat, b | j < |tx.signers.value| && Spells(tx.signers.value[j], b) :: b in ctx.signers)
    && (forall j: nat, n: u64 | j < |tx.metadata| && Wraps(tx.metadata[j].key, Number(n)) :: n in ctx.metadataLabels)
  }

  lemma {:induction false} SignerTestsAre(tx: Tx, ctx: CardanoTx)
    ensures SignerTests(tx, ctx) <==>
      RequiredSigners(tx.signers) <= Elems(ctx.signers) && RequiredLabels(tx.metadata) <= Elems(ctx.metadataLabels)
  {
    if tx.signers.Some? { SignersAre(tx.signers.value, Elems(ctx.signers)); }
    LabelsAre(tx.metadata, Elems(ctx.metadataLabels));
    hide RequiredLabels, Spells, Wraps;
    assert tx.signers.Some? ==> tx.signers == Some(tx.signers.value);
    assert forall b :: b in Elems(ctx.signers) <==> b in ctx.signers;
    assert forall n: u64 :: n in Elems(ctx.metadataLabels) <==> n in ctx.metadataLabels;
  }

  lemma {:induction false} SignersAre(es: seq<Expression>, signers: set<Base.Bytes>)
    ensures RequiredSigners(Some(es)) <= signers <==>
      forall j: nat, b | j < |es| && Spells(es[j], b) :: b in signers
  {
    forall j: nat, b | j < |es| ensures b in ToSet(ConstBytes(es[j])) <==> Spells(es[j], b) { BytesRead(es[j], b); }
    hide ToSet, ConstBytes, Spells;
    assert forall j: nat, b | j < |es| && b in ToSet(ConstBytes(es[j])) :: b in RequiredSigners(Some(es));
  }

  lemma {:induction false} LabelsAre(metadata: seq<Metadata>, labels: set<u64>)
    ensures RequiredLabels(metadata) <= labels <==>
      forall j: nat, n: u64 | j < |metadata| && Wraps(metadata[j].key, Number(n)) :: n in labels
  {
    forall j: nat, n: u64 | j < |metadata|
      ensures n in ToSet(LabelOf(metadata[j])) <==> Wraps(metadata[j].key, Number(n))
    {
      NumberRead(metadata[j].key, n);
    }
    hide ToSet, LabelOf, Wraps;
    assert forall j: nat, n | j < |metadata| && n in ToSet(LabelOf(metadata[j])) :: n in RequiredLabels(metadata);
  }

  // ----- counts

  /** At least as many, where 65535 stands for any number from there on. */
  predicate Enough(have: nat, wanted: nat) {
    have >= wanted || have >= 0xFFFF
  }

  lemma {:induction false} EnoughIsCapped(have: nat, wanted: nat)
    ensures Enough(have, wanted) <==> Saturate16(wanted) <= Saturate16(have)
  {}

  ghost predicate InputsCount(inputs: seq<Input>, costs: seq<nat>) {
    |costs| == |inputs| && forall j: nat | j < |inputs| :: CountsFor(inputs[j].utxos, costs[j])
  }

  ghost predicate ReferencesCount(references: seq<Expression>, costs: seq<nat>) {
    |costs| == |references| && forall j: nat | j < |references| :: RefersTo(references[j], costs[j])
  }

  ghost predicate CountTests(tx: Tx, ctx: CardanoTx) {
    && (exists costs :: InputsCount(tx.inputs, costs) && Enough(|ctx.inputs|, Sum(costs)))
    && Enough(|ctx.outputs|, |Mandatory(tx.outputs)|)
    && Enough(|Moving(ctx.mints, false)|, |tx.mints|)
    && Enough(|Moving(ctx.mints, true)|, |tx.burns|)
    && Enough(|ctx.collateral|, |tx.collateral|)
    && (exists costs :: ReferencesCount(tx.references, costs) && Enough(|ctx.references|, Sum(costs)))
  }

  lemma {:induction false} InputCountTest(inputs: seq<Input>, n: nat)
    ensures SaturatingSum(InputMinimums(inputs)) <= Saturate16(n) <==>
      exists costs :: InputsCount(inputs, costs) && Enough(n, Sum(costs))
  {
    var mins: seq<nat> := InputMinimums(inputs);
    SaturatingSumIsSum(InputMinimums(inputs));
    EnoughIsCapped(n, Sum(mins));
    forall costs: seq<nat> ensures InputsCount(inputs, costs) <==> costs == mins {
      forall j: nat | j < |inputs| && j < |costs|
        ensures CountsFor(inputs[j].utxos, costs[j]) <==> mins[j] == costs[j]
      {
        CountIs(inputs[j].utxos, costs[j]);
      }
    }
    hide InputsCount, Enough;
    assert InputsCount(inputs, mins);
  }

  lemma {:induction false} ReferenceCountTest(references: seq<Expression>, n: nat)
    ensures SaturatingSum(ReferenceMinimums(references)) <= Saturate16(n) <==>
      exists costs :: ReferencesCount(references, costs) && Enough(n, Sum(costs))
  {
    var mins: seq<nat> := ReferenceMinimums(references);
    SaturatingSumIsSum(ReferenceMinimums(references));
    EnoughIsCapped(n, Sum(mins));
    forall costs: seq<nat> ensures ReferencesCount(references, costs) <==> costs == mins {
      forall j: nat | j < |references| && j < |costs|
        ensures RefersTo(references[j], costs[j]) <==> mins[j] == costs[j]
      {
        ReferenceCountIs(references[j], costs[j]);
      }
    }
    hide ReferencesCount, Enough;
    assert ReferencesCount(references, mins);
  }

  lemma {:induction false} MandatorySum(outputs: seq<Output>)
    ensures Sum(OutputMinimums(outputs)) == |Mandatory(outputs)|
  {
    if outputs != [] {
      var n := |outputs| - 1;
      MandatorySum(outputs[..n]);
      assert OutputMinimums(outputs)[..n] == OutputMinimums(outputs[..n]);
      assert Mandatory(outputs) == Mandatory(outputs[..n]) + (if outputs[n].optional then {} else {n});
    }
  }

  lemma {:induction false} CountTestsAre(tx: Tx, ctx: CardanoTx)
    ensures
      && SaturatingSum(InputMinimums(tx.inputs)) <= Saturate16(|ctx.inputs|)
      && SaturatingSum(OutputMinimums(tx.outputs)) <= Saturate16(|ctx.outputs|)
      && SaturatingSum(Ones(|tx.mints|)) <= Saturate16(|PositiveEntries(ctx.mints)|)
      && SaturatingSum(Ones(|tx.burns|)) <= Saturate16(|NegativeEntries(ctx.mints)|)
      && Saturate16(|tx.collateral|) <= Saturate16(|ctx.collateral|)
      && SaturatingSum(ReferenceMinimums(tx.references)) <= Saturate16(|ctx.references|)
      <==> CountTests(tx, ctx)
  {
    InputCountTest(tx.inputs, |ctx.inputs|);
    ReferenceCountTest(tx.references, |ctx.references|);
    SaturatingSumIsSum(OutputMinimums(tx.outputs));
    MandatorySum(tx.outputs);
    EnoughIsCapped(|ctx.outputs|, |Mandatory(tx.outputs)|);
    MovingSummarized(ctx.mints);
    SaturatingSumIsSum(Ones(|tx.mints|));
    SumOfOnes(|tx.mints|);
    EnoughIsCapped(|Moving(ctx.mints, false)|, |tx.mints|);
    SaturatingSumIsSum(Ones(|tx.burns|));
    SumOfOnes(|tx.burns|);
    EnoughIsCapped(|Moving(ctx.mints, true)|, |tx.burns|);
    EnoughIsCapped(|ctx.collateral|, |tx.collateral|);
    hide InputsCount, ReferencesCount, Enough, SaturatingSum, Sum, Saturate16, Mandatory, Moving, Ones;
    hide InputMinimums, OutputMinimums, ReferenceMinimums, PositiveEntries, NegativeEntries;
  }

  // ----- the filter

  /** A template's own fingerprint lets a transaction pass exactly where all these tests hold, a
      template with a validity interval asking for one. */
  lemma {:induction false} FilterPlainly(tx: Tx, ctx: CardanoTx, resolved: ResolvedInputs)
    ensures Extracted(tx).Matches(Summarized(ctx, resolved)) <==>
      && InputTests(tx.inputs, ctx.inputs, resolved)
      && OutputTests(tx.outputs, ctx.outputs)
      && MintTests(tx.mints, false, ctx.mints)
      && MintTests(tx.burns, true, ctx.mints)
      && ReferenceTests(tx.references, ctx.references)
      && ValueTests(tx, ctx, resolved)
      && SignerTests(tx, ctx)
      && CountTests(tx, ctx)
      && (tx.validity != None ==> ctx.validityStart != None || ctx.ttl != None)
  {
    InputTestsAre(tx.inputs, ctx.inputs, resolved);
    OutputTestsAre(tx.outputs, ctx.outputs);
    MintTestsAre(tx.mints, false, ctx.mints);
    MintTestsAre(tx.burns, true, ctx.mints);
    ReferenceTestsAre(tx.references, ctx.references);
    ValueTestsAre(tx, ctx, resolved);
    SignerTestsAre(tx, ctx);
    CountTestsAre(tx, ctx);
    hide InputTests, OutputTests, MintTests, ReferenceTests, ValueTests, SignerTests, CountTests;
    hide SaturatingSum, Saturate16, Ones, InputMinimums, OutputMinimums, ReferenceMinimums;
    hide PositiveEntries, NegativeEntries, RequiredInputAddresses, RequiredInputRefs, RequiredOutputAddresses;
    hide RequiredPolicies, RequiredReferenceRefs, RequiredSigners, RequiredLabels, InputValuePolicies;
    hide OutputValuePolicies, InputAddresses, InputRefs, OutputAddresses, PositivePolicies, NegativePolicies;
    hide InputPolicies, OutputPolicies, DatumAddresses;
  }
}
