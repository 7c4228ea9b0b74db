/** The pre-filter against transactions as a ledger accepts them. */
module PrefilterLedger {
  // They have at least one input, and neither an input nor a reference input twice.

  import opened Base
  import opened Tir
  import opened Expr
  import opened Payload
  import opened Greedy
  import opened Ledger
  import opened LedgerReferences
  import opened Matching
  import opened MatchLaws
  import opened Fingerprint
  import opened Summarize
  import opened Prefilter
  import opened PrefilterExact
  import opened Witness

  /** No output is listed twice among the constant references of the inputs. */
  ghost predicate DistinctListed(inputs: seq<Input>) {
    forall j: nat, k: nat, p: nat, q: nat |
      j < |inputs| && k < |RefsOf(inputs[j].utxos)| && p < |inputs| && q < |RefsOf(inputs[p].utxos)|
      && (j, k) != (p, q) ::
      RefsOf(inputs[j].utxos)[k] != RefsOf(inputs[p].utxos)[q]
  }

  ghost predicate Listed(inputs: seq<Input>, r: UtxoRef) {
    exists j: nat, k: nat :: j < |inputs| && k < |RefsOf(inputs[j].utxos)| && RefsOf(inputs[j].utxos)[k] == r
  }

  /** Listed references are to transactions, whose ids have 32 bytes. */
  ghost predicate RealRefs(inputs: seq<Input>) {
    forall r | Listed(inputs, r) :: |r.txid| == 32
  }

  /** Outputs the template says nothing of, as many as its inputs may need. */
  ghost predicate Foreign(inputs: seq<Input>, strays: seq<TxInput>) {
    && |strays| > |InputFeed(inputs)|
    && Spendable(strays)
    && forall i | 0 <= i < |strays| :: !Listed(inputs, Key(strays[i]))
  }

  /** The inputs of a matching transaction: the feed with foreign outputs in place of its
      strays, or one foreign output if it is empty. */
  ghost function LedgerInputs(inputs: seq<Input>, strays: seq<TxInput>): seq<TxInput>
    requires Foreign(inputs, strays)
  {
    var feed := InputFeed(inputs);
    if feed == [] then [strays[0]]
    else seq(|feed|, i requires 0 <= i < |feed| => if feed[i] == STRAY then strays[i] else feed[i])
  }

  // ----- the feed on the ledger

  lemma {:induction false} ListedTail(inputs: seq<Input>, r: UtxoRef)
    requires inputs != [] && Listed(inputs[1..], r)
    ensures Listed(inputs, r)
  {
    var j: nat, k: nat :|
      j < |inputs[1..]| && k < |RefsOf(inputs[1..][j].utxos)| && RefsOf(inputs[1..][j].utxos)[k] == r;
    assert inputs[1..][j] == inputs[j + 1];
  }

  /** A feed lists what the template lists, next to strays. */
  lemma {:induction false} FeedIsListed(inputs: seq<Input>, i: nat)
    requires i < |InputFeed(inputs)| && InputFeed(inputs)[i] != STRAY
    ensures Listed(inputs, Key(InputFeed(inputs)[i]))
  {
    var own := OwnInputs(inputs);
    if i < |own| {
      assert RefsOf(inputs[0].utxos)[i] == Key(own[i]);
    } else {
      FeedIsListed(inputs[1..], i - |own|);
      ListedTail(inputs, Key(InputFeed(inputs)[i]));
    }
  }

  lemma {:induction false} DistinctTail(inputs: seq<Input>)
    requires inputs != [] && DistinctListed(inputs)
    ensures DistinctListed(inputs[1..])
    ensures forall k: nat | k < |RefsOf(inputs[0].utxos)| :: !Listed(inputs[1..], RefsOf(inputs[0].utxos)[k])
  {
    var rest := inputs[1..];
    assert forall j | 0 <= j < |rest| :: rest[j] == inputs[j + 1];
    forall j: nat, k: nat, p: nat, q: nat |
      j < |rest| && k < |RefsOf(rest[j].utxos)| && p < |rest| && q < |RefsOf(rest[p].utxos)| && (j, k) != (p, q)
      ensures RefsOf(rest[j].utxos)[k] != RefsOf(rest[p].utxos)[q]
    {
      assert (j + 1, k) != (p + 1, q);
      assert RefsOf(inputs[j + 1].utxos)[k] != RefsOf(inputs[p + 1].utxos)[q];
    }
    forall k: nat | k < |RefsOf(inputs[0].utxos)| ensures !Listed(rest, RefsOf(inputs[0].utxos)[k]) {
      forall p: nat, q: nat | p < |rest| && q < |RefsOf(rest[p].utxos)|
        ensures RefsOf(rest[p].utxos)[q] != RefsOf(inputs[0].utxos)[k]
      {
        assert (0, k) != (p + 1, q);
        assert RefsOf(inputs[0].utxos)[k] != RefsOf(inputs[p + 1].utxos)[q];
      }
    }
  }

  lemma {:induction false} FeedDistinct(inputs: seq<Input>, i: nat, j: nat)
    requires DistinctListed(inputs) && i < j < |InputFeed(inputs)|
    requires InputFeed(inputs)[i] != STRAY && InputFeed(inputs)[j] != STRAY
    ensures Key(InputFeed(inputs)[i]) != Key(InputFeed(inputs)[j])
  {
    hide *;
    FeedAt(inputs, i);
    FeedAt(inputs, j);
    var own := |OwnInputs(inputs)|;
    if j < own {
      OwnDistinct(inputs, i, j);
    } else if i < own {
      CrossDistinct(inputs, i, j - own);
    } else {
      TailDistinct(inputs);
      FeedDistinct(inputs[1..], i - own, j - own);
    }
  }

  lemma {:induction false} TailDistinct(inputs: seq<Input>)
    requires inputs != [] && DistinctListed(inputs)
    ensures DistinctListed(inputs[1..])
  {
    DistinctTail(inputs);
  }

  lemma {:induction false} CrossDistinct(inputs: seq<Input>, i: nat, j: nat)
    requires inputs != [] && DistinctListed(inputs)
    requires i < |OwnInputs(inputs)| && OwnInputs(inputs)[i] != STRAY
    requires j < |InputFeed(inputs[1..])| && InputFeed(inputs[1..])[j] != STRAY
    ensures Key(OwnInputs(inputs)[i]) != Key(InputFeed(inputs[1..])[j])
  {
    DistinctTail(inputs);
    OwnIsListedFirst(inputs, i);
    FeedIsListed(inputs[1..], j);
  }

  lemma {:induction false} FeedAt(inputs: seq<Input>, i: nat)
    requires i < |InputFeed(inputs)|
    ensures inputs != []
    ensures i < |OwnInputs(inputs)| ==> InputFeed(inputs)[i] == OwnInputs(inputs)[i]
    ensures i >= |OwnInputs(inputs)| ==>
      i - |OwnInputs(inputs)| < |InputFeed(inputs[1..])| &&
      InputFeed(inputs)[i] == InputFeed(inputs[1..])[i - |OwnInputs(inputs)|]
  {}

  lemma {:induction false} OwnIsListedFirst(inputs: seq<Input>, i: nat)
    requires inputs != [] && i < |OwnInputs(inputs)| && OwnInputs(inputs)[i] != STRAY
    ensures i < |RefsOf(inputs[0].utxos)| && RefsOf(inputs[0].utxos)[i] == Key(OwnInputs(inputs)[i])
  {}

  lemma {:induction false} OwnDistinct(inputs: seq<Input>, i: nat, j: nat)
    requires inputs != [] && DistinctListed(inputs) && i < j < |OwnInputs(inputs)|
    ensures Key(OwnInputs(inputs)[i]) != Key(OwnInputs(inputs)[j])
  {
    var zero: nat := 0;
    assert (zero, i) != (zero, j);
    assert RefsOf(inputs[zero].utxos)[i] != RefsOf(inputs[zero].utxos)[j];
  }

  lemma {:induction false} LedgerInputsAreOnLedger(inputs: seq<Input>, strays: seq<TxInput>)
    requires Foreign(inputs, strays) && DistinctListed(inputs) && RealRefs(inputs)
    ensures LedgerInputs(inputs, strays) != [] && Spendable(LedgerInputs(inputs, strays))
    ensures |LedgerInputs(inputs, strays)| == if InputFeed(inputs) == [] then 1 else |InputFeed(inputs)|
  {
    var feed, ins := InputFeed(inputs), LedgerInputs(inputs, strays);
    if feed != [] {
      forall i: nat | i < |ins| ensures |ins[i].hash| == 32 {
        if feed[i] != STRAY { FeedIsListed(inputs, i); }
      }
      forall i, j | 0 <= i < j < |ins| ensures Key(ins[i]) != Key(ins[j]) {
        if feed[i] != STRAY { FeedIsListed(inputs, i); }
        if feed[j] != STRAY { FeedIsListed(inputs, j); }
        if feed[i] != STRAY && feed[j] != STRAY { FeedDistinct(inputs, i, j); }
      }
    }
  }

  /** What the template lists is in its feed. */
  lemma {:induction false} ListedIsFed(inputs: seq<Input>, r: UtxoRef) returns (i: nat)
    requires Listed(inputs, r)
    ensures i < |InputFeed(inputs)| && Key(InputFeed(inputs)[i]) == r
  {
    hide *;
    var k := ListedWhere(inputs, r);
    FeedParts(inputs);
    if k < |RefsOf(inputs[0].utxos)| {
      i := k;
      ListedIsOwn(inputs, k);
    } else {
      i := ListedIsFed(inputs[1..], r);
      FeedOffset(OwnInputs(inputs), InputFeed(inputs[1..]), i);
      i := i + |OwnInputs(inputs)|;
    }
  }

  lemma {:induction false} ListedWhere(inputs: seq<Input>, r: UtxoRef) returns (k: nat)
    requires Listed(inputs, r)
    ensures inputs != [] && if k < |RefsOf(inputs[0].utxos)| then RefsOf(inputs[0].utxos)[k] == r
      else Listed(inputs[1..], r)
  {
    var j: nat, l: nat :| j < |inputs| && l < |RefsOf(inputs[j].utxos)| && RefsOf(inputs[j].utxos)[l] == r;
    if j == 0 {
      k := l;
    } else {
      assert inputs[1..][j - 1] == inputs[j];
      k := |RefsOf(inputs[0].utxos)|;
    }
  }

  lemma {:induction false} FeedParts(inputs: seq<Input>)
    requires inputs != []
    ensures InputFeed(inputs) == OwnInputs(inputs) + InputFeed(inputs[1..])
  {}

  lemma {:induction false} FeedOffset<T>(own: seq<T>, rest: seq<T>, i: nat)
    requires i < |rest|
    ensures i + |own| < |own + rest| && (own + rest)[i + |own|] == rest[i]
  {}

  lemma {:induction false} ListedIsOwn(inputs: seq<Input>, k: nat)
    requires inputs != [] && k < |RefsOf(inputs[0].utxos)|
    ensures k < |OwnInputs(inputs)| && Key(OwnInputs(inputs)[k]) == RefsOf(inputs[0].utxos)[k]
  {}

  lemma {:induction false} ForeignStrays(inputs: seq<Input>) returns (strays: seq<TxInput>)
    requires 2 * |InputFeed(inputs)| < Ids(32)
    ensures Foreign(inputs, strays)
  {
    hide Ids, Strays, InputFeed;
    var feed := InputFeed(inputs);
    var fed := InputRefs(feed);
    InputRefsAreFew(feed);
    strays := Strays(|feed| + 1, fed);
    forall i | 0 <= i < |strays| ensures !Listed(inputs, Key(strays[i])) {
      if Listed(inputs, Key(strays[i])) {
        var k := ListedIsFed(inputs, Key(strays[i]));
      }
    }
  }

  lemma {:induction false} InputRefsAreFew(ins: seq<TxInput>)
    ensures |InputRefs(ins)| <= |ins|
  {
    if ins != [] {
      InputRefsAreFew(ins[1..]);
      forall r | r in InputRefs(ins) ensures r in {Key(ins[0])} + InputRefs(ins[1..]) {
        var i: nat :| i < |ins| && Key(ins[i]) == r;
        if i > 0 { assert ins[1..][i - 1] == ins[i]; }
      }
      SubsetCardinality(InputRefs(ins), {Key(ins[0])} + InputRefs(ins[1..]));
    }
  }

  lemma {:induction false} SameDemand(inputs: seq<Input>, j: nat, feed: seq<TxInput>, ins: seq<TxInput>)
    requires j < |inputs| && |feed| == |ins|
    requires forall i, r | 0 <= i < |feed| && Listed(inputs, r) :: Key(feed[i]) == r <==> Key(ins[i]) == r
    ensures InputDemand(inputs[j].utxos, ins, map[]) == InputDemand(inputs[j].utxos, feed, map[])
  {
    var e := inputs[j].utxos;
    match ConstUtxoRefs(e)
    case Some(refs) =>
      forall k | 0 <= k < |refs| ensures RefRow(ins, refs[k]) == RefRow(feed, refs[k]) {
        assert RefsOf(e)[k] == refs[k] && Listed(inputs, refs[k]);
      }
      assert RefRows(ins, refs) == RefRows(feed, refs);
    case None =>
      if QueryOf(e).Some? {
        var q := QueryOf(e).value;
        assert forall i | 0 <= i < |ins| :: QueryAccepts(q, map[], ins[i]) == QueryAccepts(q, map[], feed[i]);
        assert QueryRow(q, ins, map[]) == QueryRow(q, feed, map[]);
      }
  }

  /** Without listed references no input can be missed. */
  lemma {:induction false} QueriesNeverFail(
      inputs: seq<Input>, ins: seq<TxInput>, resolved: ResolvedInputs, taken: set<nat>)
    requires !HasRefs(inputs)
    ensures Assign(InputDemands(inputs, ins, resolved), taken).Some?
    decreases |inputs|
  {
    if inputs != [] {
      assert RefsOf(inputs[0].utxos) == [];
      InputDemandsCons(inputs, ins, resolved);
      assert !HasRefs(inputs[1..]) by { assert forall j | 0 <= j < |inputs[1..]| :: inputs[1..][j] == inputs[j + 1]; }
      var d := InputDemand(inputs[0].utxos, ins, resolved);
      assert Serve(d, taken).Some?;
      QueriesNeverFail(inputs[1..], ins, resolved, taken + Elems(Serve(d, taken).value));
    }
  }

  lemma {:induction false} EmptyFeedNoRefs(inputs: seq<Input>)
    requires InputFeed(inputs) == []
    ensures !HasRefs(inputs)
  {
    if inputs != [] {
      EmptyFeedNoRefs(inputs[1..]);
      assert OwnInputs(inputs) == [];
      assert |OwnInputs(inputs)| == |RefsOf(inputs[0].utxos)|;
      forall j | 0 <= j < |inputs| ensures RefsOf(inputs[j].utxos) == [] {
        if j > 0 { assert inputs[1..][j - 1] == inputs[j]; }
      }
    }
  }

  lemma {:induction false} LedgerInputsServed(inputs: seq<Input>, strays: seq<TxInput>)
    requires NoStarvingQuery(inputs) && Foreign(inputs, strays) && RealRefs(inputs)
    ensures Assign(InputDemands(inputs, LedgerInputs(inputs, strays), map[]), {}).Some?
  {
    var feed, ins := InputFeed(inputs), LedgerInputs(inputs, strays);
    if feed == [] {
      EmptyFeedNoRefs(inputs);
      QueriesNeverFail(inputs, ins, map[], {});
    } else {
      forall j | 0 <= j < |inputs|
        ensures InputDemand(inputs[j].utxos, ins, map[]) == InputDemand(inputs[j].utxos, feed, map[])
      {
        SameDemand(inputs, j, feed, ins);
      }
      assert InputDemands(inputs, ins, map[]) == InputDemands(inputs, feed, map[]);
      InputWitness(inputs);
    }
  }

  // ----- what matches on the ledger

  /** Outputs that the template does not name, for where its parameters and queries need some. */
  datatype Supply = Supply(inputs: seq<TxInput>, references: seq<TxInput>)

  ghost predicate Supplies(tx: Tx, s: Supply) {
    Foreign(tx.inputs, s.inputs) && Unnamed(tx.references, s.references)
  }

  /** There are more transaction ids than the template can use up. */
  ghost predicate IdsSuffice(tx: Tx) {
    2 * |InputFeed(tx.inputs)| < Ids(32) && |tx.references| + ReferenceTotal(tx.references) <= Ids(32)
  }

  lemma {:induction false} SupplyExists(tx: Tx) returns (s: Supply)
    requires IdsSuffice(tx)
    ensures Supplies(tx, s)
  {
    hide Ids;
    var ins := ForeignStrays(tx.inputs);
    var refs := UnnamedStrays(tx.references);
    s := Supply(ins, refs);
  }

  /** What a template must look like for any transaction on the ledger to match it. */
  ghost predicate MatchableOnLedger(tx: Tx) {
    && Matchable(tx)
    && DistinctListed(tx.inputs) && RealRefs(tx.inputs)
    && EveryListHasNews(tx.references)
  }

  /** The transaction with the fewest inputs and reference inputs, the rest being kept. */
  ghost function Moved(tx: Tx, ctx: CardanoTx, avoid: Option<UtxoRef>, s: Supply): CardanoTx
    requires Supplies(tx, s) && EveryListHasNews(tx.references)
  {
    ctx.(inputs := LedgerInputs(tx.inputs, s.inputs), references := LedgerRefs(tx.references, avoid, s.references))
  }

  /** Any match can be moved to the ledger. */
  lemma {:induction false} MovedToLedger(
      tx: Tx, ctx: CardanoTx, resolved: ResolvedInputs, avoid: Option<UtxoRef>, s: Supply)
    requires Accepts(tx, ctx, resolved) && Supplies(tx, s) && MatchableOnLedger(tx)
    ensures Accepts(tx, Moved(tx, ctx, avoid, s), map[]) && OnLedger(Moved(tx, ctx, avoid, s))
  {
    LedgerInputsServed(tx.inputs, s.inputs);
    LedgerInputsAreOnLedger(tx.inputs, s.inputs);
    LedgerRefsServed(tx.references, avoid, s.references);
    LedgerRefsAreSpendable(tx.references, avoid, s.references);
    hide LedgerInputs, LedgerRefs, Supplies, MatchableOnLedger, InputDemands, ReferenceDemands, Assign;
  }

  /** A template that lists an output twice, or lists what is not one, or has a reference list
      that names nothing first, matches nothing on the ledger. */
  lemma {:induction false} MatchedOnLedger(tx: Tx, ctx: CardanoTx, resolved: ResolvedInputs)
    requires Accepts(tx, ctx, resolved) && OnLedger(ctx)
    ensures MatchableOnLedger(tx)
  {
    StarvedNeverMatches(tx.inputs, ctx.inputs, resolved);
    EmptyListNeverMatches(tx.references, ctx.references);
    NewsNecessary(tx.references, ctx.references);
    var slots := Assign(InputDemands(tx.inputs, ctx.inputs, resolved), {}).value;
    hide Assign, ReferenceDemands, InputDemands, EveryListHasNews, NoStarvingQuery;
    ListedOnce(tx.inputs, ctx.inputs, resolved, slots);
  }

  lemma {:induction false} ListedOnce(
      inputs: seq<Input>, ins: seq<TxInput>, resolved: ResolvedInputs, slots: seq<seq<nat>>)
    requires Assign(InputDemands(inputs, ins, resolved), {}) == Some(slots) && Spendable(ins)
    ensures DistinctListed(inputs) && RealRefs(inputs)
  {
    InputsSound(inputs, ins, resolved, slots);
    forall j: nat, k: nat | j < |inputs| && k < |RefsOf(inputs[j].utxos)|
      ensures |RefsOf(inputs[j].utxos)[k].txid| == 32
    {
      RefAtPick(inputs, ins, resolved, slots, j, k);
    }
    forall j: nat, k: nat, p: nat, q: nat |
      j < |inputs| && k < |RefsOf(inputs[j].utxos)| && p < |inputs| && q < |RefsOf(inputs[p].utxos)|
      && (j, k) != (p, q)
      ensures RefsOf(inputs[j].utxos)[k] != RefsOf(inputs[p].utxos)[q]
    {
      RefAtPick(inputs, ins, resolved, slots, j, k);
      RefAtPick(inputs, ins, resolved, slots, p, q);
      assert slots[j][k] != slots[p][q];
    }
  }

  lemma {:induction false} RefAtPick(
      inputs: seq<Input>, ins: seq<TxInput>, resolved: ResolvedInputs, slots: seq<seq<nat>>, j: nat, k: nat)
    requires j < |inputs| == |slots| && k < |RefsOf(inputs[j].utxos)|
    requires InputSlotOk(inputs[j].utxos, slots[j], Before(slots, j), ins, resolved)
    ensures k < |slots[j]| && slots[j][k] < |ins| && Key(ins[slots[j][k]]) == RefsOf(inputs[j].utxos)[k]
  {
    assert LowestFree(slots[j][k], RefRow(ins, RefsOf(inputs[j].utxos)[k]), Before(slots, j) + Elems(slots[j][..k]));
  }

  /** Some transaction on the ledger matches a template if and only if no open `many` query
      precedes constant references, no output is listed twice, and every reference list names
      something that no earlier one names. */
  lemma {:induction false} LedgerMatchableExact(tx: Tx)
    requires IdsSuffice(tx)
    ensures (exists ctx, resolved :: Accepts(tx, ctx, resolved) && OnLedger(ctx)) <==> MatchableOnLedger(tx)
  {
    if ctx, resolved :| Accepts(tx, ctx, resolved) && OnLedger(ctx) {
      MatchedOnLedger(tx, ctx, resolved);
    }
    if MatchableOnLedger(tx) {
      var s := SupplyExists(tx);
      WitnessAccepted(tx, FullChoice(tx));
      hide *;
      MovedToLedger(tx, WitnessTx(tx, FullChoice(tx)), map[], None, s);
    }
  }

  // ----- exactness on the ledger

  ghost predicate NeverRejectsOnLedger(tx: Tx) {
    forall ctx: CardanoTx, resolved: ResolvedInputs | Accepts(tx, ctx, resolved) && OnLedger(ctx) ::
      Extracted(tx).Matches(Summarized(ctx, resolved))
  }

  /** As for any transaction, except that the one input every transaction has may meet the
      minimum, that a reference is forced where some list names nothing else first, and that one
      reference input per list and parameter must meet the minimum. */
  ghost predicate ForcedOnLedger(tx: Tx) {
    && RequiredInputAddresses(tx.inputs) == {}
    && SaturatingSum(InputMinimums(tx.inputs))
       <= Saturate16(if InputFeed(tx.inputs) == [] then 1 else |InputFeed(tx.inputs)|)
    && OptionalPinsCovered(tx.outputs)
    && PoliciesForced(tx.mints)
    && PoliciesForced(tx.burns)
    && NewsForced(tx.references)
    && SaturatingSum(ReferenceMinimums(tx.references)) <= Saturate16(|tx.references|)
  }

  lemma {:induction false} ForcedNeverRejectsOnLedger(tx: Tx, ctx: CardanoTx, resolved: ResolvedInputs)
    requires RequiresOnlyStructure(tx) && ForcedOnLedger(tx)
    requires Accepts(tx, ctx, resolved) && OnLedger(ctx)
    ensures Extracted(tx).Matches(Summarized(ctx, resolved))
  {
    var m := MatchSpec(tx, ctx, resolved, "", "").value;
    InputRefsNecessary(tx.inputs, ctx.inputs, resolved, m.inputMap);
    ForcedInputs(tx.inputs, ctx.inputs, resolved);
    OutputAddressesNecessary(tx.outputs, ctx.outputs, m.outputMap);
    OutputCountNecessary(tx.outputs, ctx.outputs, m.outputMap);
    MintPoliciesNecessary(tx.mints, false, ctx.mints, m.mintMap);
    MintCountNecessary(tx.mints, false, ctx.mints, m.mintMap);
    MintPoliciesNecessary(tx.burns, true, ctx.mints, m.burnMap);
    MintCountNecessary(tx.burns, true, ctx.mints, m.burnMap);
    NewsNecessary(tx.references, ctx.references);
    OneEach(tx.references, ctx.references);
  }

  /** What passes on every match on the ledger passes on every match, as far as inputs and
      reference inputs do not matter. */
  lemma {:induction false} LedgerComponents(tx: Tx, s: Supply)
    requires NeverRejectsOnLedger(tx) && Supplies(tx, s) && MatchableOnLedger(tx)
    ensures OutputAddressesAlwaysPass(tx) && MintPoliciesAlwaysPass(tx) && BurnPoliciesAlwaysPass(tx)
  {
    forall ctx: CardanoTx, resolved: ResolvedInputs | Accepts(tx, ctx, resolved)
      ensures RequiredOutputAddresses(tx.outputs) <= OutputAddresses(ctx.outputs)
      ensures RequiredPolicies(tx.mints) <= PositivePolicies(ctx.mints)
      ensures RequiredPolicies(tx.burns) <= NegativePolicies(ctx.mints)
    {
      MovedToLedger(tx, ctx, resolved, None, s);
      MovedPassesRest(tx, ctx, Moved(tx, ctx, None, s).inputs, Moved(tx, ctx, None, s).references);
    }
  }

  lemma {:induction false} MovedPassesRest(tx: Tx, ctx: CardanoTx, ins: seq<TxInput>, refs: seq<TxInput>)
    requires Extracted(tx).Matches(Summarized(ctx.(inputs := ins, references := refs), map[]))
    ensures RequiredOutputAddresses(tx.outputs) <= OutputAddresses(ctx.outputs)
    ensures RequiredPolicies(tx.mints) <= PositivePolicies(ctx.mints)
    ensures RequiredPolicies(tx.burns) <= NegativePolicies(ctx.mints)
    ensures RequiredReferenceRefs(tx.references) <= InputRefs(refs)
    ensures SaturatingSum(ReferenceMinimums(tx.references)) <= Saturate16(|refs|)
  {}

  lemma {:induction false} LedgerReferencesExact(tx: Tx, s: Supply)
    requires NeverRejectsOnLedger(tx) && Supplies(tx, s) && MatchableOnLedger(tx)
    ensures NewsForced(tx.references)
    ensures SaturatingSum(ReferenceMinimums(tx.references)) <= Saturate16(|tx.references|)
  {
    var w := WitnessTx(tx, FullChoice(tx));
    WitnessAccepted(tx, FullChoice(tx));
    hide WitnessTx, Accepts, LedgerInputs, LedgerRefs, Extracted, Summarized, EveryListHasNews;
    forall avoid: Option<UtxoRef>
      ensures RequiredReferenceRefs(tx.references) <= InputRefs(LedgerRefs(tx.references, avoid, s.references))
      ensures SaturatingSum(ReferenceMinimums(tx.references)) <=
        Saturate16(|LedgerRefs(tx.references, avoid, s.references)|)
    {
      MovedToLedger(tx, w, map[], avoid, s);
      MovedPassesRest(tx, w, LedgerInputs(tx.inputs, s.inputs), LedgerRefs(tx.references, avoid, s.references));
    }
    forall r | r in RequiredReferenceRefs(tx.references) ensures SoleNews(tx.references, r) {
      if !SoleNews(tx.references, r) {
        LedgerRefsAvoid(tx.references, r, s.references);
        assert false;
      }
    }
    assert |LedgerRefs(tx.references, None, s.references)| == |tx.references| by { LedgerRefsCount(tx.references, s); }
  }

  lemma {:induction false} LedgerRefsCount(references: seq<Expression>, s: Supply)
    requires EveryListHasNews(references) && |s.references| == |references|
    ensures |LedgerRefs(references, None, s.references)| == |references|
  {}

  lemma {:induction false} LedgerInputsExact(tx: Tx, s: Supply)
    requires NeverRejectsOnLedger(tx) && Supplies(tx, s) && MatchableOnLedger(tx)
    ensures RequiresOnlyStructure(tx)
    ensures RequiredInputAddresses(tx.inputs) == {}
    ensures SaturatingSum(InputMinimums(tx.inputs)) <=
      Saturate16(if InputFeed(tx.inputs) == [] then 1 else |InputFeed(tx.inputs)|)
  {
    var w := WitnessTx(tx, FullChoice(tx));
    WitnessAccepted(tx, FullChoice(tx));
    WitnessIsBare(tx);
    hide Extracted, Summarized, LedgerInputs, LedgerRefs, WitnessTx, InputFeed, Foreign, OnLedger, MatchSpec, Bare;
    MovedToLedger(tx, w, map[], None, s);
    LedgerInputsAreOnLedger(tx.inputs, s.inputs);
    MovedPasses(tx, w, LedgerInputs(tx.inputs, s.inputs), LedgerRefs(tx.references, None, s.references));
  }

  /** What passing says of the template when the inputs, unresolved ones, were exchanged in a
      transaction that shows nothing else. */
  lemma {:induction false} MovedPasses(tx: Tx, w: CardanoTx, ins: seq<TxInput>, refs: seq<TxInput>)
    requires Bare(Summarized(w, map[]))
    requires Extracted(tx).Matches(Summarized(w.(inputs := ins, references := refs), map[]))
    ensures RequiresOnlyStructure(tx)
    ensures RequiredInputAddresses(tx.inputs) == {}
    ensures SaturatingSum(InputMinimums(tx.inputs)) <= Saturate16(|ins|)
  {
    BareInputs(w.inputs);
    BareInputs(ins);
  }

  /** Inputs that are not resolved show no address and hold no asset. */
  lemma {:induction false} BareInputs(ins: seq<TxInput>)
    ensures InputAddresses(ins, map[]) == {} && InputPolicies(ins, map[]) == {}
  {}

  /** Exactness over the transactions on the ledger: a template that matches any of them is
      never rejected if and only if nothing but structure is required and the structural
      conditions hold. There is no bound on the number of references here. */
  lemma {:induction false} PrefilterExactnessOnLedger(tx: Tx)
    requires IdsSuffice(tx)
    ensures NeverRejectsOnLedger(tx) <==>
      (MatchableOnLedger(tx) ==> RequiresOnlyStructure(tx) && ForcedOnLedger(tx))
  {
    if MatchableOnLedger(tx) ==> RequiresOnlyStructure(tx) && ForcedOnLedger(tx) {
      forall ctx: CardanoTx, resolved: ResolvedInputs | Accepts(tx, ctx, resolved) && OnLedger(ctx)
        ensures Extracted(tx).Matches(Summarized(ctx, resolved))
      {
        hide *;
        MatchedOnLedger(tx, ctx, resolved);
        ForcedNeverRejectsOnLedger(tx, ctx, resolved);
      }
    }
    if NeverRejectsOnLedger(tx) && MatchableOnLedger(tx) { NeverRejectsForces(tx); }
  }

  lemma {:induction false} NeverRejectsForces(tx: Tx)
    requires IdsSuffice(tx) && NeverRejectsOnLedger(tx) && MatchableOnLedger(tx)
    ensures RequiresOnlyStructure(tx) && ForcedOnLedger(tx)
  {
    hide NeverRejectsOnLedger, RequiresOnlyStructure, Supplies, IdsSuffice, NewsForced, PoliciesForced, InputFeed;
    var s := SupplyExists(tx);
    LedgerComponents(tx, s);
    LedgerInputsExact(tx, s);
    LedgerReferencesExact(tx, s);
    OutputAddressesExact(tx);
    MintPoliciesExact(tx);
    BurnPoliciesExact(tx);
  }

  // ----- a concrete rejection

  /** A transaction that spends one output of another address. */
  const SPENDS_ELSEWHERE :=
    CardanoTx(seq(32, _ => 7), [TxInput(seq(32, _ => 8), 0)], [], [], [], [], [], [], None, None)

  const ELSEWHERE: ResolvedInputs :=
    map[UtxoRef(seq(32, _ => 8), 0) := Decoded(TxOutput(Some(AddressOf(2)), 1000000, [], None))]

  /** The template that wants an input from one address matches a transaction that spends from
      another address only, and its fingerprint rejects that transaction. */
  lemma {:induction false} PrefilterRejectsOnLedger()
    ensures OnLedger(SPENDS_ELSEWHERE) && Accepts(PINNED_QUERY, SPENDS_ELSEWHERE, ELSEWHERE)
    ensures !Extracted(PINNED_QUERY).Matches(Summarized(SPENDS_ELSEWHERE, ELSEWHERE))
  {
    var tx, ctx := PINNED_QUERY, SPENDS_ELSEWHERE;
    assert RefsOf(tx.inputs[0].utxos) == [];
    QueriesNeverFail(tx.inputs, ctx.inputs, ELSEWHERE, {});
    assert AddressOf(1) in ToSet(PinnedByQuery(tx.inputs[0].utxos));
    assert AddressOf(1) in RequiredInputAddresses(tx.inputs);
    assert ResolvedAddress(ELSEWHERE, ctx.inputs[0]) == Some(AddressOf(2));
    assert AddressOf(1)[1] != AddressOf(2)[1];
    assert AddressOf(1) !in InputAddresses(ctx.inputs, ELSEWHERE);
  }

  // ----- policies on the ledger

  /** On the ledger a policy has one entry, for what is minted and what is burnt of it. */
  ghost predicate DistinctPolicies(entries: seq<MintEntry>) {
    forall i, j | 0 <= i < j < |entries| :: entries[i].policy != entries[j].policy
  }

  ghost predicate Names(m: Mint, policies: set<Base.Bytes>) {
    Elems(ConstPoliciesIn(m.amount)) == policies
  }

  lemma {:induction false} NamesSome(m: Mint, policies: set<Base.Bytes>, burn: bool, entry: MintEntry)
    requires Names(m, policies) && policies != {}
    ensures MintAccepts(m, burn, entry) <==>
      entry.policy in policies && if burn then AnyNegative(entry) else AnyPositive(entry)
  {
    var p :| p in policies;
    assert p in Elems(ConstPoliciesIn(m.amount));
    assert entry.policy in ConstPoliciesIn(m.amount) <==> entry.policy in Elems(ConstPoliciesIn(m.amount));
  }

  /** The first of two mints takes the earlier entry of either policy; so the second, that asks
      for one of them, is served only if that entry is the later one. */
  lemma {:induction false} ServedInOrder(
      mints: seq<Mint>, burn: bool, entries: seq<MintEntry>, p: Base.Bytes, q: Base.Bytes)
    returns (i: nat, j: nat)
    requires |mints| == 2 && p != q && Names(mints[0], {p, q}) && Names(mints[1], {q})
    requires DistinctPolicies(entries) && Assign(MintDemands(mints, burn, entries), {}).Some?
    ensures i < j < |entries| && entries[i].policy == p && entries[j].policy == q
  {
    var slots := Assign(MintDemands(mints, burn, entries), {}).value;
    MintsSound(mints, burn, entries, slots);
    assert MintSlotOk(mints[0], burn, slots[0], Before(slots, 0), entries);
    assert MintSlotOk(mints[1], burn, slots[1], Before(slots, 1), entries);
    BeforeStep(slots, 0);
    i, j := slots[0][0], slots[1][0];
    NamesSome(mints[0], {p, q}, burn, entries[i]);
    NamesSome(mints[0], {p, q}, burn, entries[j]);
    NamesSome(mints[1], {q}, burn, entries[j]);
    assert j !in Before(slots, 0) && i in Elems(slots[0]);
  }

  /** So two mints and two burns may each be served by some transaction on the ledger, and yet
      not by one and the same: what is minted wants the entries in one order and what is burnt
      in the other. */
  lemma {:induction false} MintsAndBurnsDisagree(
      tx: Tx, ctx: CardanoTx, resolved: ResolvedInputs, p: Base.Bytes, q: Base.Bytes)
    requires |tx.mints| == 2 && Names(tx.mints[0], {p, q}) && Names(tx.mints[1], {p})
    requires |tx.burns| == 2 && Names(tx.burns[0], {p, q}) && Names(tx.burns[1], {q})
    requires p != q && DistinctPolicies(ctx.mints)
    ensures !Accepts(tx, ctx, resolved)
  {
    if Accepts(tx, ctx, resolved) {
      assert {p, q} == {q, p};
      var i, j := ServedInOrder(tx.mints, false, ctx.mints, q, p);
      var k, l := ServedInOrder(tx.burns, true, ctx.mints, p, q);
      assert false;
    }
  }

  lemma {:induction false} EachIsServed(mints: seq<Mint>, burn: bool, p: Base.Bytes, q: Base.Bytes)
    returns (entries: seq<MintEntry>)
    requires |mints| == 2 && p != q && Names(mints[0], {p, q}) && Names(mints[1], {q})
    ensures DistinctPolicies(entries) && Assign(MintDemands(mints, burn, entries), {}).Some?
  {
    var assets := [MintAsset([], if burn then -1 else 1)];
    assert assets[0] in assets;
    entries := [MintEntry(p, assets), MintEntry(q, assets)];
    var ds := MintDemands(mints, burn, entries);
    NamesSome(mints[0], {p, q}, burn, entries[0]);
    NamesSome(mints[1], {q}, burn, entries[1]);
    InOrderOne(MintRow(mints[0], burn, entries), true, 0);
    InOrderOne(MintRow(mints[1], burn, entries), true, 1);
    assert ds[1..][0] == ds[1] && ds[1..][1..] == [];
    assert AllInOrder(ds[1..], 1);
    assert AllInOrder(ds, 0);
    AssignInOrder(ds, {}, 0);
  }
}
