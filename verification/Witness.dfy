/** The smallest transactions a TIR matches, and when there are any. */
module Witness {
  // The witness has one entry per pick of the matcher, in TIR order, so that first-fit hands them
  // out in that order.

  import opened Base
  import opened Tir
  import opened Expr
  import opened Payload
  import opened Greedy
  import opened Matching
  import opened MatchLaws
  import opened Fingerprint

  /** Some payload with this transaction and these resolved inputs matches. */
  ghost predicate Accepts(tx: Tx, ctx: CardanoTx, resolved: ResolvedInputs) {
    MatchSpec(tx, ctx, resolved, "", "").Some?
  }

  // ----- inputs

  predicate HasRefs(inputs: seq<Input>) {
    exists j | 0 <= j < |inputs| :: RefsOf(inputs[j].utxos) != []
  }

  /** A query without a pinned address, which accepts any input. */
  predicate OpenQuery(e: Expression, many: bool) {
    QueryOf(e).Some? && QueryOf(e).value.many == many && ConstAddress(QueryOf(e).value.address).None?
  }

  /** No open `many` query comes before constant references: it would take their inputs. */
  predicate NoStarvingQuery(inputs: seq<Input>) {
    forall j | 0 <= j < |inputs| :: OpenQuery(inputs[j].utxos, true) ==> !HasRefs(inputs[j + 1..])
  }

  function InputFor(r: UtxoRef): TxInput {
    TxInput(r.txid, r.index)
  }

  function InputsFor(refs: seq<UtxoRef>): seq<TxInput> {
    seq(|refs|, k requires 0 <= k < |refs| => InputFor(refs[k]))
  }

  const STRAY := TxInput([], 0)

  /** The inputs the first element cannot do without: its references, or a stray input that
      an open query takes before later references are served. */
  function OwnInputs(inputs: seq<Input>): seq<TxInput>
    requires inputs != []
  {
    var e := inputs[0].utxos;
    if OpenQuery(e, false) && HasRefs(inputs[1..]) then [STRAY] else InputsFor(RefsOf(e))
  }

  function InputFeed(inputs: seq<Input>): seq<TxInput> {
    if inputs == [] then [] else OwnInputs(inputs) + InputFeed(inputs[1..])
  }

  lemma {:induction false} NoRefsNoFeed(inputs: seq<Input>)
    requires !HasRefs(inputs)
    ensures InputFeed(inputs) == []
  {
    if inputs != [] {
      assert RefsOf(inputs[0].utxos) == [];
      assert !HasRefs(inputs[1..]) by {
        assert forall j | 0 <= j < |inputs[1..]| :: inputs[1..][j] == inputs[j + 1];
      }
      NoRefsNoFeed(inputs[1..]);
    }
  }

  /** From position `c` on, `ins` spends `refs`. */
  ghost predicate Lists(ins: seq<TxInput>, c: nat, refs: seq<UtxoRef>) {
    c + |refs| <= |ins| && forall i | c <= i < c + |refs| :: Key(ins[i]) == refs[i - c]
  }

  /** References listed from position `c` on are served in order. */
  lemma {:induction false} RefsInOrder(refs: seq<UtxoRef>, ins: seq<TxInput>, c: nat)
    requires Lists(ins, c, refs)
    ensures RowsInOrder(RefRows(ins, refs), c) && RowsFed(RefRows(ins, refs), c) == |refs|
    decreases |refs|
  {
    if refs != [] {
      var rows := RefRows(ins, refs);
      assert rows[1..] == RefRows(ins, refs[1..]);
      assert c in rows[0];
      RefsInOrder(refs[1..], ins, c + 1);
    }
  }

  lemma {:induction false} ListsFeed(refs: seq<UtxoRef>, rest: seq<TxInput>, ins: seq<TxInput>, c: nat)
    requires c <= |ins| && ins[c..] == InputsFor(refs) + rest
    ensures Lists(ins, c, refs)
  {
    assert forall i | c <= i < c + |refs| :: ins[i] == ins[c..][i - c] == InputFor(refs[i - c]);
  }

  /** A query is served in order: it finds its stray input, or nothing at all. */
  lemma {:induction false} QueryInOrder(inputs: seq<Input>, ins: seq<TxInput>, c: nat, q: InputQuery)
    requires inputs != [] && NoStarvingQuery(inputs)
    requires QueryOf(inputs[0].utxos) == Some(q)
    requires c <= |ins| && ins[c..] == InputFeed(inputs)
    ensures InOrder(InputDemand(inputs[0].utxos, ins, map[]), c)
    ensures Fed(InputDemand(inputs[0].utxos, ins, map[]), c) == |OwnInputs(inputs)|
  {
    var row := QueryRow(q, ins, map[]);
    var open := ConstAddress(q.address).None?;
    if open && !q.many && HasRefs(inputs[1..]) {
      assert OwnInputs(inputs) == [STRAY];
      InOrderOne(row, false, c);
    } else {
      assert OwnInputs(inputs) == [];
      assert forall x | x in row :: x < c by {
        if open { NoRefsNoFeed(inputs[1..]); }
      }
      if !q.many { InOrderOne(row, false, c); }
    }
  }

  /** The first element is served in order by the inputs at the front of the feed. */
  lemma {:induction false} InputInOrder(inputs: seq<Input>, ins: seq<TxInput>, c: nat)
    requires inputs != [] && NoStarvingQuery(inputs)
    requires c <= |ins| && ins[c..] == InputFeed(inputs)
    ensures InOrder(InputDemand(inputs[0].utxos, ins, map[]), c)
    ensures Fed(InputDemand(inputs[0].utxos, ins, map[]), c) == |OwnInputs(inputs)|
  {
    var e := inputs[0].utxos;
    if ConstUtxoRefs(e).Some? {
      var refs := ConstUtxoRefs(e).value;
      ListsFeed(refs, InputFeed(inputs[1..]), ins, c);
      RefsInOrder(refs, ins, c);
    } else if QueryOf(e).Some? {
      QueryInOrder(inputs, ins, c, QueryOf(e).value);
    }
  }

  lemma {:induction false} NoStarvingTail(inputs: seq<Input>)
    requires inputs != [] && NoStarvingQuery(inputs)
    ensures NoStarvingQuery(inputs[1..])
  {
    var rest := inputs[1..];
    forall j | 0 <= j < |rest| && OpenQuery(rest[j].utxos, true) ensures !HasRefs(rest[j + 1..]) {
      assert rest[j] == inputs[j + 1] && rest[j + 1..] == inputs[j + 2..];
    }
  }

  lemma {:induction false} InputDemandsCons(inputs: seq<Input>, ins: seq<TxInput>, resolved: ResolvedInputs)
    requires inputs != []
    ensures InputDemands(inputs, ins, resolved) ==
      [InputDemand(inputs[0].utxos, ins, resolved)] + InputDemands(inputs[1..], ins, resolved)
  {
  }

  lemma {:induction false} OutputDemandsCons(outputs: seq<Output>, outs: seq<TxOutput>)
    requires outputs != []
    ensures OutputDemands(outputs, outs) == [OutputDemand(outputs[0], outs)] + OutputDemands(outputs[1..], outs)
  {
  }

  lemma {:induction false} FeedDrop<T>(ins: seq<T>, c: nat, own: seq<T>, rest: seq<T>)
    requires c <= |ins| && ins[c..] == own + rest
    ensures c + |own| <= |ins| && ins[c + |own|..] == rest
  {
    assert ins[c + |own|..] == ins[c..][|own|..];
  }

  lemma {:induction false} InputsTail(inputs: seq<Input>, ins: seq<TxInput>, c: nat)
    requires inputs != [] && NoStarvingQuery(inputs)
    requires c <= |ins| && ins[c..] == InputFeed(inputs)
    ensures NoStarvingQuery(inputs[1..])
    ensures c + |OwnInputs(inputs)| <= |ins| && ins[c + |OwnInputs(inputs)|..] == InputFeed(inputs[1..])
  {
    NoStarvingTail(inputs);
    FeedDrop(ins, c, OwnInputs(inputs), InputFeed(inputs[1..]));
  }

  lemma {:induction false} NoInputsInOrder(inputs: seq<Input>, ins: seq<TxInput>, c: nat)
    requires inputs == []
    ensures AllInOrder(InputDemands(inputs, ins, map[]), c)
  {}

  lemma {:induction false} InputsInOrder(inputs: seq<Input>, ins: seq<TxInput>, c: nat)
    requires NoStarvingQuery(inputs)
    requires c <= |ins| && ins[c..] == InputFeed(inputs)
    ensures AllInOrder(InputDemands(inputs, ins, map[]), c)
    decreases |inputs|
  {
    hide *;
    if inputs == [] {
      NoInputsInOrder(inputs, ins, c);
    } else {
      InputsTail(inputs, ins, c);
      InputsInOrder(inputs[1..], ins, c + |OwnInputs(inputs)|);
      InputInOrder(inputs, ins, c);
      InputDemandsCons(inputs, ins, map[]);
      ConsInOrder(InputDemands(inputs, ins, map[]), InputDemand(inputs[0].utxos, ins, map[]),
                  InputDemands(inputs[1..], ins, map[]), c, |OwnInputs(inputs)|);
    }
  }

  lemma {:induction false} InputWitness(inputs: seq<Input>)
    requires NoStarvingQuery(inputs)
    ensures Assign(InputDemands(inputs, InputFeed(inputs), map[]), {}).Some?
  {
    InputsInOrder(inputs, InputFeed(inputs), 0);
    AssignInOrder(InputDemands(inputs, InputFeed(inputs), map[]), {}, 0);
  }

  // ----- outputs

  function OutputAt(address: Option<Base.Bytes>): TxOutput {
    TxOutput(address, 0, [], None)
  }

  /** One output per TIR output, leaving out those that pin `avoid`. */
  function OutputFeed(outputs: seq<Output>, avoid: Option<Base.Bytes>): seq<TxOutput> {
    if outputs == [] then []
    else OwnOutputs(outputs[0], avoid) + OutputFeed(outputs[1..], avoid)
  }

  lemma {:induction false} OutputFeedPlain(outputs: seq<Output>, avoid: Option<Base.Bytes>)
    ensures forall o | o in OutputFeed(outputs, avoid) :: o.policies == []
    ensures avoid.Some? ==> forall o | o in OutputFeed(outputs, avoid) :: o.address != avoid
  {
    if outputs != [] { OutputFeedPlain(outputs[1..], avoid); }
  }

  ghost predicate OnlyOptionalPins(outputs: seq<Output>, avoid: Option<Base.Bytes>) {
    forall j | 0 <= j < |outputs| :: avoid.Some? && ConstAddress(outputs[j].address) == avoid ==> outputs[j].optional
  }

  function OwnOutputs(o: Output, avoid: Option<Base.Bytes>): seq<TxOutput> {
    var pin := ConstAddress(o.address);
    if avoid.Some? && pin == avoid then [] else [OutputAt(pin)]
  }

  lemma {:induction false} OutputInOrder(outputs: seq<Output>, avoid: Option<Base.Bytes>, outs: seq<TxOutput>, c: nat)
    requires outputs != [] && OnlyOptionalPins(outputs, avoid)
    requires c <= |outs| && outs[c..] == OutputFeed(outputs, avoid)
    ensures InOrder(OutputDemand(outputs[0], outs), c)
    ensures Fed(OutputDemand(outputs[0], outs), c) == |OwnOutputs(outputs[0], avoid)|
  {
    var o := outputs[0];
    var row := OutputRow(o, outs);
    assert forall i | c <= i < |outs| :: outs[i] == OutputFeed(outputs, avoid)[i - c];
    if OwnOutputs(o, avoid) == [] {
      OutputFeedPlain(outputs, avoid);
      assert forall x | x in row :: x < c;
    } else {
      assert c in row;
    }
    InOrderOne(row, !o.optional, c);
  }

  lemma {:induction false} OptionalPinsTail(outputs: seq<Output>, avoid: Option<Base.Bytes>)
    requires outputs != [] && OnlyOptionalPins(outputs, avoid)
    ensures OnlyOptionalPins(outputs[1..], avoid)
    ensures OutputFeed(outputs, avoid) == OwnOutputs(outputs[0], avoid) + OutputFeed(outputs[1..], avoid)
  {
    assert forall j | 0 <= j < |outputs[1..]| :: outputs[1..][j] == outputs[j + 1];
  }

  lemma {:induction false} OutputsInOrder(
      outputs: seq<Output>, avoid: Option<Base.Bytes>, outs: seq<TxOutput>, c: nat)
    requires OnlyOptionalPins(outputs, avoid)
    requires c <= |outs| && outs[c..] == OutputFeed(outputs, avoid)
    ensures AllInOrder(OutputDemands(outputs, outs), c)
    decreases |outputs|
  {
    if outputs != [] {
      var rest, own := outputs[1..], OwnOutputs(outputs[0], avoid);
      OptionalPinsTail(outputs, avoid);
      hide *;
      OutputInOrder(outputs, avoid, outs, c);
      FeedDrop(outs, c, own, OutputFeed(rest, avoid));
      OutputsInOrder(rest, avoid, outs, c + |own|);
      OutputDemandsCons(outputs, outs);
      ConsInOrder(OutputDemands(outputs, outs), OutputDemand(outputs[0], outs), OutputDemands(rest, outs),
                  c, |own|);
    }
  }

  lemma {:induction false} OutputWitness(outputs: seq<Output>, avoid: Option<Base.Bytes>)
    requires OnlyOptionalPins(outputs, avoid)
    ensures Assign(OutputDemands(outputs, OutputFeed(outputs, avoid)), {}).Some?
  {
    OutputsInOrder(outputs, avoid, OutputFeed(outputs, avoid), 0);
    AssignInOrder(OutputDemands(outputs, OutputFeed(outputs, avoid)), {}, 0);
  }

  // ----- mints and burns

  /** A policy the mint accepts, other than `avoid` where it has a choice. */
  function ChoosePolicy(policies: seq<Base.Bytes>, avoid: Option<Base.Bytes>): Base.Bytes {
    if policies == [] then (if avoid == Some([]) then [0] else [])
    else if Some(policies[0]) != avoid || |policies| == 1 then policies[0]
    else ChoosePolicy(policies[1..], avoid)
  }

  lemma {:induction false} ChoosePolicySound(policies: seq<Base.Bytes>, avoid: Option<Base.Bytes>)
    ensures policies != [] ==> ChoosePolicy(policies, avoid) in policies
    ensures avoid.Some? && Elems(policies) != {avoid.value} ==> Some(ChoosePolicy(policies, avoid)) != avoid
  {
    if policies != [] && Some(policies[0]) == avoid && |policies| > 1 {
      ChoosePolicySound(policies[1..], avoid);
      assert Elems(policies) == {policies[0]} + Elems(policies[1..]);
    } else if |policies| == 1 {
      assert Elems(policies) == {policies[0]};
    }
  }

  function EntryFor(m: Mint, burn: bool, avoid: Option<Base.Bytes>): MintEntry {
    MintEntry(ChoosePolicy(ConstPoliciesIn(m.amount), avoid), [MintAsset([], if burn then -1 else 1)])
  }

  function MintFeed(mints: seq<Mint>, burn: bool, avoid: Option<Base.Bytes>): seq<MintEntry> {
    seq(|mints|, j requires 0 <= j < |mints| => EntryFor(mints[j], burn, avoid))
  }

  lemma {:induction false} EntrySign(m: Mint, burn: bool, avoid: Option<Base.Bytes>)
    ensures AnyPositive(EntryFor(m, burn, avoid)) == !burn
    ensures AnyNegative(EntryFor(m, burn, avoid)) == burn
    ensures MintAccepts(m, burn, EntryFor(m, burn, avoid))
  {
    var e := EntryFor(m, burn, avoid);
    assert e.assets[0] in e.assets;
    ChoosePolicySound(ConstPoliciesIn(m.amount), avoid);
  }

  lemma {:induction false} MintsInOrder(pre: seq<MintEntry>, mints: seq<Mint>, post: seq<MintEntry>, burn: bool,
                                        avoid: Option<Base.Bytes>)
    ensures AllInOrder(MintDemands(mints, burn, pre + MintFeed(mints, burn, avoid) + post), |pre|)
    decreases |mints|
  {
    if mints != [] {
      var rest := mints[1..];
      var own := EntryFor(mints[0], burn, avoid);
      var entries := pre + MintFeed(mints, burn, avoid) + post;
      assert MintFeed(mints, burn, avoid) == [own] + MintFeed(rest, burn, avoid);
      assert entries == (pre + [own]) + MintFeed(rest, burn, avoid) + post;
      assert MintDemands(mints, burn, entries)[1..] == MintDemands(rest, burn, entries);
      MintsInOrder(pre + [own], rest, post, burn, avoid);
      EntrySign(mints[0], burn, avoid);
      assert entries[|pre|] == own;
      InOrderOne(MintRow(mints[0], burn, entries), true, |pre|);
    }
  }

  function MintsAndBurns(tx: Tx, avoidMint: Option<Base.Bytes>, avoidBurn: Option<Base.Bytes>): seq<MintEntry> {
    MintFeed(tx.mints, false, avoidMint) + MintFeed(tx.burns, true, avoidBurn)
  }

  lemma {:induction false} MintWitness(tx: Tx, avoidMint: Option<Base.Bytes>, avoidBurn: Option<Base.Bytes>)
    ensures Assign(MintDemands(tx.mints, false, MintsAndBurns(tx, avoidMint, avoidBurn)), {}).Some?
    ensures Assign(MintDemands(tx.burns, true, MintsAndBurns(tx, avoidMint, avoidBurn)), {}).Some?
  {
    var minted, burnt := MintFeed(tx.mints, false, avoidMint), MintFeed(tx.burns, true, avoidBurn);
    var entries := minted + burnt;
    MintsInOrder([], tx.mints, burnt, false, avoidMint);
    assert [] + minted + burnt == entries;
    AssignInOrder(MintDemands(tx.mints, false, entries), {}, 0);
    MintsInOrder(minted, tx.burns, [], true, avoidBurn);
    assert minted + burnt + [] == entries;
    var ds := MintDemands(tx.burns, true, entries);
    forall x | 0 <= x < |minted| ensures !AnyNegative(entries[x]) {
      EntrySign(tx.mints[x], false, avoidMint);
      assert entries[x] == minted[x];
    }
    forall j | 0 <= j < |ds| ensures UsedUpBelow(Row(ds[j]), {}, |minted|) {
      RowOfOne(MintRow(tx.burns[j], true, entries), true);
    }
    AssignInOrder(ds, {}, |minted|);
  }

  // ----- references

  function Without(refs: seq<UtxoRef>, r: UtxoRef): (rest: seq<UtxoRef>)
    ensures forall x :: x in rest <==> x in refs && x != r
    ensures |rest| <= |refs|
    ensures r in refs ==> |rest| < |refs|
    ensures r !in refs ==> rest == refs
  {
    if refs == [] then [] else (if refs[0] == r then [] else [refs[0]]) + Without(refs[1..], r)
  }

  /** The list without `r`, or with a single `r` when it names nothing else. */
  function Thin(refs: seq<UtxoRef>, r: UtxoRef): seq<UtxoRef> {
    if Without(refs, r) == [] && refs != [] then [r] else Without(refs, r)
  }

  /** An input whose reference is not `r`. */
  function StrayOtherThan(r: UtxoRef): TxInput {
    if Key(STRAY) == r then TxInput([0], 0) else STRAY
  }

  /** The references that lists before position `k` name, and from there on a thinned-out
      choice that leaves `r` out where it can. */
  function ReferenceFeed(references: seq<Expression>, k: nat, r: UtxoRef): seq<TxInput> {
    if references == [] then []
    else OwnReferences(references[0], k, r) + ReferenceFeed(references[1..], if k == 0 then 0 else k - 1, r)
  }

  function OwnReferences(e: Expression, k: nat, r: UtxoRef): seq<TxInput> {
    match ConstUtxoRefs(e)
    case Some(refs) => InputsFor(Share(refs, k == 0, r))
    case None => [StrayOtherThan(r)]
  }

  predicate OnlyNames(refs: seq<UtxoRef>, r: UtxoRef) {
    refs != [] && Without(refs, r) == []
  }

  /** From position `k` on, no list that names `r` is followed by one that names only `r`. */
  ghost predicate CanThin(references: seq<Expression>, k: nat, r: UtxoRef) {
    forall i, j | k <= i < j < |references| :: !(r in RefsOf(references[i]) && OnlyNames(RefsOf(references[j]), r))
  }

  predicate NoEmptyList(references: seq<Expression>) {
    forall j | 0 <= j < |references| :: ConstUtxoRefs(references[j]) != Some([])
  }

  lemma {:induction false} InputsForKeys(refs: seq<UtxoRef>)
    ensures forall x | x in InputsFor(refs) :: Key(x) in refs
  {
    assert forall i | 0 <= i < |refs| :: Key(InputFor(refs[i])) == refs[i];
  }

  /** Thinned lists that do not single out `r` feed no `r` at all. */
  lemma {:induction false} FeedLacks(references: seq<Expression>, r: UtxoRef)
    requires forall j | 0 <= j < |references| :: !OnlyNames(RefsOf(references[j]), r)
    ensures forall x | x in ReferenceFeed(references, 0, r) :: Key(x) != r
  {
    if references != [] {
      assert forall j | 0 <= j < |references[1..]| :: references[1..][j] == references[j + 1];
      FeedLacks(references[1..], r);
      OwnLacks(references[0], r);
      assert ReferenceFeed(references, 0, r)
        == OwnReferences(references[0], 0, r) + ReferenceFeed(references[1..], 0, r);
    }
  }

  lemma {:induction false} OwnLacks(e: Expression, r: UtxoRef)
    requires !OnlyNames(RefsOf(e), r)
    ensures forall x | x in OwnReferences(e, 0, r) :: Key(x) != r
  {
    match ConstUtxoRefs(e) {
      case Some(refs) => InputsForKeys(Thin(refs, r));
      case None =>
    }
  }

  /** No input from position `c` on spends `r`. */
  ghost predicate NoneFrom(ins: seq<TxInput>, c: nat, r: UtxoRef) {
    forall i | c <= i < |ins| :: Key(ins[i]) != r
  }

  lemma {:induction false} RefRowsCons(refs: seq<UtxoRef>, ins: seq<TxInput>)
    requires refs != []
    ensures RefRows(ins, refs) == [RefRow(ins, refs[0])] + RefRows(ins, refs[1..])
  {
  }

  lemma {:induction false} ListsCons(ins: seq<TxInput>, c: nat, r: UtxoRef, refs: seq<UtxoRef>)
    requires Lists(ins, c, [r] + refs)
    ensures c in RefRow(ins, r) && Lists(ins, c + 1, refs)
  {
    forall i | c + 1 <= i < c + 1 + |refs| ensures Key(ins[i]) == refs[i - c - 1] {
      assert ([r] + refs)[i - c] == refs[i - c - 1];
    }
  }

  lemma {:induction false} RowsInOrderCons(rows: seq<set<nat>>, row: set<nat>, rest: seq<set<nat>>, c: nat)
    requires rows == [row] + rest
    ensures c in row && RowsInOrder(rest, c + 1) ==>
              RowsInOrder(rows, c) && RowsFed(rows, c) == 1 + RowsFed(rest, c + 1)
    ensures (forall x | x in row :: x < c) && RowsInOrder(rest, c) ==>
      RowsInOrder(rows, c) && RowsFed(rows, c) == RowsFed(rest, c)
  {
    assert rows[0] == row && rows[1..] == rest;
  }

  /** A thinned list is served in order when no `r` follows it. */
  lemma {:induction false} ThinInOrder(refs: seq<UtxoRef>, r: UtxoRef, ins: seq<TxInput>, c: nat)
    requires Lists(ins, c, Without(refs, r)) && NoneFrom(ins, c, r)
    ensures RowsInOrder(RefRows(ins, refs), c) && RowsFed(RefRows(ins, refs), c) == |Without(refs, r)|
    decreases |refs|
  {
    if refs != [] {
      RefRowsCons(refs, ins);
      RowsInOrderCons(RefRows(ins, refs), RefRow(ins, refs[0]), RefRows(ins, refs[1..]), c);
      if refs[0] == r {
        assert Without(refs, r) == Without(refs[1..], r);
        ThinInOrder(refs[1..], r, ins, c);
      } else {
        assert Without(refs, r) == [refs[0]] + Without(refs[1..], r);
        ListsCons(ins, c, refs[0], Without(refs[1..], r));
        ThinInOrder(refs[1..], r, ins, c + 1);
      }
    }
  }

  /** A list that names only `r` is served once when one `r` is left. */
  lemma {:induction false} OnlyInOrder(refs: seq<UtxoRef>, r: UtxoRef, ins: seq<TxInput>, c: nat)
    requires OnlyNames(refs, r)
    requires c < |ins| && Key(ins[c]) == r && NoneFrom(ins, c + 1, r)
    ensures RowsInOrder(RefRows(ins, refs), c) && RowsFed(RefRows(ins, refs), c) == 1
  {
    assert refs[0] == r && Without(refs[1..], r) == [];
    hide RowsInOrder, RowsFed, RefRows, Without;
    RefRowsCons(refs, ins);
    RowsInOrderCons(RefRows(ins, refs), RefRow(ins, r), RefRows(ins, refs[1..]), c);
    ThinInOrder(refs[1..], r, ins, c + 1);
  }

  /** What a list feeds when `thin` says whether `r` is to be left out. */
  function Share(refs: seq<UtxoRef>, thin: bool, r: UtxoRef): seq<UtxoRef> {
    if thin then Thin(refs, r) else refs
  }

  /** A list is served in order by its share of the feed, provided that no `r` follows where
      `r` is left out. */
  lemma {:induction false} ShareInOrder(refs: seq<UtxoRef>, thin: bool, r: UtxoRef, ins: seq<TxInput>, c: nat)
    requires refs != []
    requires Lists(ins, c, Share(refs, thin, r))
    requires thin && r in refs ==> NoneFrom(ins, c + |Share(refs, thin, r)|, r)
    ensures RowsInOrder(RefRows(ins, refs), c) && RowsFed(RefRows(ins, refs), c) == |Share(refs, thin, r)| >= 1
  {
    if !thin || r !in refs {
      RefsInOrder(refs, ins, c);
    } else if OnlyNames(refs, r) {
      OnlyInOrder(refs, r, ins, c);
    } else {
      assert forall i | c <= i < c + |Without(refs, r)| :: Key(ins[i]) in Without(refs, r);
      ThinInOrder(refs, r, ins, c);
    }
  }

  lemma {:induction false} NoneFromTail(ins: seq<TxInput>, d: nat, r: UtxoRef, tail: seq<TxInput>)
    requires d <= |ins| && ins[d..] == tail
    requires forall x | x in tail :: Key(x) != r
    ensures NoneFrom(ins, d, r)
  {
    assert forall i | d <= i < |ins| :: ins[i] == tail[i - d];
  }

  /** No `r` follows the share of a list that was thinned. */
  lemma {:induction false} NoneAfterShare(references: seq<Expression>, r: UtxoRef, ins: seq<TxInput>, c: nat)
    requires references != [] && CanThin(references, 0, r) && r in RefsOf(references[0])
    requires c <= |ins| && ins[c..] == ReferenceFeed(references, 0, r)
    ensures NoneFrom(ins, c + |OwnReferences(references[0], 0, r)|, r)
  {
    var rest, own := references[1..], OwnReferences(references[0], 0, r);
    var tail := ReferenceFeed(rest, 0, r);
    forall j | 0 <= j < |rest| ensures !OnlyNames(RefsOf(rest[j]), r) {
      assert rest[j] == references[j + 1];
    }
    FeedLacks(rest, r);
    FeedDrop(ins, c, own, tail);
    hide ReferenceFeed, OwnReferences, CanThin, NoneFrom;
    NoneFromTail(ins, c + |own|, r, tail);
  }

  lemma {:induction false} ReferenceInOrder(references: seq<Expression>, k: nat, r: UtxoRef, ins: seq<TxInput>, c: nat)
    requires references != [] && NoEmptyList(references) && CanThin(references, k, r)
    requires c <= |ins| && ins[c..] == ReferenceFeed(references, k, r)
    ensures InOrder(ReferenceDemand(references[0], ins), c)
    ensures Fed(ReferenceDemand(references[0], ins), c) == |OwnReferences(references[0], k, r)|
  {
    match ConstUtxoRefs(references[0]) {
      case Some(refs) =>
        ListsFeed(Share(refs, k == 0, r), ReferenceFeed(references[1..], if k == 0 then 0 else k - 1, r), ins, c);
        if k == 0 && r in refs { NoneAfterShare(references, r, ins, c); }
        ShareInOrder(refs, k == 0, r, ins, c);
      case None =>
        InOrderOne(ReferenceRow(references[0], ins), true, c);
    }
  }

  lemma {:induction false} ReferenceDemandsCons(references: seq<Expression>, ins: seq<TxInput>)
    requires references != []
    ensures ReferenceDemands(references, ins) ==
      [ReferenceDemand(references[0], ins)] + ReferenceDemands(references[1..], ins)
  {
  }

  lemma {:induction false} CanThinTail(references: seq<Expression>, k: nat, r: UtxoRef)
    requires references != [] && NoEmptyList(references) && CanThin(references, k, r)
    ensures NoEmptyList(references[1..]) && CanThin(references[1..], if k == 0 then 0 else k - 1, r)
  {
    assert forall j | 0 <= j < |references[1..]| :: references[1..][j] == references[j + 1];
  }

  lemma {:induction false} ReferencesStep(references: seq<Expression>, ins: seq<TxInput>, c: nat, fed: nat)
    requires references != []
    requires InOrder(ReferenceDemand(references[0], ins), c) && Fed(ReferenceDemand(references[0], ins), c) == fed
    requires AllInOrder(ReferenceDemands(references[1..], ins), c + fed)
    ensures AllInOrder(ReferenceDemands(references, ins), c)
  {
    ReferenceDemandsCons(references, ins);
    ConsInOrder(ReferenceDemands(references, ins), ReferenceDemand(references[0], ins),
                ReferenceDemands(references[1..], ins), c, fed);
  }

  lemma {:induction false} ReferencesTail(references: seq<Expression>, k: nat, r: UtxoRef, ins: seq<TxInput>, c: nat)
    requires references != [] && NoEmptyList(references) && CanThin(references, k, r)
    requires c <= |ins| && ins[c..] == ReferenceFeed(references, k, r)
    ensures NoEmptyList(references[1..]) && CanThin(references[1..], if k == 0 then 0 else k - 1, r)
    ensures c + |OwnReferences(references[0], k, r)| <= |ins|
    ensures ins[c + |OwnReferences(references[0], k, r)|..]
      == ReferenceFeed(references[1..], if k == 0 then 0 else k - 1, r)
  {
    CanThinTail(references, k, r);
    FeedDrop(ins, c, OwnReferences(references[0], k, r),
             ReferenceFeed(references[1..], if k == 0 then 0 else k - 1, r));
  }

  lemma {:induction false} NoReferencesInOrder(references: seq<Expression>, ins: seq<TxInput>, c: nat)
    requires references == []
    ensures AllInOrder(ReferenceDemands(references, ins), c)
  {}

  lemma {:induction false} ReferencesInOrder(ins: seq<TxInput>, c: nat, references: seq<Expression>, k: nat, r: UtxoRef)
    requires NoEmptyList(references) && CanThin(references, k, r)
    requires c <= |ins| && ins[c..] == ReferenceFeed(references, k, r)
    ensures AllInOrder(ReferenceDemands(references, ins), c)
    decreases |references|
  {
    hide *;
    if references == [] {
      NoReferencesInOrder(references, ins, c);
    } else {
      ReferencesTail(references, k, r, ins, c);
      ReferencesInOrder(ins, c + |OwnReferences(references[0], k, r)|, references[1..], if k == 0 then 0 else k - 1, r);
      ReferenceInOrder(references, k, r, ins, c);
      ReferencesStep(references, ins, c, |OwnReferences(references[0], k, r)|);
    }
  }

  lemma {:induction false} ReferenceWitness(references: seq<Expression>, k: nat, r: UtxoRef)
    requires NoEmptyList(references) && CanThin(references, k, r)
    ensures Assign(ReferenceDemands(references, ReferenceFeed(references, k, r)), {}).Some?
  {
    ReferencesInOrder(ReferenceFeed(references, k, r), 0, references, k, r);
    AssignInOrder(ReferenceDemands(references, ReferenceFeed(references, k, r)), {}, 0);
  }

  // ----- the witness as a whole

  datatype Choice = Choice(
    avoidOutput: Option<Base.Bytes>, avoidMint: Option<Base.Bytes>, avoidBurn: Option<Base.Bytes>, k: nat, r: UtxoRef)

  function WitnessTx(tx: Tx, ch: Choice): CardanoTx {
    CardanoTx([], InputFeed(tx.inputs), OutputFeed(tx.outputs, ch.avoidOutput),
              MintsAndBurns(tx, ch.avoidMint, ch.avoidBurn),
              ReferenceFeed(tx.references, ch.k, ch.r), [], [], [], None, None)
  }

  /** What a TIR must look like for any transaction to match it. */
  predicate Matchable(tx: Tx) {
    NoStarvingQuery(tx.inputs) && NoEmptyList(tx.references)
  }

  lemma {:induction false} WitnessAccepted(tx: Tx, ch: Choice)
    requires Matchable(tx)
    requires OnlyOptionalPins(tx.outputs, ch.avoidOutput) && CanThin(tx.references, ch.k, ch.r)
    ensures Accepts(tx, WitnessTx(tx, ch), map[])
  {
    InputWitness(tx.inputs);
    OutputWitness(tx.outputs, ch.avoidOutput);
    MintWitness(tx, ch.avoidMint, ch.avoidBurn);
    ReferenceWitness(tx.references, ch.k, ch.r);
  }

  /** Keep everything. */
  function FullChoice(tx: Tx): Choice {
    Choice(None, None, None, |tx.references|, Key(STRAY))
  }

  /** An open `many` query leaves nothing for the references behind it. */
  lemma {:induction false} StarvedNeverMatches(inputs: seq<Input>, ins: seq<TxInput>, resolved: ResolvedInputs)
    requires Assign(InputDemands(inputs, ins, resolved), {}).Some?
    ensures NoStarvingQuery(inputs)
  {
    var slots := Assign(InputDemands(inputs, ins, resolved), {}).value;
    InputsSound(inputs, ins, resolved, slots);
    forall j, k | 0 <= j < k < |inputs| && OpenQuery(inputs[j].utxos, true) ensures RefsOf(inputs[k].utxos) == [] {
      LaterListIsEmpty(inputs, ins, resolved, slots, j, k);
    }
    forall j | 0 <= j < |inputs| && OpenQuery(inputs[j].utxos, true) ensures !HasRefs(inputs[j + 1..]) {
      var tail := inputs[j + 1..];
      assert forall k | 0 <= k < |tail| :: tail[k] == inputs[j + 1 + k];
    }
  }

  /** After a query that takes everything there is nothing left for a reference list. */
  lemma {:induction false} LaterListIsEmpty(
      inputs: seq<Input>, ins: seq<TxInput>, resolved: ResolvedInputs, slots: seq<seq<nat>>, j: nat, k: nat)
    requires |slots| == |inputs| && j < k < |inputs| && OpenQuery(inputs[j].utxos, true)
    requires InputSlotOk(inputs[j].utxos, slots[j], Before(slots, j), ins, resolved)
    requires InputSlotOk(inputs[k].utxos, slots[k], Before(slots, k), ins, resolved)
    ensures RefsOf(inputs[k].utxos) == []
  {
    var row := QueryRow(QueryOf(inputs[j].utxos).value, ins, resolved);
    assert RefsOf(inputs[k].utxos) != [] ==> slots[k] != [] && slots[k][0] in row;
    BeforeStep(slots, j);
    BeforeGrows(slots, j + 1, k);
  }

  lemma {:induction false} BeforeGrows(slots: seq<seq<nat>>, j: nat, k: nat)
    requires j <= k <= |slots|
    ensures Before(slots, j) <= Before(slots, k)
  {}

  lemma {:induction false} EmptyListNeverMatches(references: seq<Expression>, ins: seq<TxInput>)
    requires Assign(ReferenceDemands(references, ins), {}).Some?
    ensures NoEmptyList(references)
  {
    var slots := Assign(ReferenceDemands(references, ins), {}).value;
    ReferencesSound(references, ins, slots);
    forall j | 0 <= j < |references| ensures ConstUtxoRefs(references[j]) != Some([]) {
      assert ReferenceSlotOk(references[j], slots[j], Before(slots, j), ins);
    }
  }

  /** Some transaction matches a TIR if and only if no open `many` query precedes constant
      references and no reference list is empty. */
  lemma {:induction false} MatchableExact(tx: Tx)
    ensures (exists ctx, resolved :: Accepts(tx, ctx, resolved)) <==> Matchable(tx)
  {
    if ctx, resolved :| Accepts(tx, ctx, resolved) {
      StarvedNeverMatches(tx.inputs, ctx.inputs, resolved);
      EmptyListNeverMatches(tx.references, ctx.references);
    }
    if Matchable(tx) {
      WitnessAccepted(tx, FullChoice(tx));
    }
  }
}
