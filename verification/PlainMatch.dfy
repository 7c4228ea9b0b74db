/** What the matcher takes for a template, in terms of the template and of the transaction. */
module PlainMatch {
  // No reader and no test of the matcher is named in these statements.

  import opened Base
  import opened Tir
  import opened Expr
  import opened Payload
  import opened Readers
  import opened Greedy
  import opened Matching
  import opened MatchLaws

  // ----- the transaction

  /** The input names that output; its index counts modulo 2^32. */
  ghost predicate Spends(i: TxInput, r: UtxoRef) {
    i.hash == r.txid && i.index % 0x1_0000_0000 == r.index
  }

  lemma {:induction false} KeyIsSpent(i: TxInput, r: UtxoRef)
    ensures Key(i) == r <==> Spends(i, r)
  {}

  /** The output that the input spends was delivered, and it is `o`. */
  ghost predicate ResolvesTo(resolved: ResolvedInputs, i: TxInput, o: TxOutput) {
    exists r :: r in resolved && Spends(i, r) && resolved[r] == Decoded(o)
  }

  lemma {:induction false} ResolvedIs(resolved: ResolvedInputs, i: TxInput, o: TxOutput)
    ensures ResolvedOutput(resolved, i) == Some(o) <==> ResolvesTo(resolved, i, o)
  {
    KeyIsSpent(i, Key(i));
    if r :| r in resolved && Spends(i, r) && resolved[r] == Decoded(o) { KeyIsSpent(i, r); }
  }

  ghost predicate ComesFrom(resolved: ResolvedInputs, i: TxInput, a: Base.Bytes) {
    exists o :: ResolvesTo(resolved, i, o) && o.address == Some(a)
  }

  lemma {:induction false} AddressIs(resolved: ResolvedInputs, i: TxInput, a: Base.Bytes)
    ensures ResolvedAddress(resolved, i) == Some(a) <==> ComesFrom(resolved, i, a)
  {
    forall o ensures ResolvedOutput(resolved, i) == Some(o) <==> ResolvesTo(resolved, i, o) {
      ResolvedIs(resolved, i, o);
    }
  }

  /** Some of the policy is minted, or burnt. */
  ghost predicate Moves(e: MintEntry, burn: bool) {
    exists k :: 0 <= k < |e.assets| && if burn then e.assets[k].coin < 0 else e.assets[k].coin > 0
  }

  lemma {:induction false} MovesIsSign(e: MintEntry)
    ensures AnyPositive(e) <==> Moves(e, false)
    ensures AnyNegative(e) <==> Moves(e, true)
  {
    if AnyPositive(e) { var a :| a in e.assets && a.coin > 0; }
    if AnyNegative(e) { var a :| a in e.assets && a.coin < 0; }
  }

  // ----- what an element takes

  ghost predicate QueryTakes(q: InputQuery, resolved: ResolvedInputs, i: TxInput) {
    forall a | Wraps(q.address, Address(a)) :: ComesFrom(resolved, i, a)
  }

  lemma {:induction false} QueryTest(q: InputQuery, resolved: ResolvedInputs, i: TxInput)
    ensures QueryAccepts(q, resolved, i) <==> QueryTakes(q, resolved, i)
  {
    forall a
      ensures ConstAddress(q.address) == Some(a) <==> Wraps(q.address, Address(a))
      ensures ResolvedAddress(resolved, i) == Some(a) <==> ComesFrom(resolved, i, a)
    {
      AddressRead(q.address, a);
      AddressIs(resolved, i, a);
    }
    hide Wraps, ComesFrom, ConstAddress, ResolvedAddress;
  }

  ghost predicate OutputTakes(o: Output, out: TxOutput) {
    forall a | Wraps(o.address, Address(a)) :: out.address == Some(a)
  }

  lemma {:induction false} OutputTest(o: Output, out: TxOutput)
    ensures OutputAccepts(o, out) <==> OutputTakes(o, out)
  {
    forall a ensures ConstAddress(o.address) == Some(a) <==> Wraps(o.address, Address(a)) {
      AddressRead(o.address, a);
    }
    hide Wraps, ConstAddress;
  }

  /** A mint that names policies takes an entry of one of them, and any other mint any entry. */
  ghost predicate MintTakes(m: Mint, burn: bool, e: MintEntry) {
    ((forall p :: !NamesPolicy(m.amount, p)) || NamesPolicy(m.amount, e.policy)) && Moves(e, burn)
  }

  lemma {:induction false} MintTest(m: Mint, burn: bool, e: MintEntry)
    ensures MintAccepts(m, burn, e) <==> MintTakes(m, burn, e)
  {
    MovesIsSign(e);
    var policies := ConstPoliciesIn(m.amount);
    forall p ensures p in policies <==> NamesPolicy(m.amount, p) { PoliciesRead(m.amount, p); }
    hide NamesPolicy, Moves, AnyPositive, AnyNegative;
    if policies != [] { assert policies[0] in policies; }
  }

  ghost predicate ReferenceTakes(e: Expression, i: TxInput) {
    forall refs | Wraps(e, UtxoRefs(refs)) :: exists r :: r in refs && Spends(i, r)
  }

  lemma {:induction false} ReferenceTest(e: Expression, i: TxInput)
    ensures ReferenceAccepts(e, i) <==> ReferenceTakes(e, i)
  {
    forall refs ensures ConstUtxoRefs(e) == Some(refs) <==> Wraps(e, UtxoRefs(refs)) { RefsRead(e, refs); }
    forall r ensures Key(i) == r <==> Spends(i, r) { KeyIsSpent(i, r); }
    hide Wraps, Spends, Key, ConstUtxoRefs;
    assert Key(i) == Key(i);
  }

  // ----- what a match takes

  ghost predicate InputTaken(
      e: Expression, slot: seq<nat>, before: set<nat>, ins: seq<TxInput>, resolved: ResolvedInputs)
  {
    && (forall refs | Wraps(e, UtxoRefs(refs)) ::
          |slot| == |refs| && forall k: nat | k < |slot| :: slot[k] < |ins| && Spends(ins[slot[k]], refs[k]))
    && (forall q | Asks(e, q) ::
          && (forall k: nat | k < |slot| ::
            slot[k] < |ins| && slot[k] !in before && QueryTakes(q, resolved, ins[slot[k]]))
          && (!q.many ==> |slot| <= 1)
          && (forall i: nat | i < |ins| && QueryTakes(q, resolved, ins[i]) && (q.many || slot == [] || i < slot[0]) ::
                i in before || i in slot))
    && (slot == [] || (exists refs :: Wraps(e, UtxoRefs(refs))) || exists q :: Asks(e, q))
  }

  ghost predicate OutputTaken(o: Output, slot: seq<nat>, before: set<nat>, outs: seq<TxOutput>) {
    && |slot| <= 1 && (slot == [] ==> o.optional)
    && (forall k: nat | k < |slot| :: slot[k] < |outs| && slot[k] !in before && OutputTakes(o, outs[slot[k]]))
    && (forall i: nat | i < |outs| && OutputTakes(o, outs[i]) && (slot == [] || i < slot[0]) :: i in before)
  }

  ghost predicate MintTaken(m: Mint, burn: bool, slot: seq<nat>, before: set<nat>, entries: seq<MintEntry>) {
    && |slot| == 1 && slot[0] < |entries| && slot[0] !in before && MintTakes(m, burn, entries[slot[0]])
    && (forall i: nat | i < slot[0] && MintTakes(m, burn, entries[i]) :: i in before)
  }

  ghost predicate ReferenceTaken(e: Expression, slot: seq<nat>, before: set<nat>, ins: seq<TxInput>) {
    && slot != []
    && (forall k: nat | k < |slot| :: slot[k] < |ins| && slot[k] !in before && ReferenceTakes(e, ins[slot[k]]))
    && (forall refs | Wraps(e, UtxoRefs(refs)) ::
          forall r | r in refs :: RefUsedUp(r, slot, before, ins))
    && ((forall refs :: !Wraps(e, UtxoRefs(refs))) ==> |slot| == 1 && forall i: nat | i < slot[0] :: i in before)
  }

  /** A listed reference is served, or everything there is of it is taken. */
  ghost predicate RefUsedUp(r: UtxoRef, slot: seq<nat>, before: set<nat>, ins: seq<TxInput>) {
    || (exists k: nat :: k < |slot| && slot[k] < |ins| && Spends(ins[slot[k]], r))
    || forall i: nat | i < |ins| && Spends(ins[i], r) :: i in before
  }

  lemma {:induction false} RefsServed(refs: seq<UtxoRef>, slot: seq<nat>, before: set<nat>, ins: seq<TxInput>)
    requires |slot| == |refs|
    requires forall k | 0 <= k < |slot| :: LowestFree(slot[k], RefRow(ins, refs[k]), before + Elems(slot[..k]))
    ensures forall k: nat | k < |slot| :: slot[k] < |ins| && Spends(ins[slot[k]], refs[k])
  {
    forall k: nat | k < |slot| ensures slot[k] < |ins| && Spends(ins[slot[k]], refs[k]) {
      assert slot[k] in RefRow(ins, refs[k]);
      KeyIsSpent(ins[slot[k]], refs[k]);
    }
  }

  lemma {:induction false} QueryServed(
      q: InputQuery, slot: seq<nat>, before: set<nat>, ins: seq<TxInput>, resolved: ResolvedInputs)
    requires var row := QueryRow(q, ins, resolved);
      if q.many then Increasing(slot) && Elems(slot) == row - before else AtMostOne(slot, row, before)
    ensures forall k: nat | k < |slot| :: slot[k] < |ins| && slot[k] !in before && QueryTakes(q, resolved, ins[slot[k]])
    ensures !q.many ==> |slot| <= 1
    ensures forall i: nat | i < |ins| && QueryTakes(q, resolved, ins[i]) && (q.many || slot == [] || i < slot[0]) ::
      i in before || i in slot
  {
    forall i: nat | i < |ins| ensures i in QueryRow(q, ins, resolved) <==> QueryTakes(q, resolved, ins[i]) {
      QueryTest(q, resolved, ins[i]);
    }
    var row := QueryRow(q, ins, resolved);
    assert forall i | i in row :: i < |ins|;
    hide QueryTakes, QueryAccepts, QueryRow;
    forall k: nat | k < |slot|
      ensures slot[k] < |ins| && slot[k] !in before && QueryTakes(q, resolved, ins[slot[k]])
    {
      assert slot[k] in Elems(slot) && slot[k] in row;
    }
    forall i: nat | i < |ins| && QueryTakes(q, resolved, ins[i]) && (q.many || slot == [] || i < slot[0])
      ensures i in before || i in slot
    {
      assert i in row;
      if q.many && i !in before { assert i in Elems(slot); }
    }
  }

  lemma {:induction false} InputIsTaken(
      e: Expression, slot: seq<nat>, before: set<nat>, ins: seq<TxInput>, resolved: ResolvedInputs)
    requires InputSlotOk(e, slot, before, ins, resolved)
    ensures InputTaken(e, slot, before, ins, resolved)
  {
    forall refs ensures ConstUtxoRefs(e) == Some(refs) <==> Wraps(e, UtxoRefs(refs)) { RefsRead(e, refs); }
    forall q ensures ExpectInputQuery(e) == Some(q) <==> Asks(e, q) { QueryRead(e, q); }
    RefsOrQuery(e);
    hide Wraps, Asks, QueryTakes, Spends, ConstUtxoRefs, ExpectInputQuery, QueryRow, RefRow, LowestFree, AtMostOne;
    match ConstUtxoRefs(e) {
      case Some(refs) =>
        RefsServed(refs, slot, before, ins);
      case None =>
        if ExpectInputQuery(e).Some? { QueryServed(ExpectInputQuery(e).value, slot, before, ins, resolved); }
    }
  }

  lemma {:induction false} OutputIsTaken(o: Output, slot: seq<nat>, before: set<nat>, outs: seq<TxOutput>)
    requires OutputSlotOk(o, slot, before, outs)
    ensures OutputTaken(o, slot, before, outs)
  {
    forall i: nat | i < |outs| ensures i in OutputRow(o, outs) <==> OutputTakes(o, outs[i]) {
      OutputTest(o, outs[i]);
    }
    hide OutputTakes, OutputAccepts;
  }

  lemma {:induction false} MintIsTaken(m: Mint, burn: bool, slot: seq<nat>, before: set<nat>, entries: seq<MintEntry>)
    requires MintSlotOk(m, burn, slot, before, entries)
    ensures MintTaken(m, burn, slot, before, entries)
  {
    forall i: nat | i < |entries| ensures i in MintRow(m, burn, entries) <==> MintTakes(m, burn, entries[i]) {
      MintTest(m, burn, entries[i]);
    }
    hide MintTakes, MintAccepts;
  }

  ghost predicate NamedIn(refs: seq<UtxoRef>, ins: seq<TxInput>, i: nat) {
    i < |ins| && exists r :: r in refs && Spends(ins[i], r)
  }

  lemma {:induction false} ListIsTaken(refs: seq<UtxoRef>, slot: seq<nat>, before: set<nat>, ins: seq<TxInput>)
    requires PartlyServed(RefRows(ins, refs), slot, before)
    requires forall k: nat | k < |slot| :: slot[k] !in before
    ensures slot != []
    ensures forall k: nat | k < |slot| :: NamedIn(refs, ins, slot[k])
    ensures forall r | r in refs :: RefUsedUp(r, slot, before, ins)
  {
    forall k: nat | k < |slot| ensures NamedIn(refs, ins, slot[k]) {
      assert PickOk(RefRows(ins, refs), slot, before, k);
      var t: nat :| t < |refs| && slot[k] in RefRow(ins, refs[t]);
      KeyIsSpent(ins[slot[k]], refs[t]);
      assert refs[t] in refs;
    }
    forall r | r in refs ensures RefUsedUp(r, slot, before, ins) {
      var t: nat :| t < |refs| && refs[t] == r;
      assert ServedOrUsedUp(RefRows(ins, refs)[t], slot, before);
      RefIsUsedUp(r, slot, before, ins);
    }
  }

  lemma {:induction false} RefIsUsedUp(r: UtxoRef, slot: seq<nat>, before: set<nat>, ins: seq<TxInput>)
    requires ServedOrUsedUp(RefRow(ins, r), slot, before)
    ensures RefUsedUp(r, slot, before, ins)
  {
    forall i: nat | i < |ins| ensures i in RefRow(ins, r) <==> Spends(ins[i], r) { KeyIsSpent(ins[i], r); }
    if k: nat :| k < |slot| && slot[k] in RefRow(ins, r) {
      assert slot[k] < |ins|;
    } else {
      hide Spends;
      forall i: nat | i < |ins| && Spends(ins[i], r) ensures i in before {
        assert i in RefRow(ins, r) && i !in Elems(slot);
      }
    }
  }

  lemma {:induction false} ReferenceIsTaken(e: Expression, slot: seq<nat>, before: set<nat>, ins: seq<TxInput>)
    requires ReferenceSlotOk(e, slot, before, ins) && forall k: nat | k < |slot| :: slot[k] !in before
    ensures ReferenceTaken(e, slot, before, ins)
  {
    forall refs ensures ConstUtxoRefs(e) == Some(refs) <==> Wraps(e, UtxoRefs(refs)) { RefsRead(e, refs); }
    hide Wraps, ConstUtxoRefs, PartlyServed, Spends;
    match ConstUtxoRefs(e) {
      case Some(refs) =>
        ListIsTaken(refs, slot, before, ins);
      case None =>
    }
  }

  /** Element by element of the template, what was taken before an element being gone. */
  ghost predicate Takes(tx: Tx, ctx: CardanoTx, resolved: ResolvedInputs, m: MatchAssignment) {
    && |m.inputMap| == |tx.inputs| && |m.outputMap| == |tx.outputs| && |m.mintMap| == |tx.mints|
    && |m.burnMap| == |tx.burns| && |m.referenceMap| == |tx.references|
    && (forall j: nat | j < |tx.inputs| ::
          InputTaken(tx.inputs[j].utxos, m.inputMap[j], Before(m.inputMap, j), ctx.inputs, resolved))
    && (forall j: nat | j < |tx.outputs| ::
          OutputTaken(tx.outputs[j], m.outputMap[j], Before(m.outputMap, j), ctx.outputs))
    && (forall j: nat | j < |tx.mints| ::
          MintTaken(tx.mints[j], false, m.mintMap[j], Before(m.mintMap, j), ctx.mints))
    && (forall j: nat | j < |tx.burns| ::
          MintTaken(tx.burns[j], true, m.burnMap[j], Before(m.burnMap, j), ctx.mints))
    && (forall j: nat | j < |tx.references| ::
          ReferenceTaken(tx.references[j], m.referenceMap[j], Before(m.referenceMap, j), ctx.references))
  }

  /** Everything a match takes is what the template asks for, and nothing that it asks for is
      passed over: lists of references are served by their outputs, pinned queries and outputs
      from their address, mints and burns by a policy they name, each by the first entry that is
      left. */
  lemma {:induction false} MatchTakesWhatIsAsked(tx: Tx, ctx: CardanoTx, resolved: ResolvedInputs, m: MatchAssignment)
    requires MatchSpec(tx, ctx, resolved, m.profileName, m.txName) == Some(m)
    ensures Takes(tx, ctx, resolved, m)
  {
    MatchIsSound(tx, ctx, resolved, m.profileName, m.txName);
    hide MatchSpec, InputSlotOk, OutputSlotOk, MintSlotOk, ReferenceSlotOk;
    hide InputTaken, OutputTaken, MintTaken, ReferenceTaken;
    forall j: nat | j < |tx.inputs|
      ensures InputTaken(tx.inputs[j].utxos, m.inputMap[j], Before(m.inputMap, j), ctx.inputs, resolved)
    {
      InputIsTaken(tx.inputs[j].utxos, m.inputMap[j], Before(m.inputMap, j), ctx.inputs, resolved);
    }
    forall j: nat | j < |tx.outputs|
      ensures OutputTaken(tx.outputs[j], m.outputMap[j], Before(m.outputMap, j), ctx.outputs)
    {
      OutputIsTaken(tx.outputs[j], m.outputMap[j], Before(m.outputMap, j), ctx.outputs);
    }
    forall j: nat | j < |tx.mints|
      ensures MintTaken(tx.mints[j], false, m.mintMap[j], Before(m.mintMap, j), ctx.mints)
    {
      MintIsTaken(tx.mints[j], false, m.mintMap[j], Before(m.mintMap, j), ctx.mints);
    }
    forall j: nat | j < |tx.burns|
      ensures MintTaken(tx.burns[j], true, m.burnMap[j], Before(m.burnMap, j), ctx.mints)
    {
      MintIsTaken(tx.burns[j], true, m.burnMap[j], Before(m.burnMap, j), ctx.mints);
    }
    forall j: nat | j < |tx.references|
      ensures ReferenceTaken(tx.references[j], m.referenceMap[j], Before(m.referenceMap, j), ctx.references)
    {
      NotBefore(m.referenceMap, j);
      ReferenceIsTaken(tx.references[j], m.referenceMap[j], Before(m.referenceMap, j), ctx.references);
    }
  }

  lemma {:induction false} NotBefore(slots: seq<seq<nat>>, j: nat)
    requires Disjoint(slots) && j < |slots|
    ensures forall k: nat | k < |slots[j]| :: slots[j][k] !in Before(slots, j)
  {}
}
