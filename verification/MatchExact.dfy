/** The matcher returns an assignment exactly when it is sound. */
module MatchExact {
  // Soundness leaves no choice, and a transaction is rejected only where nothing is sound.

  import opened Base
  import opened Tir
  import opened Expr
  import opened Payload
  import opened Greedy
  import opened Matching
  import opened MatchLaws
  import Ordered

  lemma {:induction false} LowestFreeIsLeast(i: nat, row: set<nat>, before: set<nat>)
    requires LowestFree(i, row, before)
    ensures row - before != {} && Least(row - before) == i
  {
    assert i in row - before;
    LeastIsLowestFree(row, before);
  }

  /** Serving rows in turn leaves no choice. */
  lemma {:induction false} TurnsDeterminePicks(
      rows: seq<set<nat>>, slot: seq<nat>, before: set<nat>, counts: seq<nat>, t: nat)
    requires ServedInTurn(rows, slot, before, counts) && t <= |rows|
    ensures Picks(rows[t..], before + Elems(slot[..counts[t]])) == slot[counts[t]..]
    decreases |rows| - t
  {
    if t < |rows| {
      var c, now := counts[t], before + Elems(slot[..counts[t]]);
      assert ServedOrPassed(rows[t], slot, before, c, counts[t + 1]);
      TurnsDeterminePicks(rows, slot, before, counts, t + 1);
      assert rows[t..][1..] == rows[t + 1..];
      if counts[t + 1] == c {
        assert rows[t] - now == {};
      } else {
        LowestFreeIsLeast(slot[c], rows[t], now);
        assert slot[..c + 1] == slot[..c] + [slot[c]];
        assert now + {slot[c]} == before + Elems(slot[..c + 1]);
        assert slot[c..] == [slot[c]] + slot[c + 1..];
      }
    }
  }

  lemma {:induction false} TurnsAreServed(rows: seq<set<nat>>, slot: seq<nat>, before: set<nat>, counts: seq<nat>)
    requires ServedInTurn(rows, slot, before, counts)
    ensures Picks(rows, before) == slot
  {
    TurnsDeterminePicks(rows, slot, before, counts, 0);
    assert rows[0..] == rows && slot[..0] == [] && slot[0..] == slot;
    assert before + Elems(slot[..0]) == before;
  }

  /** Where every row is served, in order, by its lowest free entry. */
  lemma {:induction false} AllInTurn(rows: seq<set<nat>>, slot: seq<nat>, before: set<nat>)
    requires |slot| == |rows|
    requires forall k | 0 <= k < |slot| :: LowestFree(slot[k], rows[k], before + Elems(slot[..k]))
    ensures Picks(rows, before) == slot
  {
    var counts := seq(|rows| + 1, t requires 0 <= t <= |rows| => t as nat);
    TurnsAreServed(rows, slot, before, counts);
  }

  lemma {:induction false} OneDetermined(row: set<nat>, required: bool, before: set<nat>, slot: seq<nat>)
    requires AtMostOne(slot, row, before) && (slot == [] ==> !required)
    ensures Serve(One(row, required), before) == Some(slot)
  {
    ServeOne(row, required, before);
    if slot != [] {
      LowestFreeIsLeast(slot[0], row, before);
      assert slot == [slot[0]];
    }
  }

  lemma {:induction false} EveryDetermined(row: set<nat>, before: set<nat>, slot: seq<nat>)
    requires Increasing(slot) && Elems(slot) == row - before
    ensures Ascending(row - before) == slot
  {
    var all := Ascending(row - before);
    AscendingSound(row - before);
    var less := (x: nat, y: nat) => x < y;
    assert Ordered.Strictly(less, slot) && Ordered.Strictly(less, all);
    forall x ensures x in slot <==> x in all {
      assert x in Elems(slot) <==> x in Elems(all);
    }
    Ordered.Unique(less, slot, all);
  }

  lemma {:induction false} InputSlotDetermined(
      utxos: Expression, slot: seq<nat>, before: set<nat>, ins: seq<TxInput>, resolved: ResolvedInputs)
    requires InputSlotOk(utxos, slot, before, ins, resolved)
    ensures Serve(InputDemand(utxos, ins, resolved), before) == Some(slot)
  {
    match ConstUtxoRefs(utxos)
    case Some(refs) => AllInTurn(RefRows(ins, refs), slot, before);
    case None =>
      match ExpectInputQuery(utxos)
      case Some(q) =>
        var row := QueryRow(q, ins, resolved);
        if q.many { EveryDetermined(row, before, slot); } else { OneDetermined(row, false, before, slot); }
      case None =>
  }

  lemma {:induction false} ReferenceSlotDetermined(e: Expression, slot: seq<nat>, before: set<nat>, ins: seq<TxInput>)
    requires ReferenceSlotOk(e, slot, before, ins)
    ensures Serve(ReferenceDemand(e, ins), before) == Some(slot)
  {
    match ConstUtxoRefs(e)
    case Some(refs) =>
      var counts :| ServedInTurn(RefRows(ins, refs), slot, before, counts);
      TurnsAreServed(RefRows(ins, refs), slot, before, counts);
    case None => OneDetermined(ReferenceRow(e, ins), true, before, slot);
  }

  /** Slots that are each what their demand gets from what is left make up the run. */
  lemma {:induction false} SlotsDetermineRun(ds: seq<Demand>, taken: set<nat>, slots: seq<seq<nat>>)
    requires |slots| == |ds|
    requires forall j | 0 <= j < |ds| :: Serve(ds[j], taken + Before(slots, j)) == Some(slots[j])
    ensures Assign(ds, taken) == Some(slots)
  {
    if ds == [] {
      assert slots == [];
    } else {
      var rest, next := slots[1..], taken + Elems(slots[0]);
      assert slots == [slots[0]] + rest;
      assert taken + Before(slots, 0) == taken;
      forall j | 0 <= j < |rest| ensures Serve(ds[1..][j], next + Before(rest, j)) == Some(rest[j]) {
        BeforeCons(slots[0], rest, j);
        assert taken + Before(slots, j + 1) == next + Before(rest, j);
      }
      SlotsDetermineRun(ds[1..], next, rest);
    }
  }

  lemma {:induction false} InputsDetermined(
      inputs: seq<Input>, ins: seq<TxInput>, resolved: ResolvedInputs, slots: seq<seq<nat>>)
    requires |slots| == |inputs|
    requires forall j: nat | j < |inputs| :: InputSlotOk(inputs[j].utxos, slots[j], Before(slots, j), ins, resolved)
    ensures Assign(InputDemands(inputs, ins, resolved), {}) == Some(slots)
  {
    forall j: nat | j < |inputs|
      ensures Serve(InputDemand(inputs[j].utxos, ins, resolved), {} + Before(slots, j)) == Some(slots[j])
    {
      InputSlotDetermined(inputs[j].utxos, slots[j], Before(slots, j), ins, resolved);
      assert {} + Before(slots, j) == Before(slots, j);
    }
    SlotsDetermineRun(InputDemands(inputs, ins, resolved), {}, slots);
  }

  lemma {:induction false} OutputsDetermined(outputs: seq<Output>, outs: seq<TxOutput>, slots: seq<seq<nat>>)
    requires |slots| == |outputs|
    requires forall j: nat | j < |outputs| :: OutputSlotOk(outputs[j], slots[j], Before(slots, j), outs)
    ensures Assign(OutputDemands(outputs, outs), {}) == Some(slots)
  {
    forall j: nat | j < |outputs|
      ensures Serve(OutputDemand(outputs[j], outs), {} + Before(slots, j)) == Some(slots[j])
    {
      OneDetermined(OutputRow(outputs[j], outs), !outputs[j].optional, Before(slots, j), slots[j]);
      assert {} + Before(slots, j) == Before(slots, j);
    }
    SlotsDetermineRun(OutputDemands(outputs, outs), {}, slots);
  }

  lemma {:induction false} MintsDetermined(mints: seq<Mint>, burn: bool, entries: seq<MintEntry>, slots: seq<seq<nat>>)
    requires |slots| == |mints|
    requires forall j: nat | j < |mints| :: MintSlotOk(mints[j], burn, slots[j], Before(slots, j), entries)
    ensures Assign(MintDemands(mints, burn, entries), {}) == Some(slots)
  {
    forall j: nat | j < |mints|
      ensures Serve(MintDemands(mints, burn, entries)[j], {} + Before(slots, j)) == Some(slots[j])
    {
      OneDetermined(MintRow(mints[j], burn, entries), true, Before(slots, j), slots[j]);
      assert {} + Before(slots, j) == Before(slots, j);
    }
    SlotsDetermineRun(MintDemands(mints, burn, entries), {}, slots);
  }

  lemma {:induction false} ReferencesDetermined(references: seq<Expression>, ins: seq<TxInput>, slots: seq<seq<nat>>)
    requires |slots| == |references|
    requires forall j: nat | j < |references| :: ReferenceSlotOk(references[j], slots[j], Before(slots, j), ins)
    ensures Assign(ReferenceDemands(references, ins), {}) == Some(slots)
  {
    forall j: nat | j < |references|
      ensures Serve(ReferenceDemand(references[j], ins), {} + Before(slots, j)) == Some(slots[j])
    {
      ReferenceSlotDetermined(references[j], slots[j], Before(slots, j), ins);
      assert {} + Before(slots, j) == Before(slots, j);
    }
    SlotsDetermineRun(ReferenceDemands(references, ins), {}, slots);
  }

  lemma {:induction false} CollateralStaysEmpty(m: MatchAssignment, collateral: nat)
    requires |m.collateralMap| == collateral && forall j | 0 <= j < collateral :: m.collateralMap[j] == []
    ensures Assemble(Some(m.inputMap), Some(m.outputMap), Some(m.mintMap), Some(m.burnMap), Some(m.referenceMap),
                     collateral, m.profileName, m.txName) == Some(m)
  {
    var empty: seq<seq<nat>> := seq(collateral, _ => []);
    assert m.collateralMap == empty;
  }

  /** A sound assignment is the one the matcher returns. */
  lemma {:induction false} SoundIsReturned(tx: Tx, ctx: CardanoTx, resolved: ResolvedInputs, m: MatchAssignment)
    requires Sound(tx, ctx, resolved, m)
    ensures MatchSpec(tx, ctx, resolved, m.profileName, m.txName) == Some(m)
  {
    hide Assemble, Assign, InputSlotOk, OutputSlotOk, MintSlotOk, ReferenceSlotOk, Before, Disjoint, InRange;
    InputsDetermined(tx.inputs, ctx.inputs, resolved, m.inputMap);
    OutputsDetermined(tx.outputs, ctx.outputs, m.outputMap);
    MintsDetermined(tx.mints, false, ctx.mints, m.mintMap);
    MintsDetermined(tx.burns, true, ctx.mints, m.burnMap);
    ReferencesDetermined(tx.references, ctx.references, m.referenceMap);
    CollateralStaysEmpty(m, |tx.collateral|);
  }

  /** The matcher's whole contract: it returns `m` if and only if `m` is sound, and nothing if
      and only if nothing is sound. */
  lemma {:induction false} MatchExactly(
      tx: Tx, ctx: CardanoTx, resolved: ResolvedInputs, profileName: string, txName: string)
    ensures forall m: MatchAssignment ::
      MatchSpec(tx, ctx, resolved, profileName, txName) == Some(m) <==>
        m.profileName == profileName && m.txName == txName && Sound(tx, ctx, resolved, m)
    ensures MatchSpec(tx, ctx, resolved, profileName, txName).None? <==>
      forall m: MatchAssignment | m.profileName == profileName && m.txName == txName :: !Sound(tx, ctx, resolved, m)
  {
    forall m: MatchAssignment
      ensures MatchSpec(tx, ctx, resolved, profileName, txName) == Some(m) <==>
        m.profileName == profileName && m.txName == txName && Sound(tx, ctx, resolved, m)
    {
      if MatchSpec(tx, ctx, resolved, profileName, txName) == Some(m) {
        MatchIsSound(tx, ctx, resolved, profileName, txName);
      } else if m.profileName == profileName && m.txName == txName && Sound(tx, ctx, resolved, m) {
        SoundIsReturned(tx, ctx, resolved, m);
      }
    }
  }
}
