/** What a successful match promises of the transaction's parts. */
module MatchLaws {
  // Every slot holds entries that pass their test, entries are taken lowest first, and nothing is
  // taken twice.

  import opened Base
  import opened Tir
  import opened Expr
  import opened Payload
  import opened Greedy
  import opened Matching

  /** `i` passes the test of `row` and is the lowest free index that does. */
  ghost predicate LowestFree(i: nat, row: set<nat>, before: set<nat>) {
    i in row && i !in before && forall x: nat | x in row && x < i :: x in before
  }

  /** A slot for at most one entry: the lowest free one, or none if none is free. */
  ghost predicate AtMostOne(slot: seq<nat>, row: set<nat>, before: set<nat>) {
    (slot == [] && row <= before) || (|slot| == 1 && LowestFree(slot[0], row, before))
  }

  ghost predicate InputSlotOk(utxos: Expression, slot: seq<nat>, before: set<nat>, ins: seq<TxInput>,
                              resolved: ResolvedInputs) {
    match ConstUtxoRefs(utxos)
    case Some(refs) =>
      |slot| == |refs| &&
      forall k | 0 <= k < |slot| :: LowestFree(slot[k], RefRow(ins, refs[k]), before + Elems(slot[..k]))
    case None =>
      match ExpectInputQuery(utxos)
      case Some(q) =>
        var row := QueryRow(q, ins, resolved);
        if q.many then Increasing(slot) && Elems(slot) == row - before else AtMostOne(slot, row, before)
      case None => slot == []
  }

  ghost predicate OutputSlotOk(o: Output, slot: seq<nat>, before: set<nat>, outs: seq<TxOutput>) {
    AtMostOne(slot, OutputRow(o, outs), before) && (slot == [] ==> o.optional)
  }

  ghost predicate MintSlotOk(m: Mint, burn: bool, slot: seq<nat>, before: set<nat>, entries: seq<MintEntry>) {
    |slot| == 1 &&
    LowestFree(slot[0], MintRow(m, burn, entries), before)
  }

  /** The `k`-th entry of `slot` was the lowest free one of some row when it was picked. */
  ghost predicate PickOk(rows: seq<set<nat>>, slot: seq<nat>, before: set<nat>, k: nat)
    requires k < |slot|
  {
    exists t: nat :: t < |rows| && LowestFree(slot[k], rows[t], before + Elems(slot[..k]))
  }

  ghost predicate ServedOrUsedUp(row: set<nat>, slot: seq<nat>, before: set<nat>) {
    (exists k: nat :: k < |slot| && slot[k] in row) || row <= before + Elems(slot)
  }

  /** The rows in order, `counts[t]` of them served before row `t`: a row takes its lowest free
      entry, and is passed over only where it has none left. */
  ghost predicate ServedInTurn(rows: seq<set<nat>>, slot: seq<nat>, before: set<nat>, counts: seq<nat>) {
    && |counts| == |rows| + 1 && counts[0] == 0 && counts[|rows|] == |slot|
    && (forall t | 0 <= t <= |rows| :: counts[t] <= |slot|)
    && (forall t | 0 <= t < |rows| :: ServedOrPassed(rows[t], slot, before, counts[t], counts[t + 1]))
  }

  ghost predicate ServedOrPassed(row: set<nat>, slot: seq<nat>, before: set<nat>, now: nat, next: nat)
    requires now <= |slot| && next <= |slot|
  {
    if next == now then row <= before + Elems(slot[..now])
    else next == now + 1 && LowestFree(slot[now], row, before + Elems(slot[..now]))
  }

  /** Some rows were served, each by its lowest free entry; a row that was not had none left;
      and if there is an entry per row, they are in row order. */
  ghost predicate PartlyServed(rows: seq<set<nat>>, slot: seq<nat>, before: set<nat>) {
    && 1 <= |slot| <= |rows|
    && (forall k: nat | k < |slot| :: PickOk(rows, slot, before, k))
    && (forall t: nat | t < |rows| :: ServedOrUsedUp(rows[t], slot, before))
    && (|slot| == |rows| ==> forall k: nat | k < |slot| :: slot[k] in rows[k])
    && (exists counts :: ServedInTurn(rows, slot, before, counts))
  }

  ghost predicate ReferenceSlotOk(e: Expression, slot: seq<nat>, before: set<nat>, ins: seq<TxInput>) {
    match ConstUtxoRefs(e)
    case Some(refs) => PartlyServed(RefRows(ins, refs), slot, before)
    case None => |slot| == 1 && LowestFree(slot[0], ReferenceRow(e, ins), before)
  }

  lemma {:induction false} LeastIsLowestFree(row: set<nat>, before: set<nat>)
    requires row - before != {}
    ensures LowestFree(Least(row - before), row, before)
  {
    var i := Least(row - before);
    assert forall x: nat | x in row && x < i :: x !in before ==> x in row - before;
  }

  lemma {:induction false} OneSlotOk(row: set<nat>, required: bool, before: set<nat>, slot: seq<nat>)
    requires Serve(One(row, required), before) == Some(slot)
    ensures AtMostOne(slot, row, before) && (slot == [] ==> !required)
  {
    ServeOne(row, required, before);
    if !(row <= before) { LeastIsLowestFree(row, before); }
  }

  lemma {:induction false} InputSlotSound(
      utxos: Expression, slot: seq<nat>, before: set<nat>, ins: seq<TxInput>, resolved: ResolvedInputs)
    requires Serve(InputDemand(utxos, ins, resolved), before) == Some(slot)
    ensures InputSlotOk(utxos, slot, before, ins, resolved)
  {
    match ConstUtxoRefs(utxos)
    case Some(refs) =>
      RefsServedInOrder(RefRows(ins, refs), before);
    case None =>
      match ExpectInputQuery(utxos)
      case Some(q) =>
        var row := QueryRow(q, ins, resolved);
        AscendingSound(row - before);
        if !q.many { OneSlotOk(row, false, before, slot); }
      case None =>
  }

  /** Rows that are all served are served in order, each by its lowest free index. */
  lemma {:induction false} RefsServedInOrder(rows: seq<set<nat>>, before: set<nat>)
    requires |Picks(rows, before)| >= |rows|
    ensures |Picks(rows, before)| == |rows|
    ensures forall k ::
      0 <= k < |rows| ==> LowestFree(Picks(rows, before)[k], rows[k], before + Elems(Picks(rows, before)[..k]))
  {
    PicksSound(rows, before);
    if rows != [] {
      var picks := Picks(rows, before);
      if rows[0] - before == {} {
        PicksSound(rows[1..], before);
      } else {
        var i := Least(rows[0] - before);
        LeastIsLowestFree(rows[0], before);
        RefsServedInOrder(rows[1..], before + {i});
        var rest := Picks(rows[1..], before + {i});
        forall k | 0 <= k < |rows| ensures LowestFree(picks[k], rows[k], before + Elems(picks[..k])) {
          if k == 0 {
            assert before + Elems(picks[..0]) == before;
          } else {
            assert picks[..k] == [i] + rest[..k - 1];
            assert before + {i} + Elems(rest[..k - 1]) == before + Elems(picks[..k]);
          }
        }
      }
    }
  }

  lemma {:induction false} PartlyServedSound(rows: seq<set<nat>>, before: set<nat>, slot: seq<nat>)
    requires slot == Picks(rows, before) && |slot| >= 1
    ensures PartlyServed(rows, slot, before)
  {
    PicksSound(rows, before);
    forall k: nat | k < |slot| ensures PickOk(rows, slot, before, k) {
      var t := PickIsLeastFree(rows, before, k);
      assert rows[t] - before - Elems(slot[..k]) == rows[t] - (before + Elems(slot[..k]));
      LeastIsLowestFree(rows[t], before + Elems(slot[..k]));
    }
    forall t: nat | t < |rows| ensures ServedOrUsedUp(rows[t], slot, before) {
      RowServedOrUsedUp(rows, before, t);
    }
    if |slot| == |rows| { FullPicks(rows, before); }
    var counts := PicksInTurn(rows, before);
  }

  lemma {:induction false} PicksInTurn(rows: seq<set<nat>>, before: set<nat>) returns (counts: seq<nat>)
    ensures ServedInTurn(rows, Picks(rows, before), before, counts)
  {
    var slot := Picks(rows, before);
    assert before + Elems(slot[..0]) == before;
    if rows == [] {
      counts := [0];
    } else if rows[0] - before == {} {
      var rest := PicksInTurn(rows[1..], before);
      counts := [0] + rest;
      assert ServedOrPassed(rows[0], slot, before, 0, 0);
      forall t | 0 < t < |rows| ensures ServedOrPassed(rows[t], slot, before, counts[t], counts[t + 1]) {
        assert ServedOrPassed(rows[1..][t - 1], slot, before, rest[t - 1], rest[t]);
      }
    } else {
      var i := Least(rows[0] - before);
      LeastIsLowestFree(rows[0], before);
      var rest := PicksInTurn(rows[1..], before + {i});
      counts := FirstTurn(rows, slot, i, before, rest);
    }
  }

  lemma {:induction false} FirstTurn(
      rows: seq<set<nat>>, slot: seq<nat>, i: nat, before: set<nat>, rest: seq<nat>) returns (counts: seq<nat>)
    requires rows != [] && slot != [] && slot[0] == i && LowestFree(i, rows[0], before)
    requires ServedInTurn(rows[1..], slot[1..], before + {i}, rest)
    ensures ServedInTurn(rows, slot, before, counts)
  {
    assert before + Elems(slot[..0]) == before;
    counts := [0] + seq(|rest|, t requires 0 <= t < |rest| => rest[t] + 1);
    assert ServedOrPassed(rows[0], slot, before, 0, 1);
    hide ServedOrPassed, LowestFree;
    forall t | 0 < t < |rows| ensures ServedOrPassed(rows[t], slot, before, counts[t], counts[t + 1]) {
      assert ServedOrPassed(rows[1..][t - 1], slot[1..], before + {i}, rest[t - 1], rest[t]);
      TurnAfter(rows[t], slot, i, before, rest[t - 1], rest[t]);
    }
  }

  lemma {:induction false} TurnAfter(row: set<nat>, slot: seq<nat>, i: nat, before: set<nat>, now: nat, next: nat)
    requires slot != [] && slot[0] == i && now < |slot| && next < |slot|
    requires ServedOrPassed(row, slot[1..], before + {i}, now, next)
    ensures ServedOrPassed(row, slot, before, now + 1, next + 1)
  {
    assert slot[..now + 1] == [i] + slot[1..][..now];
    assert before + {i} + Elems(slot[1..][..now]) == before + Elems(slot[..now + 1]);
  }

  lemma {:induction false} ReferenceSlotSound(e: Expression, slot: seq<nat>, before: set<nat>, ins: seq<TxInput>)
    requires Serve(ReferenceDemand(e, ins), before) == Some(slot)
    ensures ReferenceSlotOk(e, slot, before, ins)
  {
    match ConstUtxoRefs(e)
    case Some(refs) => PartlyServedSound(RefRows(ins, refs), before, slot);
    case None => OneSlotOk(ReferenceRow(e, ins), true, before, slot);
  }

  ghost predicate InRange(slots: seq<seq<nat>>, n: nat) {
    forall j: nat, k: nat | j < |slots| && k < |slots[j]| :: slots[j][k] < n
  }

  /** Soundness and conservation of the greedy assignment, class by class; collateral slots
      stay empty. */
  ghost predicate Sound(tx: Tx, ctx: CardanoTx, resolved: ResolvedInputs, m: MatchAssignment) {
    && |m.inputMap| == |tx.inputs| && |m.outputMap| == |tx.outputs| && |m.mintMap| == |tx.mints|
    && |m.burnMap| == |tx.burns| && |m.referenceMap| == |tx.references| && |m.collateralMap| == |tx.collateral|
    && (forall j | 0 <= j < |m.collateralMap| :: m.collateralMap[j] == [])
    && InRange(m.inputMap, |ctx.inputs|) && InRange(m.outputMap, |ctx.outputs|) && InRange(m.mintMap, |ctx.mints|)
    && InRange(m.burnMap, |ctx.mints|) && InRange(m.referenceMap, |ctx.references|)
    && Disjoint(m.inputMap) && Disjoint(m.outputMap) && Disjoint(m.mintMap)
    && Disjoint(m.burnMap) && Disjoint(m.referenceMap)
    && (forall j: nat | j < |tx.inputs| ::
          InputSlotOk(tx.inputs[j].utxos, m.inputMap[j], Before(m.inputMap, j), ctx.inputs, resolved))
    && (forall j: nat | j < |tx.outputs| ::
          OutputSlotOk(tx.outputs[j], m.outputMap[j], Before(m.outputMap, j), ctx.outputs))
    && (forall j: nat | j < |tx.mints| ::
          MintSlotOk(tx.mints[j], false, m.mintMap[j], Before(m.mintMap, j), ctx.mints))
    && (forall j: nat | j < |tx.burns| ::
          MintSlotOk(tx.burns[j], true, m.burnMap[j], Before(m.burnMap, j), ctx.mints))
    && (forall j: nat | j < |tx.references| ::
          ReferenceSlotOk(tx.references[j], m.referenceMap[j], Before(m.referenceMap, j), ctx.references))
  }

  lemma {:induction false} InputsSound(
      inputs: seq<Input>, ins: seq<TxInput>, resolved: ResolvedInputs, slots: seq<seq<nat>>)
    requires Assign(InputDemands(inputs, ins, resolved), {}) == Some(slots)
    ensures |slots| == |inputs| && InRange(slots, |ins|) && Disjoint(slots)
    ensures forall j: nat | j < |inputs| :: InputSlotOk(inputs[j].utxos, slots[j], Before(slots, j), ins, resolved)
  {
    var ds := InputDemands(inputs, ins, resolved);
    AssignSound(ds, {});
    forall j: nat | j < |inputs|
      ensures InputSlotOk(inputs[j].utxos, slots[j], Before(slots, j), ins, resolved)
    {
      SlotAt(ds, {}, j);
      assert {} + Before(slots, j) == Before(slots, j);
      InputSlotSound(inputs[j].utxos, slots[j], Before(slots, j), ins, resolved);
    }
    forall j: nat, k: nat | j < |slots| && k < |slots[j]| ensures slots[j][k] < |ins| {
      assert slots[j][k] in Row(ds[j]);
    }
  }

  lemma {:induction false} OutputsSound(outputs: seq<Output>, outs: seq<TxOutput>, slots: seq<seq<nat>>)
    requires Assign(OutputDemands(outputs, outs), {}) == Some(slots)
    ensures |slots| == |outputs| && InRange(slots, |outs|) && Disjoint(slots)
    ensures forall j: nat | j < |outputs| :: OutputSlotOk(outputs[j], slots[j], Before(slots, j), outs)
  {
    var ds := OutputDemands(outputs, outs);
    AssignSound(ds, {});
    forall j: nat | j < |outputs| ensures OutputSlotOk(outputs[j], slots[j], Before(slots, j), outs) {
      SlotAt(ds, {}, j);
      assert {} + Before(slots, j) == Before(slots, j);
      OneSlotOk(OutputRow(outputs[j], outs), !outputs[j].optional,
                Before(slots, j), slots[j]);
    }
  }

  lemma {:induction false} MintsSound(mints: seq<Mint>, burn: bool, entries: seq<MintEntry>, slots: seq<seq<nat>>)
    requires Assign(MintDemands(mints, burn, entries), {}) == Some(slots)
    ensures |slots| == |mints| && InRange(slots, |entries|) && Disjoint(slots)
    ensures forall j: nat | j < |mints| :: MintSlotOk(mints[j], burn, slots[j], Before(slots, j), entries)
  {
    var ds := MintDemands(mints, burn, entries);
    AssignSound(ds, {});
    forall j: nat | j < |mints| ensures MintSlotOk(mints[j], burn, slots[j], Before(slots, j), entries) {
      SlotAt(ds, {}, j);
      assert {} + Before(slots, j) == Before(slots, j);
      OneSlotOk(MintRow(mints[j], burn, entries), true, Before(slots, j), slots[j]);
    }
  }

  lemma {:induction false} ReferencesSound(references: seq<Expression>, ins: seq<TxInput>, slots: seq<seq<nat>>)
    requires Assign(ReferenceDemands(references, ins), {}) == Some(slots)
    ensures |slots| == |references| && InRange(slots, |ins|) && Disjoint(slots)
    ensures forall j: nat | j < |references| :: ReferenceSlotOk(references[j], slots[j], Before(slots, j), ins)
  {
    var ds := ReferenceDemands(references, ins);
    AssignSound(ds, {});
    forall j: nat | j < |references| ensures ReferenceSlotOk(references[j], slots[j], Before(slots, j), ins) {
      SlotAt(ds, {}, j);
      assert {} + Before(slots, j) == Before(slots, j);
      ReferenceSlotSound(references[j], slots[j], Before(slots, j), ins);
    }
    forall j: nat, k: nat | j < |slots| && k < |slots[j]| ensures slots[j][k] < |ins| {
      assert slots[j][k] in Row(ds[j]);
    }
  }

  lemma {:induction false} MatchIsSound(
      tx: Tx, ctx: CardanoTx, resolved: ResolvedInputs, profileName: string, txName: string)
    requires MatchSpec(tx, ctx, resolved, profileName, txName).Some?
    ensures Sound(tx, ctx, resolved, MatchSpec(tx, ctx, resolved, profileName, txName).value)
  {
    var m := MatchSpec(tx, ctx, resolved, profileName, txName).value;
    InputsSound(tx.inputs, ctx.inputs, resolved, m.inputMap);
    OutputsSound(tx.outputs, ctx.outputs, m.outputMap);
    MintsSound(tx.mints, false, ctx.mints, m.mintMap);
    MintsSound(tx.burns, true, ctx.mints, m.burnMap);
    ReferencesSound(tx.references, ctx.references, m.referenceMap);
  }
}
