/** The structural matcher (crates/tx3-lift-cardano/src/matching.rs). */
module Matching {
  // Each loop is verified against the first-fit run of the demands its TIR elements make.

  import opened Base
  import opened Tir
  import opened Expr
  import opened Payload
  import opened Greedy

  datatype MatchAssignment = MatchAssignment(
    txName: string,
    profileName: string,
    inputMap: seq<seq<nat>>,
    outputMap: seq<seq<nat>>,
    referenceMap: seq<seq<nat>>,
    mintMap: seq<seq<nat>>,
    burnMap: seq<seq<nat>>,
    collateralMap: seq<seq<nat>>)

  // ----- which payload entries may serve which TIR element

  ghost function RefRow(ins: seq<TxInput>, r: UtxoRef): set<nat> {
    set i: nat | i < |ins| && Key(ins[i]) == r
  }

  ghost function RefRows(ins: seq<TxInput>, refs: seq<UtxoRef>): seq<set<nat>> {
    seq(|refs|, k requires 0 <= k < |refs| => RefRow(ins, refs[k]))
  }

  predicate QueryAccepts(q: InputQuery, resolved: ResolvedInputs, i: TxInput) {
    match ConstAddress(q.address)
    case Some(req) => ResolvedAddress(resolved, i) == Some(req)
    case None => true
  }

  ghost function QueryRow(q: InputQuery, ins: seq<TxInput>, resolved: ResolvedInputs): set<nat> {
    set i: nat | i < |ins| && QueryAccepts(q, resolved, ins[i])
  }

  ghost function InputDemand(utxos: Expression, ins: seq<TxInput>, resolved: ResolvedInputs): Demand {
    match ConstUtxoRefs(utxos)
    case Some(refs) => Rows(RefRows(ins, refs), |refs|)
    case None =>
      match ExpectInputQuery(utxos)
      case Some(q) => if q.many then Every(QueryRow(q, ins, resolved)) else One(QueryRow(q, ins, resolved), false)
      case None => Rows([], 0)
  }

  predicate OutputAccepts(o: Output, out: TxOutput) {
    match ConstAddress(o.address)
    case Some(req) => out.address == Some(req)
    case None => true
  }

  ghost function OutputRow(o: Output, outs: seq<TxOutput>): set<nat> {
    set i: nat | i < |outs| && OutputAccepts(o, outs[i])
  }

  ghost function OutputDemand(o: Output, outs: seq<TxOutput>): Demand {
    One(OutputRow(o, outs), !o.optional)
  }

  /** Mints and burns draw on the same list of payload entries; `burn` selects the sign. */
  predicate MintAccepts(m: Mint, burn: bool, entry: MintEntry) {
    var policies := ConstPoliciesIn(m.amount);
    (policies == [] || entry.policy in policies) && if burn then AnyNegative(entry) else AnyPositive(entry)
  }

  ghost function MintRow(m: Mint, burn: bool, entries: seq<MintEntry>): set<nat> {
    set i: nat | i < |entries| && MintAccepts(m, burn, entries[i])
  }

  ghost function MintDemand(m: Mint, burn: bool, entries: seq<MintEntry>): Demand {
    One(MintRow(m, burn, entries), true)
  }

  predicate ReferenceAccepts(e: Expression, i: TxInput) {
    match ConstUtxoRefs(e)
    case Some(refs) => Key(i) in refs
    case None => true
  }

  ghost function ReferenceRow(e: Expression, ins: seq<TxInput>): set<nat> {
    set i: nat | i < |ins| && ReferenceAccepts(e, ins[i])
  }

  /** A reference list may be served in part, a reference parameter takes anything. */
  ghost function ReferenceDemand(e: Expression, ins: seq<TxInput>): Demand {
    match ConstUtxoRefs(e)
    case Some(refs) => Rows(RefRows(ins, refs), 1)
    case None => One(ReferenceRow(e, ins), true)
  }

  ghost function InputDemands(inputs: seq<Input>, ins: seq<TxInput>, resolved: ResolvedInputs): seq<Demand> {
    seq(|inputs|, j requires 0 <= j < |inputs| => InputDemand(inputs[j].utxos, ins, resolved))
  }

  ghost function OutputDemands(outputs: seq<Output>, outs: seq<TxOutput>): seq<Demand> {
    seq(|outputs|, j requires 0 <= j < |outputs| => OutputDemand(outputs[j], outs))
  }

  ghost function MintDemands(mints: seq<Mint>, burn: bool, entries: seq<MintEntry>): seq<Demand> {
    seq(|mints|, j requires 0 <= j < |mints| => MintDemand(mints[j], burn, entries))
  }

  ghost function ReferenceDemands(references: seq<Expression>, ins: seq<TxInput>): seq<Demand> {
    seq(|references|, j requires 0 <= j < |references| => ReferenceDemand(references[j], ins))
  }

  /** The assignment `match_tx` computes for a transaction that decodes. */
  ghost function MatchSpec(tx: Tx, ctx: CardanoTx, resolved: ResolvedInputs, profileName: string, txName: string):
      Option<MatchAssignment>
  {
    Assemble(
      Assign(InputDemands(tx.inputs, ctx.inputs, resolved), {}),
      Assign(OutputDemands(tx.outputs, ctx.outputs), {}),
      Assign(MintDemands(tx.mints, false, ctx.mints), {}),
      Assign(MintDemands(tx.burns, true, ctx.mints), {}),
      Assign(ReferenceDemands(tx.references, ctx.references), {}),
      |tx.collateral|, profileName, txName)
  }

  /** A match needs every class to succeed; collateral is never assigned. */
  function Assemble(inputs: Option<seq<seq<nat>>>, outputs: Option<seq<seq<nat>>>, mints: Option<seq<seq<nat>>>,
                    burns: Option<seq<seq<nat>>>, references: Option<seq<seq<nat>>>, collateral: nat,
                    profileName: string, txName: string): Option<MatchAssignment>
  {
    if inputs.Some? && outputs.Some? && mints.Some? && burns.Some? && references.Some? then
      Some(MatchAssignment(txName, profileName, inputs.value, outputs.value, references.value, mints.value,
                           burns.value, seq(collateral, _ => [])))
    else None
  }

  // ----- consumed flags

  ghost function Taken(flags: seq<bool>): set<nat> {
    set i: nat | i < |flags| && flags[i]
  }

  lemma {:induction false} TakenSet(flags: seq<bool>, i: nat)
    requires i < |flags|
    ensures Taken(flags[i := true]) == Taken(flags) + {i}
  {
  }

  lemma {:induction false} NoneTaken(flags: seq<bool>)
    requires forall i | 0 <= i < |flags| :: !flags[i]
    ensures Taken(flags) == {}
  {
  }

  lemma {:induction false} TakenAt(flags: seq<bool>, i: nat)
    requires i < |flags|
    ensures i in Taken(flags) <==> flags[i]
  {
  }

  lemma {:induction false} PicksCons(rows: seq<set<nat>>, k: nat, taken: set<nat>)
    requires k < |rows|
    ensures Picks(rows[k..], taken) ==
      if rows[k] - taken == {} then Picks(rows[k + 1..], taken)
      else [Least(rows[k] - taken)] + Picks(rows[k + 1..], taken + {Least(rows[k] - taken)})
  {
    assert rows[k..][1..] == rows[k + 1..];
  }

  /** `goal` is `slots` followed by what `Assign` makes of the remaining demands. */
  ghost predicate Completes(goal: Option<seq<seq<nat>>>, ds: seq<Demand>, slots: seq<seq<nat>>, taken: set<nat>) {
    |slots| <= |ds| &&
    goal ==
      match Assign(ds[|slots|..], taken)
      case None => None
      case Some(rest) => Some(slots + rest)
  }

  lemma {:induction false} AssignUnfold(ds: seq<Demand>, j: nat, taken: set<nat>)
    requires j < |ds|
    ensures Assign(ds[j..], taken) ==
      match Serve(ds[j], taken)
      case None => None
      case Some(slot) =>
        match Assign(ds[j + 1..], taken + Elems(slot))
        case None => None
        case Some(rest) => Some([slot] + rest)
  {
    assert ds[j..][0] == ds[j] && ds[j..][1..] == ds[j + 1..];
  }

  lemma {:induction false} CompletesStep(
      goal: Option<seq<seq<nat>>>, ds: seq<Demand>, slots: seq<seq<nat>>, taken: set<nat>)
    requires Completes(goal, ds, slots, taken) && |slots| < |ds|
    ensures Serve(ds[|slots|], taken).None? ==> goal.None?
    ensures Serve(ds[|slots|], taken).Some? ==>
      var slot := Serve(ds[|slots|], taken).value;
      Completes(goal, ds, slots + [slot], taken + Elems(slot))
  {
    var j := |slots|;
    AssignUnfold(ds, j, taken);
    if Serve(ds[j], taken).Some? {
      var slot := Serve(ds[j], taken).value;
      var rest := Assign(ds[j + 1..], taken + Elems(slot));
      if rest.Some? {
        assert slots + ([slot] + rest.value) == (slots + [slot]) + rest.value;
      }
    }
  }

  lemma {:induction false} CompletesStart(ds: seq<Demand>)
    ensures Completes(Assign(ds, {}), ds, [], {})
  {
    var goal := Assign(ds, {});
    assert ds[0..] == ds;
    if goal.Some? { assert [] + goal.value == goal.value; }
  }

  lemma {:induction false} CompletesEnd(
      goal: Option<seq<seq<nat>>>, ds: seq<Demand>, slots: seq<seq<nat>>, taken: set<nat>)
    requires Completes(goal, ds, slots, taken) && |slots| == |ds|
    ensures goal == Some(slots)
  {
    assert Assign(ds[|slots|..], taken) == Some([]);
    assert slots + [] == slots;
  }

  // ----- the loops

  /** Scan for the first free input with reference `r` and consume it. */
  method TakeRef(ins: seq<TxInput>, r: UtxoRef, consumed: array<bool>) returns (found: Option<nat>)
    requires consumed.Length == |ins|
    modifies consumed
    ensures var free := RefRow(ins, r) - Taken(old(consumed[..]));
            found == if free == {} then None else Some(Least(free))
    ensures Taken(consumed[..]) == Taken(old(consumed[..])) + match found case None => {} case Some(i) => {i}
  {
    ghost var taken := Taken(consumed[..]);
    for i := 0 to |ins|
      invariant consumed[..] == old(consumed[..])
      invariant forall x | x in RefRow(ins, r) - taken :: i <= x
    {
      if consumed[i] {
        continue;
      }
      if Key(ins[i]) == r {
        TakenSet(consumed[..], i);
        assert i in RefRow(ins, r) - taken;
        consumed[i] := true;
        assert consumed[..] == old(consumed[..])[i := true];
        return Some(i);
      }
    }
    assert RefRow(ins, r) - taken == {};
    return None;
  }

  lemma {:induction false} PicksLength(rows: seq<set<nat>>, k: nat, matched: seq<nat>, taken: set<nat>)
    requires k < |rows| && |matched| == k && rows[k] - taken == {}
    ensures |matched + Picks(rows[k..], taken)| < |rows|
  {
    PicksCons(rows, k, taken);
    PicksSound(rows[k + 1..], taken);
  }

  lemma {:induction false} PicksGrow(rows: seq<set<nat>>, k: nat, matched: seq<nat>, taken: set<nat>)
    requires k < |rows| && rows[k] - taken != {}
    ensures var i := Least(rows[k] - taken);
      matched + Picks(rows[k..], taken) == (matched + [i]) + Picks(rows[k + 1..], taken + {i})
  {
    PicksCons(rows, k, taken);
  }

  lemma {:induction false} PicksDone(rows: seq<set<nat>>, matched: seq<nat>, taken: set<nat>)
    ensures matched + Picks(rows[|rows|..], taken) == matched
  {
  }

  method AssignInput(utxos: Expression, ins: seq<TxInput>, resolved: ResolvedInputs, consumed: array<bool>)
    returns (slot: Option<seq<nat>>)
    requires consumed.Length == |ins|
    modifies consumed
    ensures slot == Serve(InputDemand(utxos, ins, resolved), Taken(old(consumed[..])))
    ensures slot.Some? ==> Taken(consumed[..]) == Taken(old(consumed[..])) + Elems(slot.value)
  {
    var refs := ConstUtxoRefs(utxos);
    if refs.Some? {
      slot := AssignInputRefs(refs.value, ins, consumed);
      return;
    }
    var query := ExpectInputQuery(utxos);
    if query.Some? {
      var matched := AssignInputByQuery(query.value, ins, resolved, consumed);
      return Some(matched);
    }
    return Some([]);
  }

  /** Constant references: every one must be found, in order. */
  method AssignInputRefs(refs: seq<UtxoRef>, ins: seq<TxInput>, consumed: array<bool>) returns (slot: Option<seq<nat>>)
    requires consumed.Length == |ins|
    modifies consumed
    ensures slot == Serve(Rows(RefRows(ins, refs), |refs|), Taken(old(consumed[..])))
    ensures slot.Some? ==> Taken(consumed[..]) == Taken(old(consumed[..])) + Elems(slot.value)
  {
    ghost var taken := Taken(consumed[..]);
    ghost var rows := RefRows(ins, refs);
    ghost var goal := Picks(rows, taken);
    var matched: seq<nat> := [];
    for k := 0 to |refs|
      invariant |matched| == k
      invariant Taken(consumed[..]) == taken + Elems(matched)
      invariant goal == matched + Picks(rows[k..], Taken(consumed[..]))
    {
      ghost var now := Taken(consumed[..]);
      var found := TakeRef(ins, refs[k], consumed);
      if found.None? {
        PicksLength(rows, k, matched, now);
        return None;
      }
      PicksGrow(rows, k, matched, now);
      matched := matched + [found.value];
    }
    PicksDone(rows, matched, Taken(consumed[..]));
    return Some(matched);
  }

  lemma {:induction false} AscendingCons(s: set<nat>, m: nat)
    requires m in s && forall x | x in s :: m <= x
    ensures Ascending(s) == [m] + Ascending(s - {m})
  {
    assert Least(s) == m;
  }

  method AssignInputByQuery(q: InputQuery, ins: seq<TxInput>, resolved: ResolvedInputs, consumed: array<bool>)
    returns (matched: seq<nat>)
    requires consumed.Length == |ins|
    modifies consumed
    ensures var row := QueryRow(q, ins, resolved);
            Some(matched) == Serve(if q.many then Every(row) else One(row, false), Taken(old(consumed[..])))
    ensures Taken(consumed[..]) == Taken(old(consumed[..])) + Elems(matched)
  {
    hide ConstAddress, ResolvedAddress;
    ghost var taken := Taken(consumed[..]);
    ghost var row := QueryRow(q, ins, resolved);
    ServeOne(row, false, taken);
    matched := [];
    ghost var goal := Ascending(row - taken);
    assert FreeFrom(row, taken, 0) == row - taken && [] + goal == goal;
    assert Serve(Every(row), taken) == Some(goal);
    assert forall i | 0 <= i < |ins| :: i in row <==> QueryAccepts(q, resolved, ins[i]);
    hide Serve, Ascending, FreeFrom, Taken, QueryRow, QueryAccepts;
    for i := 0 to |ins|
      invariant Taken(consumed[..]) == taken + Elems(matched)
      invariant forall x: nat | i <= x < |ins| :: consumed[x] == old(consumed[x])
      invariant goal == matched + Ascending(FreeFrom(row, taken, i))
      invariant !q.many ==> matched == [] && FreeFrom(row, taken, i) == row - taken
    {
      FreeStep(row, taken, i);
      TakenAt(old(consumed[..]), i);
      if consumed[i] {
        continue;
      }
      if QueryAccepts(q, resolved, ins[i]) {
        Concat(matched, [i], Ascending(FreeFrom(row, taken, i + 1)));
        TakenSet(consumed[..], i);
        ghost var flags := consumed[..];
        matched := matched + [i];
        consumed[i] := true;
        assert consumed[..] == flags[i := true];
        if !q.many {
          assert matched == [i] && !(row <= taken);
          return;
        }
      }
    }
    FreeEnd(row, taken, |ins|, matched);
  }

  /** What `row` still offers from position `i` on. */
  ghost function FreeFrom(row: set<nat>, taken: set<nat>, i: nat): set<nat> {
    set x | x in row && x !in taken && i <= x
  }

  lemma {:induction false} FreeStep(row: set<nat>, taken: set<nat>, i: nat)
    ensures i in row && i !in taken ==>
      && Ascending(FreeFrom(row, taken, i)) == [i] + Ascending(FreeFrom(row, taken, i + 1))
      && (FreeFrom(row, taken, i) == row - taken ==> row - taken != {} && Least(row - taken) == i)
    ensures !(i in row && i !in taken) ==> FreeFrom(row, taken, i + 1) == FreeFrom(row, taken, i)
  {
    var left := FreeFrom(row, taken, i);
    if i in row && i !in taken {
      AscendingCons(left, i);
      assert FreeFrom(row, taken, i + 1) == left - {i};
    }
  }

  lemma {:induction false} FreeEnd(row: set<nat>, taken: set<nat>, n: nat, matched: seq<nat>)
    requires forall x | x in row :: x < n
    ensures matched + Ascending(FreeFrom(row, taken, n)) == matched
    ensures FreeFrom(row, taken, n) == row - taken ==> row <= taken
  {
    assert FreeFrom(row, taken, n) == {};
    forall x | x in row && FreeFrom(row, taken, n) == row - taken ensures x in taken {
      assert x !in row - taken;
    }
  }

  method AssignInputs(inputs: seq<Input>, ins: seq<TxInput>, resolved: ResolvedInputs, consumed: array<bool>)
    returns (slots: Option<seq<seq<nat>>>)
    requires consumed.Length == |ins| && Taken(consumed[..]) == {}
    modifies consumed
    ensures slots == Assign(InputDemands(inputs, ins, resolved), {})
    ensures slots.Some? ==> Taken(consumed[..]) == Before(slots.value, |slots.value|)
  {
    ghost var ds := InputDemands(inputs, ins, resolved);
    CompletesStart(ds);
    ghost var goal := Assign(ds, {});
    var slots_: seq<seq<nat>> := [];
    for j := 0 to |inputs|
      invariant |slots_| == j
      invariant Taken(consumed[..]) == Before(slots_, j)
      invariant Completes(goal, ds, slots_, Taken(consumed[..]))
    {
      CompletesStep(goal, ds, slots_, Taken(consumed[..]));
      var slot := AssignInput(inputs[j].utxos, ins, resolved, consumed);
      if slot.None? {
        return None;
      }
      BeforeSnoc(slots_, slot.value);
      slots_ := slots_ + [slot.value];
    }
    CompletesEnd(goal, ds, slots_, Taken(consumed[..]));
    return Some(slots_);
  }

  lemma {:induction false} BeforeSnoc(slots: seq<seq<nat>>, slot: seq<nat>)
    ensures Before(slots + [slot], |slots| + 1) == Before(slots, |slots|) + Elems(slot)
  {
    var all := slots + [slot];
    BeforeStep(all, |slots|);
    assert Before(all, |slots|) == Before(slots, |slots|) by {
      assert forall i | 0 <= i < |slots| :: all[i] == slots[i];
    }
  }

  method AssignOutputs(outputs: seq<Output>, outs: seq<TxOutput>, consumed: array<bool>)
    returns (slots: Option<seq<seq<nat>>>)
    requires consumed.Length == |outs| && Taken(consumed[..]) == {}
    modifies consumed
    ensures slots == Assign(OutputDemands(outputs, outs), {})
    ensures slots.Some? ==> Taken(consumed[..]) == Before(slots.value, |slots.value|)
  {
    ghost var ds := OutputDemands(outputs, outs);
    CompletesStart(ds);
    ghost var goal := Assign(ds, {});
    var slots_: seq<seq<nat>> := [];
    for j := 0 to |outputs|
      invariant |slots_| == j
      invariant Taken(consumed[..]) == Before(slots_, j)
      invariant Completes(goal, ds, slots_, Taken(consumed[..]))
    {
      ghost var flags := consumed[..];
      ghost var row := OutputRow(outputs[j], outs);
      assert ds[j] == One(row, !outputs[j].optional);
      ServeOne(row, !outputs[j].optional, Taken(flags));
      CompletesStep(goal, ds, slots_, Taken(flags));
      var matched: seq<nat> := [];
      for i := 0 to |outs|
        invariant matched == [] && consumed[..] == flags
        invariant forall x | x in row - Taken(flags) :: i <= x
      {
        if consumed[i] {
          continue;
        }
        if OutputAccepts(outputs[j], outs[i]) {
          matched := matched + [i];
          TakenSet(flags, i);
          consumed[i] := true;
          assert consumed[..] == flags[i := true];
          assert i in row - Taken(flags) && Least(row - Taken(flags)) == i && matched == [i];
          break;
        }
      }
      if matched == [] && !outputs[j].optional {
        return None;
      }
      BeforeSnoc(slots_, matched);
      slots_ := slots_ + [matched];
    }
    CompletesEnd(goal, ds, slots_, Taken(consumed[..]));
    return Some(slots_);
  }

  /** The mint loop (`burn == false`) and the burn loop (`burn == true`), which differ only in
      the sign they look for and in the flags they consume. */
  method AssignMints(mints: seq<Mint>, burn: bool, entries: seq<MintEntry>, consumed: array<bool>)
    returns (slots: Option<seq<seq<nat>>>)
    requires consumed.Length == |entries| && Taken(consumed[..]) == {}
    modifies consumed
    ensures slots == Assign(MintDemands(mints, burn, entries), {})
    ensures slots.Some? ==> Taken(consumed[..]) == Before(slots.value, |slots.value|)
  {
    ghost var ds := MintDemands(mints, burn, entries);
    CompletesStart(ds);
    ghost var goal := Assign(ds, {});
    var slots_: seq<seq<nat>> := [];
    for j := 0 to |mints|
      invariant |slots_| == j
      invariant Taken(consumed[..]) == Before(slots_, j)
      invariant Completes(goal, ds, slots_, Taken(consumed[..]))
    {
      CompletesStep(goal, ds, slots_, Taken(consumed[..]));
      var matched := AssignMint(mints[j], burn, entries, consumed);
      if matched == [] {
        return None;
      }
      BeforeSnoc(slots_, matched);
      slots_ := slots_ + [matched];
    }
    CompletesEnd(goal, ds, slots_, Taken(consumed[..]));
    return Some(slots_);
  }

  /** The body of the mint and burn loops. */
  method AssignMint(mint: Mint, burn: bool, entries: seq<MintEntry>, consumed: array<bool>)
    returns (matched: seq<nat>)
    requires consumed.Length == |entries|
    modifies consumed
    ensures Serve(MintDemand(mint, burn, entries), Taken(old(consumed[..]))) ==
            if matched == [] then None else Some(matched)
    ensures Taken(consumed[..]) == Taken(old(consumed[..])) + Elems(matched)
  {
    ghost var taken := Taken(consumed[..]);
    ghost var row := MintRow(mint, burn, entries);
    ServeOne(row, true, taken);
    var policies := ConstPoliciesIn(mint.amount);
    matched := [];
    for i := 0 to |entries|
      invariant matched == [] && consumed[..] == old(consumed[..])
      invariant forall x | x in row - taken :: i <= x
    {
      if consumed[i] {
        continue;
      }
      if policies == [] || entries[i].policy in policies {
        var anySigned := if burn then AnyNegative(entries[i]) else AnyPositive(entries[i]);
        if anySigned {
          matched := matched + [i];
          TakenSet(consumed[..], i);
          consumed[i] := true;
          assert consumed[..] == old(consumed[..])[i := true];
          assert i in row - taken && Least(row - taken) == i && matched == [i];
          break;
        }
      }
    }
  }

  method AssignReferences(references: seq<Expression>, ins: seq<TxInput>, consumed: array<bool>)
    returns (slots: Option<seq<seq<nat>>>)
    requires consumed.Length == |ins| && Taken(consumed[..]) == {}
    modifies consumed
    ensures slots == Assign(ReferenceDemands(references, ins), {})
    ensures slots.Some? ==> Taken(consumed[..]) == Before(slots.value, |slots.value|)
  {
    ghost var ds := ReferenceDemands(references, ins);
    CompletesStart(ds);
    ghost var goal := Assign(ds, {});
    var slots_: seq<seq<nat>> := [];
    for j := 0 to |references|
      invariant |slots_| == j
      invariant Taken(consumed[..]) == Before(slots_, j)
      invariant Completes(goal, ds, slots_, Taken(consumed[..]))
    {
      ghost var taken := Taken(consumed[..]);
      CompletesStep(goal, ds, slots_, taken);
      var matched := AssignReference(references[j], ins, consumed);
      if matched == [] {
        return None;
      }
      BeforeSnoc(slots_, matched);
      slots_ := slots_ + [matched];
    }
    CompletesEnd(goal, ds, slots_, Taken(consumed[..]));
    return Some(slots_);
  }

  /** The body of the reference loop: every listed reference that is present, or the first
      free one. */
  method AssignReference(e: Expression, ins: seq<TxInput>, consumed: array<bool>) returns (matched: seq<nat>)
    requires consumed.Length == |ins|
    modifies consumed
    ensures Serve(ReferenceDemand(e, ins), Taken(old(consumed[..]))) == if matched == [] then None else Some(matched)
    ensures Taken(consumed[..]) == Taken(old(consumed[..])) + Elems(matched)
  {
    var refs := ConstUtxoRefs(e);
    if refs.Some? {
      matched := AssignReferenceList(refs.value, ins, consumed);
      return;
    }
    ghost var taken := Taken(consumed[..]);
    ghost var row := ReferenceRow(e, ins);
    ServeOne(row, true, taken);
    matched := [];
    for i := 0 to |ins|
      invariant matched == [] && consumed[..] == old(consumed[..])
      invariant forall x | x in row - taken :: i <= x
    {
      if !consumed[i] {
        matched := matched + [i];
        TakenSet(consumed[..], i);
        consumed[i] := true;
        assert consumed[..] == old(consumed[..])[i := true];
        assert i in row - taken && Least(row - taken) == i && matched == [i];
        break;
      }
    }
  }

  /** A constant reference list: the references that are found, in order. */
  method AssignReferenceList(refs: seq<UtxoRef>, ins: seq<TxInput>, consumed: array<bool>) returns (matched: seq<nat>)
    requires consumed.Length == |ins|
    modifies consumed
    ensures matched == Picks(RefRows(ins, refs), Taken(old(consumed[..])))
    ensures Taken(consumed[..]) == Taken(old(consumed[..])) + Elems(matched)
  {
    ghost var taken := Taken(consumed[..]);
    ghost var rows := RefRows(ins, refs);
    ghost var goal := Picks(rows, taken);
    matched := [];
    for k := 0 to |refs|
      invariant Taken(consumed[..]) == taken + Elems(matched)
      invariant goal == matched + Picks(rows[k..], Taken(consumed[..]))
    {
      ghost var now := Taken(consumed[..]);
      var found := TakeRef(ins, refs[k], consumed);
      if found.Some? {
        PicksGrow(rows, k, matched, now);
        matched := matched + [found.value];
      } else {
        PicksCons(rows, k, now);
      }
    }
    PicksDone(rows, matched, Taken(consumed[..]));
  }

  method MatchTx(tx: Tx, payload: CardanoPayload, profileName: string, txName: string)
    returns (r: Result<Option<MatchAssignment>>)
    ensures payload.parsed.None? ==> r == Err(PallasDecode)
    ensures payload.parsed.Some? ==>
      r == Ok(MatchSpec(tx, payload.parsed.value, payload.resolved, profileName, txName))
  {
    if payload.parsed.None? {
      return Err(PallasDecode);
    }
    var ctx := payload.parsed.value;
    var inputConsumed := new bool[|ctx.inputs|](_ => false);
    var outputConsumed := new bool[|ctx.outputs|](_ => false);
    var mintConsumed := new bool[|ctx.mints|](_ => false);
    var burnConsumed := new bool[|ctx.mints|](_ => false);
    var refConsumed := new bool[|ctx.references|](_ => false);
    NoneTaken(inputConsumed[..]);
    NoneTaken(outputConsumed[..]);
    NoneTaken(mintConsumed[..]);
    NoneTaken(burnConsumed[..]);
    NoneTaken(refConsumed[..]);
    hide Taken;

    var inputMap := AssignInputs(tx.inputs, ctx.inputs, payload.resolved, inputConsumed);
    if inputMap.None? { return Ok(None); }
    var outputMap := AssignOutputs(tx.outputs, ctx.outputs, outputConsumed);
    if outputMap.None? { return Ok(None); }
    var mintMap := AssignMints(tx.mints, false, ctx.mints, mintConsumed);
    if mintMap.None? { return Ok(None); }
    var burnMap := AssignMints(tx.burns, true, ctx.mints, burnConsumed);
    if burnMap.None? { return Ok(None); }
    var referenceMap := AssignReferences(tx.references, ctx.references, refConsumed);
    if referenceMap.None? { return Ok(None); }
    var collateralMap := seq(|tx.collateral|, _ => []);
    return Ok(Some(MatchAssignment(txName, profileName, inputMap.value, outputMap.value, referenceMap.value,
                                   mintMap.value, burnMap.value, collateralMap)));
  }
}
