/** Lifting an assignment that the matcher made: nothing is dropped, every annotation stands
    for its own TIR element and transaction part, and roles are joins. */
module LiftLaws {
  import opened Base
  import opened Profile
  import opened Payload
  import opened Roles
  import opened Greedy
  import opened Matching
  import opened MatchLaws
  import opened Lifting
  import Expr
  import Fingerprint
  import T = Tir

  /** Where the slots of element `j` start in the flattened assignment. */
  function Offset(m: seq<seq<nat>>, j: nat): nat
    requires j <= |m|
  {
    Total(m[..j])
  }

  lemma {:induction false} FlattenLength(m: seq<seq<nat>>)
    ensures |Flatten(m)| == Total(m)
  {
    if m != [] { FlattenLength(m[..|m| - 1]); }
  }

  lemma {:induction false} FlattenAt(m: seq<seq<nat>>, j: nat, k: nat)
    requires j < |m| && k < |m[j]|
    ensures Offset(m, j) + k < |Flatten(m)|
    ensures Flatten(m)[Offset(m, j) + k] == Slot(j, m[j][k])
  {
    var front := m[..|m| - 1];
    FlattenLength(front);
    if j < |front| {
      FlattenAt(front, j, k);
      assert front[..j] == m[..j];
    }
  }

  lemma {:induction false} FlattenRange(m: seq<seq<nat>>, n: nat)
    requires InRange(m, n)
    ensures forall s | s in Flatten(m) :: s.tir < |m| && s.payload < n
  {
    if m != [] {
      var front := m[..|m| - 1];
      assert InRange(front, n) by {
        assert forall j | 0 <= j < |front| :: front[j] == m[j];
      }
      FlattenRange(front, n);
      forall s | s in Flatten(m) ensures s.tir < |m| && s.payload < n {
        if s !in Flatten(front) {
          var k :| 0 <= k < |m[|m| - 1]| && s == SlotsAt(|m| - 1, m[|m| - 1])[k];
          assert m[|m| - 1][k] < n;
        }
      }
    }
  }

  /** The range lookups of the loops never fail on an assignment in range. */
  lemma {:induction false} NothingDropped(m: seq<seq<nat>>, tirs: nat, n: nat)
    requires InRange(m, n) && |m| == tirs
    ensures InBounds(Flatten(m), tirs, n) == Flatten(m)
  {
    FlattenRange(m, n);
    InBoundsSound(Flatten(m), tirs, n);
  }

  lemma {:induction false} PickedIsAll(tx: T.Tx, ctx: CardanoTx, m: MatchAssignment, resolved: ResolvedInputs)
    requires Sound(tx, ctx, resolved, m)
    ensures PickedOf(tx, ctx, m) == Picked(Flatten(m.inputMap), Flatten(m.referenceMap), Flatten(m.outputMap),
                                           Flatten(m.mintMap), Flatten(m.burnMap))
  {
    NothingDropped(m.inputMap, |tx.inputs|, |ctx.inputs|);
    NothingDropped(m.referenceMap, |m.referenceMap|, |ctx.references|);
    NothingDropped(m.outputMap, |m.outputMap|, |ctx.outputs|);
    NothingDropped(m.mintMap, |m.mintMap|, |ctx.mints|);
    NothingDropped(m.burnMap, |m.burnMap|, |ctx.mints|);
  }

  // ----- nothing is lost

  ghost predicate InputsAnnotated(inputs: seq<T.Input>, ins: seq<TxInput>, resolved: ResolvedInputs, m: seq<seq<nat>>,
                                  notes: seq<InputAnnotation>)
    requires |m| == |inputs| && InRange(m, |ins|)
  {
    |notes| == Total(m) &&
    forall j: nat, k: nat | j < |m| && k < |m[j]| ::
      && Offset(m, j) + k < |notes|
      && Viewable(ins[m[j][k]], resolved)
      && var a := notes[Offset(m, j) + k];
         a.tirInput == Named(inputs[j].name) && a.utxoRef == Key(ins[m[j][k]])
          && a.view == InputView(ins[m[j][k]], resolved)
  }

  ghost predicate ReferencesAnnotated(ins: seq<TxInput>, resolved: ResolvedInputs, m: seq<seq<nat>>,
                                      notes: seq<InputAnnotation>)
    requires InRange(m, |ins|)
  {
    |notes| == Total(m) &&
    forall j: nat, k: nat | j < |m| && k < |m[j]| ::
      && Offset(m, j) + k < |notes|
      && Viewable(ins[m[j][k]], resolved)
      && notes[Offset(m, j) + k]
        == InputAnnotation(RefAt(j), Key(ins[m[j][k]]), None, InputView(ins[m[j][k]], resolved))
  }

  ghost predicate OutputAnnotated(outs: seq<TxOutput>, m: seq<seq<nat>>, notes: seq<OutputAnnotation>, j: nat, k: nat)
    requires InRange(m, |outs|) && j < |m| && k < |m[j]|
  {
    && Offset(m, j) + k < |notes|
    && notes[Offset(m, j) + k].tirOutput == j
    && notes[Offset(m, j) + k].view == ViewOf(outs[m[j][k]])
  }

  ghost predicate OutputsAnnotated(outs: seq<TxOutput>, m: seq<seq<nat>>, notes: seq<OutputAnnotation>)
    requires InRange(m, |outs|)
  {
    |notes| == Total(m) && forall j: nat, k: nat | j < |m| && k < |m[j]| :: OutputAnnotated(outs, m, notes, j, k)
  }

  ghost predicate MintsAnnotated(entries: seq<MintEntry>, m: seq<seq<nat>>, notes: seq<MintAnnotation>)
    requires InRange(m, |entries|)
  {
    |notes| == Total(m) &&
    forall j: nat, k: nat | j < |m| && k < |m[j]| ::
      && Offset(m, j) + k < |notes|
      && notes[Offset(m, j) + k] == MintAnnotation(j, entries[m[j][k]].policy, entries[m[j][k]].assets)
  }

  lemma {:induction false} InputNotesComplete(inputs: seq<T.Input>, ins: seq<TxInput>, resolved: ResolvedInputs,
                                              m: seq<seq<nat>>, parties: Parties)
    requires |m| == |inputs| && InRange(m, |ins|)
    requires AllViewable(Flatten(m), ins, resolved) && forall s | s in Flatten(m) :: s.tir < |inputs|
    ensures InputsAnnotated(inputs, ins, resolved, m, InputNotes(Flatten(m), inputs, ins, resolved, parties))
  {
    var notes := InputNotes(Flatten(m), inputs, ins, resolved, parties);
    FlattenLength(m);
    forall j: nat, k: nat | j < |m| && k < |m[j]|
      ensures Offset(m, j) + k < |notes| && Slot(j, m[j][k]) in Flatten(m)
      ensures notes[Offset(m, j) + k] == InputNote(Slot(j, m[j][k]), Named(inputs[j].name), ins, resolved, parties)
    {
      FlattenAt(m, j, k);
    }
  }

  lemma {:induction false} ReferenceNotesComplete(ins: seq<TxInput>, resolved: ResolvedInputs, m: seq<seq<nat>>)
    requires InRange(m, |ins|) && AllViewable(Flatten(m), ins, resolved)
    ensures ReferencesAnnotated(ins, resolved, m, ReferenceNotes(Flatten(m), ins, resolved))
  {
    var notes := ReferenceNotes(Flatten(m), ins, resolved);
    FlattenLength(m);
    forall j: nat, k: nat | j < |m| && k < |m[j]|
      ensures Offset(m, j) + k < |notes| && Slot(j, m[j][k]) in Flatten(m)
      ensures notes[Offset(m, j) + k] == ReferenceNote(Slot(j, m[j][k]), ins, resolved)
    {
      FlattenAt(m, j, k);
    }
  }

  lemma {:induction false} OutputNotesComplete(outs: seq<TxOutput>, m: seq<seq<nat>>, parties: Parties)
    requires InRange(m, |outs|) && forall s | s in Flatten(m) :: s.payload < |outs|
    ensures OutputsAnnotated(outs, m, OutputNotes(Flatten(m), outs, parties))
  {
    hide TypedDatum;
    var notes := OutputNotes(Flatten(m), outs, parties);
    FlattenLength(m);
    forall j: nat, k: nat | j < |m| && k < |m[j]|
      ensures OutputAnnotated(outs, m, notes, j, k)
    {
      FlattenAt(m, j, k);
    }
  }

  lemma {:induction false} MintNotesComplete(entries: seq<MintEntry>, m: seq<seq<nat>>)
    requires InRange(m, |entries|) && forall s | s in Flatten(m) :: s.payload < |entries|
    ensures MintsAnnotated(entries, m, MintNotes(Flatten(m), entries))
  {
    var notes := MintNotes(Flatten(m), entries);
    FlattenLength(m);
    forall j: nat, k: nat | j < |m| && k < |m[j]|
      ensures Offset(m, j) + k < |notes| && notes[Offset(m, j) + k] == MintNote(Slot(j, m[j][k]), entries)
    {
      FlattenAt(m, j, k);
    }
  }

  /** One annotation per assigned part, at the place its slot has, made from that part. */
  lemma {:induction false} LiftLosesNothing(
      profile: Option<Profile>, profileName: string, txName: string, tx: T.Tx, ctx: CardanoTx,
      resolved: ResolvedInputs, m: MatchAssignment, l: Lifted)
    requires MatchSpec(tx, ctx, resolved, m.profileName, m.txName) == Some(m)
    requires LiftedView(profile, profileName, txName, tx, ctx, resolved, m) == Ok(l)
    ensures Sound(tx, ctx, resolved, m)
    ensures InputsAnnotated(tx.inputs, ctx.inputs, resolved, m.inputMap, l.inputs)
    ensures ReferencesAnnotated(ctx.references, resolved, m.referenceMap, l.references)
    ensures OutputsAnnotated(ctx.outputs, m.outputMap, l.outputs)
    ensures MintsAnnotated(ctx.mints, m.mintMap, l.mints)
    ensures MintsAnnotated(ctx.mints, m.burnMap, l.burns)
  {
    MatchIsSound(tx, ctx, resolved, m.profileName, m.txName);
    PickedIsAll(tx, ctx, m, resolved);
    var p, parties := PickedOf(tx, ctx, m), FreshParties(profile.value);
    InputNotesComplete(tx.inputs, ctx.inputs, resolved, m.inputMap, parties);
    ReferenceNotesComplete(ctx.references, resolved, m.referenceMap);
    OutputNotesComplete(ctx.outputs, m.outputMap, parties);
    MintNotesComplete(ctx.mints, m.mintMap);
    MintNotesComplete(ctx.mints, m.burnMap);
  }

  /** Lifting a match succeeds exactly when the profile exists, its addresses decode, and no
      assigned input or reference was resolved to bytes that do not decode; otherwise the first
      of these that is not so is the error. */
  lemma {:induction false} LiftSucceedsExactly(
      profile: Option<Profile>, profileName: string, txName: string, tx: T.Tx, ctx: CardanoTx,
      resolved: ResolvedInputs, m: MatchAssignment)
    requires MatchSpec(tx, ctx, resolved, m.profileName, m.txName) == Some(m)
    ensures LiftedView(profile, profileName, txName, tx, ctx, resolved, m).Ok? <==>
      && profile.Some? && PartiesDecode(profile.value)
      && AllViewable(Flatten(m.inputMap), ctx.inputs, resolved)
      && AllViewable(Flatten(m.referenceMap), ctx.references, resolved)
    ensures LiftedView(profile, profileName, txName, tx, ctx, resolved, m).Err? ==>
      LiftedView(profile, profileName, txName, tx, ctx, resolved, m).error ==
        if profile.None? then UnknownProfile
        else if !PartiesDecode(profile.value) then InvalidAddress
        else PallasDecode
  {
    MatchIsSound(tx, ctx, resolved, m.profileName, m.txName);
    PickedIsAll(tx, ctx, m, resolved);
  }

  // ----- what the annotations show is what the TIR asked for

  lemma {:induction false} PinnedInputMatched(e: T.Expression, slot: seq<nat>, before: set<nat>, ins: seq<TxInput>,
                                              resolved: ResolvedInputs, k: nat, a: Bytes)
    requires InputSlotOk(e, slot, before, ins, resolved) && k < |slot|
    requires Fingerprint.PinnedByQuery(e) == Some(a)
    ensures slot[k] < |ins| && ResolvedAddress(resolved, ins[slot[k]]) == Some(a)
  {
    assert slot[k] in Elems(slot);
  }

  /** The annotation of an input whose query pins an address shows that address. */
  lemma {:induction false} PinnedInputShown(
      profile: Option<Profile>, profileName: string, txName: string, tx: T.Tx, ctx: CardanoTx,
      resolved: ResolvedInputs, m: MatchAssignment, l: Lifted, j: nat, k: nat, a: Bytes)
    requires MatchSpec(tx, ctx, resolved, m.profileName, m.txName) == Some(m)
    requires LiftedView(profile, profileName, txName, tx, ctx, resolved, m) == Ok(l)
    requires j < |tx.inputs| == |m.inputMap| && k < |m.inputMap[j]|
    requires Fingerprint.PinnedByQuery(tx.inputs[j].utxos) == Some(a)
    ensures Offset(m.inputMap, j) + k < |l.inputs|
    ensures l.inputs[Offset(m.inputMap, j) + k].view.address == a
  {
    hide LiftedView, MatchSpec, Offset;
    LiftLosesNothing(profile, profileName, txName, tx, ctx, resolved, m, l);
    PinnedInputMatched(tx.inputs[j].utxos, m.inputMap[j], Before(m.inputMap, j), ctx.inputs, resolved, k, a);
  }

  lemma {:induction false} PinnedOutputMatched(o: T.Output, slot: seq<nat>, before: set<nat>, outs: seq<TxOutput>,
                                               k: nat, a: Bytes)
    requires OutputSlotOk(o, slot, before, outs) && k < |slot|
    requires Expr.ConstAddress(o.address) == Some(a)
    ensures slot[k] < |outs| && outs[slot[k]].address == Some(a)
  {
  }

  /** The annotation of an output that pins an address shows that address. */
  lemma {:induction false} PinnedOutputShown(
      profile: Option<Profile>, profileName: string, txName: string, tx: T.Tx, ctx: CardanoTx,
      resolved: ResolvedInputs, m: MatchAssignment, l: Lifted, j: nat, k: nat, a: Bytes)
    requires MatchSpec(tx, ctx, resolved, m.profileName, m.txName) == Some(m)
    requires LiftedView(profile, profileName, txName, tx, ctx, resolved, m) == Ok(l)
    requires j < |tx.outputs| == |m.outputMap| && k < |m.outputMap[j]|
    requires Expr.ConstAddress(tx.outputs[j].address) == Some(a)
    ensures Offset(m.outputMap, j) + k < |l.outputs|
    ensures l.outputs[Offset(m.outputMap, j) + k].view.address == a
  {
    hide LiftedView, MatchSpec, Offset;
    LiftLosesNothing(profile, profileName, txName, tx, ctx, resolved, m, l);
    assert OutputAnnotated(ctx.outputs, m.outputMap, l.outputs, j, k);
    PinnedOutputMatched(tx.outputs[j], m.outputMap[j], Before(m.outputMap, j), ctx.outputs, k, a);
  }

  // ----- roles

  /** After a successful lift a party's role is the join of everything credited to it across
      inputs, outputs and signers: absent when there is nothing, multiple when two kinds
      differ. */
  lemma {:induction false} RolesAreJoins(
      profile: Profile, profileName: string, txName: string, tx: T.Tx, ctx: CardanoTx, resolved: ResolvedInputs,
      m: MatchAssignment, l: Lifted, n: string)
    requires LiftedView(Some(profile), profileName, txName, tx, ctx, resolved, m) == Ok(l)
    requires n in profile.parties
    ensures var kinds := Kinds(FreshParties(profile), Sightings(PickedOf(tx, ctx, m), ctx, resolved), n);
      && n in l.parties && l.parties[n].role == Lub(kinds)
      && Some(l.parties[n].address) == profile.parties[n]
      && (l.parties[n].role.Absent? <==> kinds == {})
      && (l.parties[n].role.Multiple? <==> exists k, other :: k in kinds && other in kinds && k != other)
  {
    var obs := Sightings(PickedOf(tx, ctx, m), ctx, resolved);
    var parties := FreshParties(profile);
    forall i | 0 <= i < |obs| ensures IsKind(Kind(obs[i])) {
    }
    RoleIsLub(parties, obs, n);
    CreditKeepsBook(parties, obs);
    LubMeaning(Kinds(parties, obs, n));
  }
}
