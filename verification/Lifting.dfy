/** The annotated view of a matched transaction (crates/tx3-lift-cardano/src/lifting.rs). */
module Lifting {
  import opened Base
  import opened Names
  import opened Profile
  import opened Payload
  import opened Roles
  import opened Greedy
  import T = Tir
  import Datum
  import Matching

  /** The inline datum or the datum hash of an output, as an expression. */
  function TypedDatum(d: DatumOption): T.Expression {
    match d
    case Data(data) => Datum.Decode(data)
    case DatumHash(hash) => T.Hash(hash)
  }

  /** Where an annotation comes from: a named TIR input, or a reference by position. */
  datatype Label = Named(name: string) | RefAt(index: nat)

  /** What an output shows: its address (empty when it does not parse), coins and datum. */
  datatype View = View(address: Bytes, lovelace: nat, datum: Option<T.Expression>)

  datatype InputAnnotation = InputAnnotation(tirInput: Label, utxoRef: UtxoRef, party: Option<string>, view: View)

  datatype OutputAnnotation = OutputAnnotation(tirOutput: nat, party: Option<string>, view: View)

  datatype MintAnnotation = MintAnnotation(tirMint: nat, policy: Bytes, assets: seq<MintAsset>)

  datatype SignerAnnotation = SignerAnnotation(keyHash: Bytes, party: Option<string>)

  datatype Lifted = Lifted(
    txId: Bytes,
    txName: string,
    profileName: string,
    parties: Parties,
    inputs: seq<InputAnnotation>,
    references: seq<InputAnnotation>,
    outputs: seq<OutputAnnotation>,
    mints: seq<MintAnnotation>,
    burns: seq<MintAnnotation>,
    signers: seq<SignerAnnotation>,
    metadata: seq<u64>)

  function ViewOf(o: TxOutput): View {
    View(match o.address case Some(a) => a case None => [], o.lovelace,
         match o.datum case Some(d) => Some(TypedDatum(d)) case None => None)
  }

  const NO_VIEW := View([], 0, None)

  /** An input that was resolved to bytes that do not decode makes lifting fail. */
  predicate Viewable(i: TxInput, resolved: ResolvedInputs) {
    Key(i) in resolved ==> resolved[Key(i)].Decoded?
  }

  function InputView(i: TxInput, resolved: ResolvedInputs): View
    requires Viewable(i, resolved)
  {
    if Key(i) in resolved then ViewOf(resolved[Key(i)].output) else NO_VIEW
  }

  // ----- the slots of an assignment, in order

  datatype Slot = Slot(tir: nat, payload: nat)

  function SlotsAt(j: nat, slots: seq<nat>): seq<Slot> {
    seq(|slots|, k requires 0 <= k < |slots| => Slot(j, slots[k]))
  }

  function Flatten(m: seq<seq<nat>>): seq<Slot> {
    if m == [] then [] else Flatten(m[..|m| - 1]) + SlotsAt(|m| - 1, m[|m| - 1])
  }

  /** The slots that survive the `get(..)` lookups of the loops. */
  function InBounds(slots: seq<Slot>, tirs: nat, entries: nat): seq<Slot> {
    if slots == [] then []
    else
      var s := slots[|slots| - 1];
      InBounds(slots[..|slots| - 1], tirs, entries) + if s.tir < tirs && s.payload < entries then [s] else []
  }

  lemma {:induction false} InBoundsSound(slots: seq<Slot>, tirs: nat, entries: nat)
    ensures forall s | s in InBounds(slots, tirs, entries) :: s.tir < tirs && s.payload < entries
    ensures (forall s | s in slots :: s.tir < tirs && s.payload < entries) ==> InBounds(slots, tirs, entries) == slots
  {
    if slots != [] {
      InBoundsSound(slots[..|slots| - 1], tirs, entries);
      assert slots == slots[..|slots| - 1] + [slots[|slots| - 1]];
    }
  }

  lemma {:induction false} InBoundsAppend(a: seq<Slot>, b: seq<Slot>, tirs: nat, entries: nat)
    ensures InBounds(a + b, tirs, entries) == InBounds(a, tirs, entries) + InBounds(b, tirs, entries)
  {
    if b == [] {
      assert a + b == a;
    } else {
      InBoundsAppend(a, b[..|b| - 1], tirs, entries);
      assert (a + b)[..|a + b| - 1] == a + b[..|b| - 1];
    }
  }

  // ----- annotations, one per slot

  ghost function InputNote(
      s: Slot, source: Label, ins: seq<TxInput>, resolved: ResolvedInputs, parties: Parties): InputAnnotation
    requires s.payload < |ins| && Viewable(ins[s.payload], resolved)
  {
    var view := InputView(ins[s.payload], resolved);
    InputAnnotation(source, Key(ins[s.payload]), Credited(parties, Seen(view.address, Input)), view)
  }

  function ReferenceNote(s: Slot, ins: seq<TxInput>, resolved: ResolvedInputs): InputAnnotation
    requires s.payload < |ins| && Viewable(ins[s.payload], resolved)
  {
    InputAnnotation(RefAt(s.tir), Key(ins[s.payload]), None, InputView(ins[s.payload], resolved))
  }

  ghost function OutputNote(s: Slot, outs: seq<TxOutput>, parties: Parties): OutputAnnotation
    requires s.payload < |outs|
  {
    var view := ViewOf(outs[s.payload]);
    OutputAnnotation(s.tir, Credited(parties, Seen(view.address, Output)), view)
  }

  function MintNote(s: Slot, entries: seq<MintEntry>): MintAnnotation
    requires s.payload < |entries|
  {
    MintAnnotation(s.tir, entries[s.payload].policy, entries[s.payload].assets)
  }

  ghost function SignerNote(keyHash: Bytes, parties: Parties): SignerAnnotation {
    SignerAnnotation(keyHash, Credited(parties, Signed(keyHash)))
  }

  /** Every slot is in range and its input can be viewed. */
  predicate AllViewable(slots: seq<Slot>, ins: seq<TxInput>, resolved: ResolvedInputs) {
    forall s | s in slots :: s.payload < |ins| && Viewable(ins[s.payload], resolved)
  }

  ghost function InputNotes(slots: seq<Slot>, inputs: seq<T.Input>, ins: seq<TxInput>, resolved: ResolvedInputs,
                            parties: Parties): seq<InputAnnotation>
    requires AllViewable(slots, ins, resolved) && forall s | s in slots :: s.tir < |inputs|
  {
    seq(|slots|, i requires 0 <= i < |slots| =>
      InputNote(slots[i], Named(inputs[slots[i].tir].name), ins, resolved, parties))
  }

  function ReferenceNotes(slots: seq<Slot>, ins: seq<TxInput>, resolved: ResolvedInputs): seq<InputAnnotation>
    requires AllViewable(slots, ins, resolved)
  {
    seq(|slots|, i requires 0 <= i < |slots| => ReferenceNote(slots[i], ins, resolved))
  }

  ghost function OutputNotes(slots: seq<Slot>, outs: seq<TxOutput>, parties: Parties): seq<OutputAnnotation>
    requires forall s | s in slots :: s.payload < |outs|
  {
    seq(|slots|, i requires 0 <= i < |slots| => OutputNote(slots[i], outs, parties))
  }

  function MintNotes(slots: seq<Slot>, entries: seq<MintEntry>): seq<MintAnnotation>
    requires forall s | s in slots :: s.payload < |entries|
  {
    seq(|slots|, i requires 0 <= i < |slots| => MintNote(slots[i], entries))
  }

  ghost function SignerNotes(signers: seq<Bytes>, parties: Parties): seq<SignerAnnotation> {
    seq(|signers|, i requires 0 <= i < |signers| => SignerNote(signers[i], parties))
  }

  // ----- what the transaction shows of its parties

  function InputSightings(slots: seq<Slot>, ins: seq<TxInput>, resolved: ResolvedInputs): seq<Observation>
    requires AllViewable(slots, ins, resolved)
  {
    seq(|slots|, i requires 0 <= i < |slots| => Seen(InputView(ins[slots[i].payload], resolved).address, Input))
  }

  function OutputSightings(slots: seq<Slot>, outs: seq<TxOutput>): seq<Observation>
    requires forall s | s in slots :: s.payload < |outs|
  {
    seq(|slots|, i requires 0 <= i < |slots| => Seen(ViewOf(outs[slots[i].payload]).address, Output))
  }

  function Signatures(signers: seq<Bytes>): seq<Observation> {
    seq(|signers|, i requires 0 <= i < |signers| => Signed(signers[i]))
  }

  predicate PartiesDecode(profile: Profile) {
    forall n | n in profile.parties :: profile.parties[n].Some?
  }

  /** The parties of a profile before anything was seen. */
  function FreshParties(profile: Profile): Parties
    requires PartiesDecode(profile)
  {
    map n | n in profile.parties :: PartyAnnotation(n, profile.parties[n].value, Absent)
  }

  /** The slots of an assignment that lifting looks at. */
  datatype Picked = Picked(
    inputs: seq<Slot>, references: seq<Slot>, outputs: seq<Slot>, mints: seq<Slot>, burns: seq<Slot>)

  function PickedOf(tx: T.Tx, ctx: CardanoTx, m: Matching.MatchAssignment): (p: Picked)
    ensures forall s | s in p.inputs :: s.tir < |tx.inputs| && s.payload < |ctx.inputs|
    ensures forall s | s in p.references :: s.payload < |ctx.references|
    ensures forall s | s in p.outputs :: s.payload < |ctx.outputs|
    ensures forall s | s in p.mints :: s.payload < |ctx.mints|
    ensures forall s | s in p.burns :: s.payload < |ctx.mints|
  {
    InBoundsSound(Flatten(m.inputMap), |tx.inputs|, |ctx.inputs|);
    InBoundsSound(Flatten(m.referenceMap), |m.referenceMap|, |ctx.references|);
    InBoundsSound(Flatten(m.outputMap), |m.outputMap|, |ctx.outputs|);
    InBoundsSound(Flatten(m.mintMap), |m.mintMap|, |ctx.mints|);
    InBoundsSound(Flatten(m.burnMap), |m.burnMap|, |ctx.mints|);
    Picked(InBounds(Flatten(m.inputMap), |tx.inputs|, |ctx.inputs|),
           InBounds(Flatten(m.referenceMap), |m.referenceMap|, |ctx.references|),
           InBounds(Flatten(m.outputMap), |m.outputMap|, |ctx.outputs|),
           InBounds(Flatten(m.mintMap), |m.mintMap|, |ctx.mints|),
           InBounds(Flatten(m.burnMap), |m.burnMap|, |ctx.mints|))
  }

  /** Everything the transaction shows of its parties, in the order lifting looks. */
  function Sightings(p: Picked, ctx: CardanoTx, resolved: ResolvedInputs): seq<Observation>
    requires AllViewable(p.inputs, ctx.inputs, resolved)
    requires forall s | s in p.outputs :: s.payload < |ctx.outputs|
  {
    InputSightings(p.inputs, ctx.inputs, resolved) + OutputSightings(p.outputs, ctx.outputs) + Signatures(ctx.signers)
  }

  ghost function LiftedView(profile: Option<Profile>, profileName: string, txName: string, tx: T.Tx, ctx: CardanoTx,
                            resolved: ResolvedInputs, m: Matching.MatchAssignment): Result<Lifted>
  {
    var p := PickedOf(tx, ctx, m);
    if profile.None? then Err(UnknownProfile)
    else if !PartiesDecode(profile.value) then Err(InvalidAddress)
    else if !AllViewable(p.inputs, ctx.inputs, resolved) || !AllViewable(p.references, ctx.references, resolved) then
      Err(PallasDecode)
    else
      var parties := FreshParties(profile.value);
      Ok(Lifted(
        ctx.hash, txName, profileName,
        CreditAll(parties, Sightings(p, ctx, resolved)),
        InputNotes(p.inputs, tx.inputs, ctx.inputs, resolved, parties),
        ReferenceNotes(p.references, ctx.references, resolved),
        OutputNotes(p.outputs, ctx.outputs, parties),
        MintNotes(p.mints, ctx.mints),
        MintNotes(p.burns, ctx.mints),
        SignerNotes(ctx.signers, parties),
        ctx.metadataLabels))
  }

  // ----- the loops

  lemma {:induction false} FlattenStep(m: seq<seq<nat>>, j: nat)
    requires j < |m|
    ensures Flatten(m[..j + 1]) == Flatten(m[..j]) + SlotsAt(j, m[j])
  {
    assert m[..j + 1][..j] == m[..j];
  }

  lemma {:induction false} InBoundsStep(j: nat, slots: seq<nat>, k: nat, tirs: nat, entries: nat)
    requires k < |slots| && j < tirs
    ensures InBounds(SlotsAt(j, slots)[..k + 1], tirs, entries) ==
      InBounds(SlotsAt(j, slots)[..k], tirs, entries) + if slots[k] < entries then [Slot(j, slots[k])] else []
  {
    assert SlotsAt(j, slots)[..k + 1][..k] == SlotsAt(j, slots)[..k];
  }

  /** The nested loops over an assignment map with their two lookups. */
  method CollectSlots(m: seq<seq<nat>>, tirs: nat, entries: nat) returns (slots: seq<Slot>)
    ensures slots == InBounds(Flatten(m), tirs, entries)
  {
    slots := [];
    NoneInBounds(m, tirs, entries);
    hide Flatten, InBounds;
    for j := 0 to |m|
      invariant slots == InBounds(Flatten(m[..j]), tirs, entries)
    {
      FlattenStep(m, j);
      InBoundsAppend(Flatten(m[..j]), SlotsAt(j, m[j]), tirs, entries);
      ghost var before := slots;
      NoSlotInBounds(j, m[j], tirs, entries);
      if j >= tirs {
        NothingInBounds(j, m[j], tirs, entries);
        continue;
      }
      for k := 0 to |m[j]|
        invariant slots == before + InBounds(SlotsAt(j, m[j])[..k], tirs, entries)
      {
        InBoundsStep(j, m[j], k, tirs, entries);
        if m[j][k] < entries {
          slots := slots + [Slot(j, m[j][k])];
        }
      }
      assert SlotsAt(j, m[j])[..|m[j]|] == SlotsAt(j, m[j]);
    }
    assert m[..|m|] == m;
  }

  lemma {:induction false} NoneInBounds(m: seq<seq<nat>>, tirs: nat, entries: nat)
    ensures InBounds(Flatten(m[..0]), tirs, entries) == []
  {
  }

  lemma {:induction false} NoSlotInBounds(j: nat, slots: seq<nat>, tirs: nat, entries: nat)
    ensures InBounds(SlotsAt(j, slots)[..0], tirs, entries) == []
  {
  }

  lemma {:induction false} NothingInBounds(j: nat, slots: seq<nat>, tirs: nat, entries: nat)
    requires j >= tirs
    ensures InBounds(SlotsAt(j, slots), tirs, entries) == []
  {
    if slots != [] {
      NothingInBounds(j, slots[..|slots| - 1], tirs, entries);
      assert SlotsAt(j, slots)[..|slots| - 1] == SlotsAt(j, slots[..|slots| - 1]);
    }
  }

  lemma {:induction false} InputNotesStep(
      slots: seq<Slot>, i: nat, inputs: seq<T.Input>, ins: seq<TxInput>, resolved: ResolvedInputs, parties: Parties)
    requires i < |slots| && forall s | s in slots :: s.tir < |inputs| && s.payload < |ins|
    requires AllViewable(slots[..i], ins, resolved) && Viewable(ins[slots[i].payload], resolved)
    ensures slots[i] in slots && AllViewable(slots[..i + 1], ins, resolved)
    ensures InputNotes(slots[..i + 1], inputs, ins, resolved, parties) ==
      InputNotes(slots[..i], inputs, ins, resolved, parties) +
      [InputNote(slots[i], Named(inputs[slots[i].tir].name), ins, resolved, parties)]
    ensures InputSightings(slots[..i + 1], ins, resolved)[..i] == InputSightings(slots[..i], ins, resolved)
    ensures InputSightings(slots[..i + 1], ins, resolved)[i] ==
      Seen(InputView(ins[slots[i].payload], resolved).address, Input)
  {
    hide InputNote, InputView;
    assert slots[..i + 1] == slots[..i] + [slots[i]];
  }

  method LiftInputs(
      slots: seq<Slot>, inputs: seq<T.Input>, ins: seq<TxInput>, resolved: ResolvedInputs, parties0: Parties)
    returns (r: Result<seq<InputAnnotation>>, parties: Parties)
    requires forall s | s in slots :: s.tir < |inputs| && s.payload < |ins|
    ensures r.Ok? <==> AllViewable(slots, ins, resolved)
    ensures r.Err? ==> r == Err(PallasDecode)
    ensures r.Ok? ==> r.value == InputNotes(slots, inputs, ins, resolved, parties0)
    ensures r.Ok? ==> parties == CreditAll(parties0, InputSightings(slots, ins, resolved))
  {
    hide TypedDatum;
    parties := parties0;
    var out: seq<InputAnnotation> := [];
    assert InputNotes(slots[..0], inputs, ins, resolved, parties0) == [];
    assert InputSightings(slots[..0], ins, resolved) == [];
    hide InputNotes, InputSightings;
    for i := 0 to |slots|
      invariant AllViewable(slots[..i], ins, resolved)
      invariant out == InputNotes(slots[..i], inputs, ins, resolved, parties0)
      invariant parties == CreditAll(parties0, InputSightings(slots[..i], ins, resolved))
    {
      var s := slots[i];
      assert s in slots;
      var input := ins[s.payload];
      if Key(input) in resolved && resolved[Key(input)].Undecodable? {
        return Err(PallasDecode), parties;
      }
      InputNotesStep(slots, i, inputs, ins, resolved, parties0);
      var view := InputView(input, resolved);
      CreditKeepsBook(parties0, InputSightings(slots[..i], ins, resolved));
      SameBookCredits(parties0, parties, Seen(view.address, Input));
      var party, after := MatchParty(view.address, parties, Input);
      parties := after;
      out := out + [InputAnnotation(Named(inputs[s.tir].name), Key(input), party, view)];
    }
    assert slots[..|slots|] == slots;
    return Ok(out), parties;
  }

  method LiftReferences(slots: seq<Slot>, ins: seq<TxInput>, resolved: ResolvedInputs)
    returns (r: Result<seq<InputAnnotation>>)
    requires forall s | s in slots :: s.payload < |ins|
    ensures r.Ok? <==> AllViewable(slots, ins, resolved)
    ensures r.Err? ==> r == Err(PallasDecode)
    ensures r.Ok? ==> r.value == ReferenceNotes(slots, ins, resolved)
  {
    var out: seq<InputAnnotation> := [];
    for i := 0 to |slots|
      invariant AllViewable(slots[..i], ins, resolved)
      invariant out == ReferenceNotes(slots[..i], ins, resolved)
    {
      var s := slots[i];
      assert s in slots;
      assert slots[..i + 1] == slots[..i] + [s];
      var input := ins[s.payload];
      if Key(input) in resolved && resolved[Key(input)].Undecodable? {
        return Err(PallasDecode);
      }
      out := out + [ReferenceNote(s, ins, resolved)];
    }
    assert slots[..|slots|] == slots;
    return Ok(out);
  }

  lemma {:induction false} OutputNotesStep(slots: seq<Slot>, i: nat, outs: seq<TxOutput>, parties: Parties)
    requires i < |slots| && forall s | s in slots :: s.payload < |outs|
    ensures slots[i] in slots
    ensures OutputNotes(slots[..i + 1], outs, parties) ==
      OutputNotes(slots[..i], outs, parties) + [OutputNote(slots[i], outs, parties)]
    ensures OutputSightings(slots[..i + 1], outs)[..i] == OutputSightings(slots[..i], outs)
    ensures |OutputSightings(slots[..i + 1], outs)| == i + 1
    ensures OutputSightings(slots[..i + 1], outs)[i] == Seen(ViewOf(outs[slots[i].payload]).address, Output)
  {
    hide OutputNote, ViewOf;
    assert slots[..i + 1] == slots[..i] + [slots[i]];
  }

  method LiftOutputs(slots: seq<Slot>, outs: seq<TxOutput>, parties0: Parties)
    returns (out: seq<OutputAnnotation>, parties: Parties)
    requires forall s | s in slots :: s.payload < |outs|
    ensures out == OutputNotes(slots, outs, parties0)
    ensures parties == CreditAll(parties0, OutputSightings(slots, outs))
  {
    hide TypedDatum;
    parties, out := parties0, [];
    assert OutputNotes(slots[..0], outs, parties0) == [] && OutputSightings(slots[..0], outs) == [];
    hide OutputNotes, OutputSightings;
    for i := 0 to |slots|
      invariant out == OutputNotes(slots[..i], outs, parties0)
      invariant parties == CreditAll(parties0, OutputSightings(slots[..i], outs))
    {
      var s := slots[i];
      OutputNotesStep(slots, i, outs, parties0);
      var view := ViewOf(outs[s.payload]);
      CreditKeepsBook(parties0, OutputSightings(slots[..i], outs));
      SameBookCredits(parties0, parties, Seen(view.address, Output));
      var party, after := MatchParty(view.address, parties, Output);
      parties := after;
      out := out + [OutputAnnotation(s.tir, party, view)];
    }
    assert slots[..|slots|] == slots;
  }

  method LiftMints(slots: seq<Slot>, entries: seq<MintEntry>) returns (out: seq<MintAnnotation>)
    requires forall s | s in slots :: s.payload < |entries|
    ensures out == MintNotes(slots, entries)
  {
    out := [];
    for i := 0 to |slots|
      invariant out == MintNotes(slots[..i], entries)
    {
      assert slots[i] in slots;
      assert slots[..i + 1] == slots[..i] + [slots[i]];
      out := out + [MintNote(slots[i], entries)];
    }
    assert slots[..|slots|] == slots;
  }

  method LiftSigners(signers: seq<Bytes>, parties: Parties) returns (out: seq<SignerAnnotation>)
    ensures out == SignerNotes(signers, parties)
  {
    out := [];
    for i := 0 to |signers|
      invariant out == SignerNotes(signers[..i], parties)
    {
      assert signers[..i + 1] == signers[..i] + [signers[i]];
      var party := FindParty(parties, Signed(signers[i]));
      out := out + [SignerAnnotation(signers[i], party)];
    }
    assert signers[..|signers|] == signers;
  }

  method UpdateSignerPartyRoles(
      signers: seq<Bytes>, notes: seq<SignerAnnotation>, parties0: Parties) returns (parties: Parties)
    requires notes == SignerNotes(signers, parties0)
    ensures parties == CreditAll(parties0, Signatures(signers))
  {
    parties := parties0;
    for i := 0 to |notes|
      invariant parties == CreditAll(parties0, Signatures(signers)[..i])
    {
      var obs := Signatures(signers);
      CreditKeepsBook(parties0, obs[..i]);
      SameBookCredits(parties0, parties, obs[i]);
      assert obs[..i + 1][..i] == obs[..i];
      var party := notes[i].party;
      if party.Some? && party.value in parties {
        parties := WithRole(parties, party.value, Signer);
      }
    }
    assert Signatures(signers)[..|notes|] == Signatures(signers);
  }

  method InitialParties(profile: Profile) returns (r: Result<Parties>)
    ensures r == if PartiesDecode(profile) then Ok(FreshParties(profile)) else Err(InvalidAddress)
  {
    var names := SortedNames(profile.parties.Keys);
    var parties: Parties := map[];
    for i := 0 to |names|
      invariant forall j | 0 <= j < i :: profile.parties[names[j]].Some?
      invariant parties == map n | n in names[..i] :: PartyAnnotation(n, profile.parties[n].value, Absent)
    {
      var decoded := profile.parties[names[i]];
      if decoded.None? {
        return Err(InvalidAddress);
      }
      parties := parties[names[i] := PartyAnnotation(names[i], decoded.value, Absent)];
      assert names[..i + 1] == names[..i] + [names[i]];
    }
    assert names[..|names|] == names;
    assert forall n :: n in profile.parties <==> n in names;
    assert PartiesDecode(profile);
    assert parties == FreshParties(profile);
    return Ok(parties);
  }

  lemma {:induction false} OutputsCreditAlike(p: Parties, q: Parties, slots: seq<Slot>, outs: seq<TxOutput>)
    requires SameBook(p, q) && forall s | s in slots :: s.payload < |outs|
    ensures OutputNotes(slots, outs, p) == OutputNotes(slots, outs, q)
  {
    forall i | 0 <= i < |slots| ensures OutputNote(slots[i], outs, p) == OutputNote(slots[i], outs, q) {
      SameBookCredits(p, q, Seen(ViewOf(outs[slots[i].payload]).address, Output));
    }
  }

  lemma {:induction false} SignersCreditAlike(p: Parties, q: Parties, signers: seq<Bytes>)
    requires SameBook(p, q)
    ensures SignerNotes(signers, p) == SignerNotes(signers, q)
  {
    forall i | 0 <= i < |signers| ensures SignerNote(signers[i], p) == SignerNote(signers[i], q) {
      SameBookCredits(p, q, Signed(signers[i]));
    }
  }

  method Lift(profile: Option<Profile>, profileName: string, txName: string, tx: T.Tx, payload: CardanoPayload,
              m: Matching.MatchAssignment) returns (r: Result<Lifted>)
    ensures payload.parsed.None? ==> r == Err(PallasDecode)
    ensures payload.parsed.Some? ==>
      r == LiftedView(profile, profileName, txName, tx, payload.parsed.value, payload.resolved, m)
  {
    if payload.parsed.None? {
      return Err(PallasDecode);
    }
    var ctx, resolved := payload.parsed.value, payload.resolved;
    if profile.None? {
      return Err(UnknownProfile);
    }
    var initial := InitialParties(profile.value);
    if initial.Err? {
      return Err(InvalidAddress);
    }
    ghost var p := PickedOf(tx, ctx, m);
    ghost var start := initial.value;
    var inputSlots := CollectSlots(m.inputMap, |tx.inputs|, |ctx.inputs|);
    var inputs, parties := LiftInputs(inputSlots, tx.inputs, ctx.inputs, resolved, initial.value);
    if inputs.Err? {
      return Err(PallasDecode);
    }
    var referenceSlots := CollectSlots(m.referenceMap, |m.referenceMap|, |ctx.references|);
    var references := LiftReferences(referenceSlots, ctx.references, resolved);
    if references.Err? {
      return Err(PallasDecode);
    }
    ghost var seenInputs := InputSightings(inputSlots, ctx.inputs, resolved);
    CreditKeepsBook(start, seenInputs);
    var outputSlots := CollectSlots(m.outputMap, |m.outputMap|, |ctx.outputs|);
    ghost var seenOutputs := OutputSightings(outputSlots, ctx.outputs);
    OutputsCreditAlike(start, parties, outputSlots, ctx.outputs);
    var outputs, afterOutputs := LiftOutputs(outputSlots, ctx.outputs, parties);
    CreditAppend(start, seenInputs, seenOutputs);
    CreditKeepsBook(start, seenInputs + seenOutputs);
    var mintSlots := CollectSlots(m.mintMap, |m.mintMap|, |ctx.mints|);
    var mints := LiftMints(mintSlots, ctx.mints);
    var burnSlots := CollectSlots(m.burnMap, |m.burnMap|, |ctx.mints|);
    var burns := LiftMints(burnSlots, ctx.mints);
    SignersCreditAlike(start, afterOutputs, ctx.signers);
    var signers := LiftSigners(ctx.signers, afterOutputs);
    var afterSigners := UpdateSignerPartyRoles(ctx.signers, signers, afterOutputs);
    CreditAppend(start, seenInputs + seenOutputs, Signatures(ctx.signers));
    return Ok(Lifted(ctx.hash, txName, profileName, afterSigners, inputs.value, references.value, outputs, mints, burns,
                     signers, ctx.metadataLabels));
  }
}
