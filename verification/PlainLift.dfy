/** What the annotations of a lift show, in terms of the transaction. */
module PlainLift {
  // Neither the views nor the credits of the lifter are named in these statements.

  import opened Base
  import opened Names
  import opened Profile
  import opened Payload
  import opened Roles
  import opened Matching
  import opened MatchLaws
  import opened PlainMatch
  import opened Lifting
  import opened LiftLaws
  import Datum
  import T = Tir

  // ----- what an output shows

  /** No datum without one; inline data as an expression that encodes it, up to what decoding
      forgets; a datum hash as that hash. */
  ghost predicate ShowsDatum(shown: Option<T.Expression>, d: Option<DatumOption>) {
    match d
    case None => shown == None
    case Some(Data(data)) => shown.Some? && Datum.Encode(shown.value) == Some(Datum.Canon(data))
    case Some(DatumHash(hash)) => shown == Some(T.Hash(hash))
  }

  ghost predicate ShowsOutput(v: View, o: TxOutput) {
    && v.address == (if o.address.Some? then o.address.value else [])
    && v.lovelace == o.lovelace
    && ShowsDatum(v.datum, o.datum)
  }

  /** The output it spends, if that was delivered, and nothing otherwise. */
  ghost predicate ShowsInput(v: View, i: TxInput, resolved: ResolvedInputs) {
    && (forall r | r in resolved && Spends(i, r) :: resolved[r].Decoded? && ShowsOutput(v, resolved[r].output))
    && ((forall r | r in resolved :: !Spends(i, r)) ==> v.address == [] && v.lovelace == 0 && v.datum == None)
  }

  lemma {:induction false} ViewShows(o: TxOutput)
    ensures ShowsOutput(ViewOf(o), o)
  {
    if o.datum.Some? && o.datum.value.Data? { Datum.EncodeDecode(o.datum.value.data); }
  }

  lemma {:induction false} InputViewShows(i: TxInput, resolved: ResolvedInputs)
    requires Viewable(i, resolved)
    ensures ShowsInput(InputView(i, resolved), i, resolved)
  {
    forall r ensures Key(i) == r <==> Spends(i, r) { KeyIsSpent(i, r); }
    hide Spends, Key, ShowsOutput, ViewOf;
    if Key(i) in resolved { ViewShows(resolved[Key(i)].output); }
    assert Key(i) == Key(i);
  }

  /** The output that it spends was not delivered in a form that does not decode. */
  ghost predicate Delivered(i: TxInput, resolved: ResolvedInputs) {
    forall r | r in resolved && Spends(i, r) :: resolved[r] != Undecodable
  }

  lemma {:induction false} ViewableIsDelivered(i: TxInput, resolved: ResolvedInputs)
    ensures Viewable(i, resolved) <==> Delivered(i, resolved)
  {
    forall r ensures Key(i) == r <==> Spends(i, r) { KeyIsSpent(i, r); }
    hide Spends, Key;
    assert Key(i) == Key(i);
  }

  ghost predicate SlotsDelivered(m: seq<seq<nat>>, ins: seq<TxInput>, resolved: ResolvedInputs) {
    forall j: nat, k: nat | j < |m| && k < |m[j]| && m[j][k] < |ins| :: Delivered(ins[m[j][k]], resolved)
  }

  lemma {:induction false} FlattenFrom(m: seq<seq<nat>>, s: Slot) returns (j: nat, k: nat)
    requires s in Flatten(m)
    ensures j < |m| && k < |m[j]| && s == Slot(j, m[j][k])
  {
    var n := |m| - 1;
    if s in Flatten(m[..n]) {
      j, k := FlattenFrom(m[..n], s);
    } else {
      j := n;
      k :| k < |m[n]| && SlotsAt(n, m[n])[k] == s;
    }
  }

  lemma {:induction false} AllViewableIsDelivered(m: seq<seq<nat>>, ins: seq<TxInput>, resolved: ResolvedInputs)
    requires InRange(m, |ins|)
    ensures AllViewable(Flatten(m), ins, resolved) <==> SlotsDelivered(m, ins, resolved)
  {
    forall i: nat | i < |ins| ensures Viewable(ins[i], resolved) <==> Delivered(ins[i], resolved) {
      ViewableIsDelivered(ins[i], resolved);
    }
    hide Viewable, Delivered;
    if SlotsDelivered(m, ins, resolved) {
      forall s | s in Flatten(m) ensures s.payload < |ins| && Viewable(ins[s.payload], resolved) {
        var j, k := FlattenFrom(m, s);
      }
    }
    if AllViewable(Flatten(m), ins, resolved) {
      forall j: nat, k: nat | j < |m| && k < |m[j]| ensures Slot(j, m[j][k]) in Flatten(m) { FlattenAt(m, j, k); }
    }
  }

  // ----- who is shown with it

  /** The observation is of that address: it was seen, or it has the key hash in it, after at
      least one other byte's room. */
  ghost predicate IsOf(o: Observation, address: Bytes) {
    match o
    case Seen(a, _) => a == address
    case Signed(hash) => |address| > |hash| && exists i: nat :: OccursAt(hash, address, i)
  }

  ghost predicate OccursAt(part: Bytes, whole: Bytes, i: nat) {
    i + |part| <= |whole| && whole[i..i + |part|] == part
  }

  lemma {:induction false} PointsIsOf(o: Observation, address: Bytes)
    ensures PointsAt(o, address) <==> IsOf(o, address)
  {
    if o.Signed? && |address| >= 1 + |o.keyHash| {
      var hash, windows := o.keyHash, Windows(address, |o.keyHash|);
      if hash in windows {
        var i: nat :| i < |windows| && windows[i] == hash;
        assert OccursAt(hash, address, i);
      }
      if i: nat :| OccursAt(hash, address, i) { assert windows[i] == hash; }
    }
  }

  /** The first party in the alphabet whose address it is; none if there is no such party. */
  ghost predicate IsFirstParty(parties: map<string, Option<Bytes>>, o: Observation, party: Option<string>) {
    match party
    case None => forall n | n in parties && parties[n].Some? :: !IsOf(o, parties[n].value)
    case Some(n) =>
      && n in parties && parties[n].Some? && IsOf(o, parties[n].value)
      && forall l | l in parties && l != n && parties[l].Some? && IsOf(o, parties[l].value) :: Alphabetical(n, l)
  }

  lemma {:induction false} CreditIsFirst(profile: Profile, o: Observation)
    requires PartiesDecode(profile)
    ensures IsFirstParty(profile.parties, o, Credited(FreshParties(profile), o))
  {
    var parties := FreshParties(profile);
    forall n | n in parties ensures PointsAt(o, parties[n].address) <==> IsOf(o, profile.parties[n].value) {
      PointsIsOf(o, parties[n].address);
    }
    hide IsOf, PointsAt;
    assert forall n :: n in Candidates(parties, o) <==> n in parties && IsOf(o, profile.parties[n].value);
    var credited := Credited(parties, o);
    if credited.Some? {
      forall l | l in parties && l != credited.value && IsOf(o, profile.parties[l].value)
        ensures Alphabetical(credited.value, l)
      {
        LessIsAlphabetical(credited.value, l);
      }
    }
  }

  // ----- what a lift shows

  ghost predicate InputShown(
      profile: Profile, ins: seq<TxInput>, resolved: ResolvedInputs, a: InputAnnotation, i: nat)
    requires i < |ins|
  {
    && Spends(ins[i], a.utxoRef)
    && ShowsInput(a.view, ins[i], resolved)
    && IsFirstParty(profile.parties, Seen(a.view.address, Input), a.party)
  }

  ghost predicate ReferenceShown(ins: seq<TxInput>, resolved: ResolvedInputs, a: InputAnnotation, i: nat)
    requires i < |ins|
  {
    Spends(ins[i], a.utxoRef) && ShowsInput(a.view, ins[i], resolved) && a.party == None
  }

  ghost predicate OutputShown(profile: Profile, outs: seq<TxOutput>, a: OutputAnnotation, i: nat)
    requires i < |outs|
  {
    ShowsOutput(a.view, outs[i]) && IsFirstParty(profile.parties, Seen(a.view.address, Output), a.party)
  }

  ghost predicate SignerShown(profile: Profile, keyHash: Bytes, a: SignerAnnotation) {
    a.keyHash == keyHash && IsFirstParty(profile.parties, Signed(keyHash), a.party)
  }

  ghost predicate InputsShow(
      profile: Profile, ins: seq<TxInput>, resolved: ResolvedInputs, m: seq<seq<nat>>, notes: seq<InputAnnotation>)
  {
    forall j: nat, k: nat | j < |m| && k < |m[j]| ::
      Offset(m, j) + k < |notes| && m[j][k] < |ins| &&
      InputShown(profile, ins, resolved, notes[Offset(m, j) + k], m[j][k])
  }

  ghost predicate ReferencesShow(
      ins: seq<TxInput>, resolved: ResolvedInputs, m: seq<seq<nat>>, notes: seq<InputAnnotation>)
  {
    forall j: nat, k: nat | j < |m| && k < |m[j]| ::
      Offset(m, j) + k < |notes| && m[j][k] < |ins| && ReferenceShown(ins, resolved, notes[Offset(m, j) + k], m[j][k])
  }

  ghost predicate OutputsShow(
      profile: Profile, outs: seq<TxOutput>, m: seq<seq<nat>>, notes: seq<OutputAnnotation>)
  {
    forall j: nat, k: nat | j < |m| && k < |m[j]| ::
      Offset(m, j) + k < |notes| && m[j][k] < |outs| && OutputShown(profile, outs, notes[Offset(m, j) + k], m[j][k])
  }

  ghost predicate SignersShow(profile: Profile, signers: seq<Bytes>, notes: seq<SignerAnnotation>) {
    |notes| == |signers| && forall i | 0 <= i < |notes| :: SignerShown(profile, signers[i], notes[i])
  }

  /** Every annotation shows the part of the transaction at its slot, field by field, and with it
      the first party whose address that is. */
  ghost predicate ShowsParts(
      profile: Profile, ctx: CardanoTx, resolved: ResolvedInputs, m: MatchAssignment, l: Lifted)
  {
    && InputsShow(profile, ctx.inputs, resolved, m.inputMap, l.inputs)
    && ReferencesShow(ctx.references, resolved, m.referenceMap, l.references)
    && OutputsShow(profile, ctx.outputs, m.outputMap, l.outputs)
    && SignersShow(profile, ctx.signers, l.signers)
    && l.metadata == ctx.metadataLabels
  }

  lemma {:induction false} InputNoteShown(
      profile: Profile, s: Slot, source: Label, ins: seq<TxInput>, resolved: ResolvedInputs)
    requires PartiesDecode(profile) && s.payload < |ins| && Viewable(ins[s.payload], resolved)
    ensures InputShown(profile, ins, resolved, InputNote(s, source, ins, resolved, FreshParties(profile)), s.payload)
  {
    KeyIsSpent(ins[s.payload], Key(ins[s.payload]));
    InputViewShows(ins[s.payload], resolved);
    CreditIsFirst(profile, Seen(InputView(ins[s.payload], resolved).address, Input));
  }

  lemma {:induction false} ReferenceNoteShown(s: Slot, ins: seq<TxInput>, resolved: ResolvedInputs)
    requires s.payload < |ins| && Viewable(ins[s.payload], resolved)
    ensures ReferenceShown(ins, resolved, ReferenceNote(s, ins, resolved), s.payload)
  {
    KeyIsSpent(ins[s.payload], Key(ins[s.payload]));
    InputViewShows(ins[s.payload], resolved);
  }

  lemma {:induction false} OutputNoteShown(profile: Profile, s: Slot, outs: seq<TxOutput>)
    requires PartiesDecode(profile) && s.payload < |outs|
    ensures OutputShown(profile, outs, OutputNote(s, outs, FreshParties(profile)), s.payload)
  {
    ViewShows(outs[s.payload]);
    CreditIsFirst(profile, Seen(ViewOf(outs[s.payload]).address, Output));
  }

  lemma {:induction false} InputShownAt(
      profile: Profile, inputs: seq<T.Input>, ins: seq<TxInput>, resolved: ResolvedInputs, m: seq<seq<nat>>, j: nat,
      k: nat)
    requires PartiesDecode(profile) && |m| == |inputs| && j < |m| && k < |m[j]|
    requires AllViewable(Flatten(m), ins, resolved) && forall s | s in Flatten(m) :: s.tir < |inputs|
    ensures var notes := InputNotes(Flatten(m), inputs, ins, resolved, FreshParties(profile));
      Offset(m, j) + k < |notes| && m[j][k] < |ins| &&
      InputShown(profile, ins, resolved, notes[Offset(m, j) + k], m[j][k])
  {
    FlattenAt(m, j, k);
    var s := Flatten(m)[Offset(m, j) + k];
    assert s in Flatten(m);
    hide InputShown, InputNote, Flatten, Offset, FreshParties;
    InputNoteShown(profile, s, Named(inputs[j].name), ins, resolved);
  }

  lemma {:induction false} InputsShown(
      profile: Profile, inputs: seq<T.Input>, ins: seq<TxInput>, resolved: ResolvedInputs, m: seq<seq<nat>>)
    requires PartiesDecode(profile) && |m| == |inputs|
    requires AllViewable(Flatten(m), ins, resolved) && forall s | s in Flatten(m) :: s.tir < |inputs|
    ensures InputsShow(profile, ins, resolved, m, InputNotes(Flatten(m), inputs, ins, resolved, FreshParties(profile)))
  {
    hide InputShown, InputNotes, Flatten, Offset, FreshParties, AllViewable;
    forall j: nat, k: nat | j < |m| && k < |m[j]|
      ensures var notes := InputNotes(Flatten(m), inputs, ins, resolved, FreshParties(profile));
        Offset(m, j) + k < |notes| && m[j][k] < |ins| &&
        InputShown(profile, ins, resolved, notes[Offset(m, j) + k], m[j][k])
    {
      InputShownAt(profile, inputs, ins, resolved, m, j, k);
    }
  }

  lemma {:induction false} ReferenceShownAt(
      ins: seq<TxInput>, resolved: ResolvedInputs, m: seq<seq<nat>>, j: nat, k: nat)
    requires AllViewable(Flatten(m), ins, resolved) && j < |m| && k < |m[j]|
    ensures var notes := ReferenceNotes(Flatten(m), ins, resolved);
      Offset(m, j) + k < |notes| && m[j][k] < |ins| && ReferenceShown(ins, resolved, notes[Offset(m, j) + k], m[j][k])
  {
    FlattenAt(m, j, k);
    var s := Flatten(m)[Offset(m, j) + k];
    assert s in Flatten(m);
    hide ReferenceShown, ReferenceNote, Flatten, Offset;
    ReferenceNoteShown(s, ins, resolved);
  }

  lemma {:induction false} ReferencesShown(ins: seq<TxInput>, resolved: ResolvedInputs, m: seq<seq<nat>>)
    requires AllViewable(Flatten(m), ins, resolved)
    ensures ReferencesShow(ins, resolved, m, ReferenceNotes(Flatten(m), ins, resolved))
  {
    hide ReferenceShown, ReferenceNotes, Flatten, Offset, AllViewable;
    forall j: nat, k: nat | j < |m| && k < |m[j]|
      ensures var notes := ReferenceNotes(Flatten(m), ins, resolved);
        Offset(m, j) + k < |notes| && m[j][k] < |ins| && ReferenceShown(ins, resolved, notes[Offset(m, j) + k], m[j][k])
    {
      ReferenceShownAt(ins, resolved, m, j, k);
    }
  }

  lemma {:induction false} OutputShownAt(profile: Profile, outs: seq<TxOutput>, m: seq<seq<nat>>, j: nat, k: nat)
    requires PartiesDecode(profile) && j < |m| && k < |m[j]| && forall s | s in Flatten(m) :: s.payload < |outs|
    ensures var notes := OutputNotes(Flatten(m), outs, FreshParties(profile));
      Offset(m, j) + k < |notes| && m[j][k] < |outs| && OutputShown(profile, outs, notes[Offset(m, j) + k], m[j][k])
  {
    FlattenAt(m, j, k);
    var s := Flatten(m)[Offset(m, j) + k];
    assert s in Flatten(m);
    hide OutputShown, OutputNote, Flatten, Offset, FreshParties;
    OutputNoteShown(profile, s, outs);
  }

  lemma {:induction false} OutputsShown(profile: Profile, outs: seq<TxOutput>, m: seq<seq<nat>>)
    requires PartiesDecode(profile) && forall s | s in Flatten(m) :: s.payload < |outs|
    ensures OutputsShow(profile, outs, m, OutputNotes(Flatten(m), outs, FreshParties(profile)))
  {
    hide OutputShown, OutputNotes, Flatten, Offset, FreshParties;
    forall j: nat, k: nat | j < |m| && k < |m[j]|
      ensures var notes := OutputNotes(Flatten(m), outs, FreshParties(profile));
        Offset(m, j) + k < |notes| && m[j][k] < |outs| && OutputShown(profile, outs, notes[Offset(m, j) + k], m[j][k])
    {
      OutputShownAt(profile, outs, m, j, k);
    }
  }

  lemma {:induction false} SignersShown(profile: Profile, signers: seq<Bytes>)
    requires PartiesDecode(profile)
    ensures SignersShow(profile, signers, SignerNotes(signers, FreshParties(profile)))
  {
    forall i | 0 <= i < |signers|
      ensures SignerShown(profile, signers[i], SignerNote(signers[i], FreshParties(profile)))
    {
      CreditIsFirst(profile, Signed(signers[i]));
    }
  }

  lemma {:induction false} LiftShowsParts(
      profile: Profile, profileName: string, txName: string, tx: T.Tx, ctx: CardanoTx, resolved: ResolvedInputs,
      m: MatchAssignment, l: Lifted)
    requires MatchSpec(tx, ctx, resolved, m.profileName, m.txName) == Some(m)
    requires LiftedView(Some(profile), profileName, txName, tx, ctx, resolved, m) == Ok(l)
    ensures ShowsParts(profile, ctx, resolved, m, l)
  {
    hide *;
    MatchIsSound(tx, ctx, resolved, m.profileName, m.txName);
    LiftParts(profile, profileName, txName, tx, ctx, resolved, m, l);
    InputsShown(profile, tx.inputs, ctx.inputs, resolved, m.inputMap);
    ReferencesShown(ctx.references, resolved, m.referenceMap);
    OutputsShown(profile, ctx.outputs, m.outputMap);
    SignersShown(profile, ctx.signers);
    PartsTogether(profile, ctx, resolved, m, l);
  }

  lemma {:induction false} LiftParts(
      profile: Profile, profileName: string, txName: string, tx: T.Tx, ctx: CardanoTx, resolved: ResolvedInputs,
      m: MatchAssignment, l: Lifted)
    requires Sound(tx, ctx, resolved, m)
    requires LiftedView(Some(profile), profileName, txName, tx, ctx, resolved, m) == Ok(l)
    ensures PartiesDecode(profile) && |m.inputMap| == |tx.inputs|
    ensures AllViewable(Flatten(m.inputMap), ctx.inputs, resolved)
    ensures AllViewable(Flatten(m.referenceMap), ctx.references, resolved)
    ensures forall s | s in Flatten(m.inputMap) :: s.tir < |tx.inputs|
    ensures forall s | s in Flatten(m.outputMap) :: s.payload < |ctx.outputs|
    ensures l.inputs == InputNotes(Flatten(m.inputMap), tx.inputs, ctx.inputs, resolved, FreshParties(profile))
    ensures l.references == ReferenceNotes(Flatten(m.referenceMap), ctx.references, resolved)
    ensures l.outputs == OutputNotes(Flatten(m.outputMap), ctx.outputs, FreshParties(profile))
    ensures l.signers == SignerNotes(ctx.signers, FreshParties(profile))
    ensures l.metadata == ctx.metadataLabels
  {
    PickedIsAll(tx, ctx, m, resolved);
    hide PickedOf, InputNotes, ReferenceNotes, OutputNotes, SignerNotes, CreditAll, MintNotes, Flatten;
  }

  lemma {:induction false} PartsTogether(
      profile: Profile, ctx: CardanoTx, resolved: ResolvedInputs, m: MatchAssignment, l: Lifted)
    requires InputsShow(profile, ctx.inputs, resolved, m.inputMap, l.inputs)
    requires ReferencesShow(ctx.references, resolved, m.referenceMap, l.references)
    requires OutputsShow(profile, ctx.outputs, m.outputMap, l.outputs)
    requires SignersShow(profile, ctx.signers, l.signers) && l.metadata == ctx.metadataLabels
    ensures ShowsParts(profile, ctx, resolved, m, l)
  {}

  // ----- roles

  /** What of the lift names the party. */
  ghost predicate NamedByInput(l: Lifted, n: string) {
    exists i :: 0 <= i < |l.inputs| && l.inputs[i].party == Some(n)
  }

  ghost predicate NamedByOutput(l: Lifted, n: string) {
    exists i :: 0 <= i < |l.outputs| && l.outputs[i].party == Some(n)
  }

  ghost predicate NamedBySigner(l: Lifted, n: string) {
    exists i :: 0 <= i < |l.signers| && l.signers[i].party == Some(n)
  }

  /** The role of a party is told from the annotations that name it. */
  ghost predicate RoleAgrees(l: Lifted, n: string) {
    && n in l.parties
    && l.parties[n].role ==
       if NamedByInput(l, n) then
         if NamedByOutput(l, n) || NamedBySigner(l, n) then Multiple else Input
       else if NamedByOutput(l, n) then
         if NamedBySigner(l, n) then Multiple else Output
       else if NamedBySigner(l, n) then Signer
       else Absent
  }

  lemma {:induction false} KindsAppend(parties: Parties, a: seq<Observation>, b: seq<Observation>, n: string)
    ensures Kinds(parties, a + b, n) == Kinds(parties, a, n) + Kinds(parties, b, n)
  {
    hide Credited, Kind;
    var obs := a + b;
    forall k | k in Kinds(parties, a, n) + Kinds(parties, b, n) ensures k in Kinds(parties, obs, n) {
      if k in Kinds(parties, a, n) {
        var i :| 0 <= i < |a| && Credited(parties, a[i]) == Some(n) && Kind(a[i]) == k;
        assert obs[i] == a[i];
      } else {
        var i :| 0 <= i < |b| && Credited(parties, b[i]) == Some(n) && Kind(b[i]) == k;
        assert obs[|a| + i] == b[i];
      }
    }
  }

  /** Observations of one kind contribute that kind, if one of them is credited; `credits` says to
      whom each one is. */
  lemma {:induction false} KindsOfOne(
      parties: Parties, obs: seq<Observation>, n: string, k: PartyRole, credits: seq<Option<string>>)
    requires forall i | 0 <= i < |obs| :: Kind(obs[i]) == k
    requires |credits| == |obs| && forall i | 0 <= i < |obs| :: credits[i] == Credited(parties, obs[i])
    ensures Kinds(parties, obs, n) == if Some(n) in credits then {k} else {}
  {
    hide Credited, Kind;
    if Some(n) in credits {
      var i :| 0 <= i < |credits| && credits[i] == Some(n);
      assert Credited(parties, obs[i]) == Some(n);
    }
  }

  lemma {:induction false} InputKinds(
      parties: Parties, slots: seq<Slot>, inputs: seq<T.Input>, ins: seq<TxInput>, resolved: ResolvedInputs, n: string)
    requires AllViewable(slots, ins, resolved) && forall s | s in slots :: s.tir < |inputs|
    ensures var notes := InputNotes(slots, inputs, ins, resolved, parties);
      Kinds(parties, InputSightings(slots, ins, resolved), n) ==
        if exists i :: 0 <= i < |notes| && notes[i].party == Some(n) then {Input} else {}
  {
    hide Credited, InputView, Kinds;
    var notes, obs := InputNotes(slots, inputs, ins, resolved, parties), InputSightings(slots, ins, resolved);
    var credits := seq(|notes|, i requires 0 <= i < |notes| => notes[i].party);
    KindsOfOne(parties, obs, n, Input, credits);
    assert Some(n) in credits <==> exists i :: 0 <= i < |notes| && credits[i] == Some(n);
    assert forall i | 0 <= i < |notes| :: credits[i] == notes[i].party;
  }

  lemma {:induction false} OutputKinds(parties: Parties, slots: seq<Slot>, outs: seq<TxOutput>, n: string)
    requires forall s | s in slots :: s.payload < |outs|
    ensures var notes := OutputNotes(slots, outs, parties);
      Kinds(parties, OutputSightings(slots, outs), n) ==
        if exists i :: 0 <= i < |notes| && notes[i].party == Some(n) then {Output} else {}
  {
    hide Credited, ViewOf, Kinds;
    var notes, obs := OutputNotes(slots, outs, parties), OutputSightings(slots, outs);
    var credits := seq(|notes|, i requires 0 <= i < |notes| => notes[i].party);
    KindsOfOne(parties, obs, n, Output, credits);
    assert Some(n) in credits <==> exists i :: 0 <= i < |notes| && credits[i] == Some(n);
    assert forall i | 0 <= i < |notes| :: credits[i] == notes[i].party;
  }

  lemma {:induction false} SignerKinds(parties: Parties, signers: seq<Bytes>, n: string)
    ensures var notes := SignerNotes(signers, parties);
      Kinds(parties, Signatures(signers), n) ==
        if exists i :: 0 <= i < |notes| && notes[i].party == Some(n) then {Signer} else {}
  {
    hide Credited, Kinds;
    var notes, obs := SignerNotes(signers, parties), Signatures(signers);
    var credits := seq(|notes|, i requires 0 <= i < |notes| => notes[i].party);
    KindsOfOne(parties, obs, n, Signer, credits);
    assert Some(n) in credits <==> exists i :: 0 <= i < |notes| && credits[i] == Some(n);
    assert forall i | 0 <= i < |notes| :: credits[i] == notes[i].party;
  }

  /** The kinds credited to a party are those of the annotations that name it. */
  lemma {:induction false} LiftKinds(
      profile: Profile, profileName: string, txName: string, tx: T.Tx, ctx: CardanoTx, resolved: ResolvedInputs,
      m: MatchAssignment, l: Lifted, n: string)
    requires LiftedView(Some(profile), profileName, txName, tx, ctx, resolved, m) == Ok(l)
    ensures Kinds(FreshParties(profile), Sightings(PickedOf(tx, ctx, m), ctx, resolved), n) ==
      NamedKinds(l, n)
  {
    hide *;
    LiftPicked(profile, profileName, txName, tx, ctx, resolved, m, l);
    var p, parties := PickedOf(tx, ctx, m), FreshParties(profile);
    InputKinds(parties, p.inputs, tx.inputs, ctx.inputs, resolved, n);
    OutputKinds(parties, p.outputs, ctx.outputs, n);
    SignerKinds(parties, ctx.signers, n);
    var seen, paid := InputSightings(p.inputs, ctx.inputs, resolved), OutputSightings(p.outputs, ctx.outputs);
    KindsAppend(parties, seen, paid, n);
    KindsAppend(parties, seen + paid, Signatures(ctx.signers), n);
    NamesTogether(l, n, Kinds(parties, seen, n), Kinds(parties, paid, n), Kinds(parties, Signatures(ctx.signers), n));
  }

  lemma {:induction false} LiftPicked(
      profile: Profile, profileName: string, txName: string, tx: T.Tx, ctx: CardanoTx, resolved: ResolvedInputs,
      m: MatchAssignment, l: Lifted)
    requires LiftedView(Some(profile), profileName, txName, tx, ctx, resolved, m) == Ok(l)
    ensures PartiesDecode(profile)
    ensures var p, parties := PickedOf(tx, ctx, m), FreshParties(profile);
      && AllViewable(p.inputs, ctx.inputs, resolved)
      && l.inputs == InputNotes(p.inputs, tx.inputs, ctx.inputs, resolved, parties)
      && l.outputs == OutputNotes(p.outputs, ctx.outputs, parties)
      && l.signers == SignerNotes(ctx.signers, parties)
      && Sightings(p, ctx, resolved) ==
         InputSightings(p.inputs, ctx.inputs, resolved) + OutputSightings(p.outputs, ctx.outputs)
         + Signatures(ctx.signers)
  {
    hide PickedOf, InputNotes, ReferenceNotes, OutputNotes, SignerNotes, CreditAll, MintNotes;
  }

  lemma {:induction false} NamesTogether(
      l: Lifted, n: string, seen: set<PartyRole>, paid: set<PartyRole>, signed: set<PartyRole>)
    requires seen == if exists i :: 0 <= i < |l.inputs| && l.inputs[i].party == Some(n) then {Input} else {}
    requires paid == if exists i :: 0 <= i < |l.outputs| && l.outputs[i].party == Some(n) then {Output} else {}
    requires signed == if exists i :: 0 <= i < |l.signers| && l.signers[i].party == Some(n) then {Signer} else {}
    ensures NamedKinds(l, n) == seen + paid + signed
  {}

  /** After a lift every party of the profile has the role that the annotations give it. */
  lemma {:induction false} RolesAgree(
      profile: Profile, profileName: string, txName: string, tx: T.Tx, ctx: CardanoTx, resolved: ResolvedInputs,
      m: MatchAssignment, l: Lifted, n: string)
    requires LiftedView(Some(profile), profileName, txName, tx, ctx, resolved, m) == Ok(l)
    requires n in profile.parties
    ensures RoleAgrees(l, n)
  {
    LiftKinds(profile, profileName, txName, tx, ctx, resolved, m, l, n);
    RolesAreJoins(profile, profileName, txName, tx, ctx, resolved, m, l, n);
    hide LiftedView, NamedByInput, NamedByOutput, NamedBySigner, Lub, Sightings, PickedOf, FreshParties, RoleAgrees;
    RoleFromKinds(l, n);
  }

  ghost function NamedKinds(l: Lifted, n: string): set<PartyRole> {
    (if NamedByInput(l, n) then {Input} else {}) + (if NamedByOutput(l, n) then {Output} else {})
    + (if NamedBySigner(l, n) then {Signer} else {})
  }

  lemma {:induction false} LubOfThree(input: bool, output: bool, signer: bool)
    ensures Lub((if input then {Input} else {}) + (if output then {Output} else {}) + (if signer then {Signer} else {}))
      == if input then if output || signer then Multiple else Input
         else if output then if signer then Multiple else Output
         else if signer then Signer
         else Absent
  {
    var kinds: set<PartyRole> :=
      (if input then {Input} else {}) + (if output then {Output} else {}) + (if signer then {Signer} else {});
    LubMeaning(kinds);
    hide Lub;
    if input && !output && !signer { assert kinds == {Input}; }
    if !input && output && !signer { assert kinds == {Output}; }
    if !input && !output && signer { assert kinds == {Signer}; }
    assert input ==> Input in kinds;
    assert output ==> Output in kinds;
    assert signer ==> Signer in kinds;
  }

  lemma {:induction false} RoleFromKinds(l: Lifted, n: string)
    requires n in l.parties && l.parties[n].role == Lub(NamedKinds(l, n))
    ensures RoleAgrees(l, n)
  {
    hide Lub, NamedByInput, NamedByOutput, NamedBySigner;
    LubOfThree(NamedByInput(l, n), NamedByOutput(l, n), NamedBySigner(l, n));
  }
}
