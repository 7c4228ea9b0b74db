/** What the rows of a transaction show of the assignment behind them, and when there are no
    rows but an error. The laws of lifting speak of an assignment of the matcher and of any
    names; here they are carried to every row that selection lets through, under the names of
    its source and its template, so that a row can be read back as the match it stands for. */
module RowLaws {
  import opened Base
  import opened Greedy
  import opened Lifting
  import opened LiftLaws
  import opened MatchLaws
  import opened Payload
  import opened PlainLift
  import opened Process
  import opened Roles
  import opened Selection
  import opened Store
  import Expr
  import Fingerprint
  import Anchors
  import Matching
  import PlainMatch
  import ProcessLaws
  import SelectionLaws
  import Summarize

  // ----- the lift of a candidate

  /** What was assigned in a candidate is an assignment of the matcher for the template of its
      source. */
  ghost predicate Assigned(c: Found, ctx: CardanoTx, resolved: ResolvedInputs) {
    var p := c.payload;
    && c.source == p.source.name
    && c.txName in p.source.txs
    && p.tir == p.source.txs[c.txName].tir
    && Matching.MatchSpec(p.tir, ctx, resolved, p.assignment.profileName, p.assignment.txName) == Some(p.assignment)
  }

  lemma {:induction false} GenuineIsAssigned(sources: seq<Source>, ctx: CardanoTx, resolved: ResolvedInputs, c: Found)
    requires Genuine(sources, ctx, resolved, c)
    ensures Assigned(c, ctx, resolved) && c.payload.index < |sources| && c.payload.source == sources[c.payload.index]
  {
    hide Assign, Anchors.HitsOf, Summarize.Summarized;
  }

  /** No output that was delivered for a matched input or reference is undecodable. */
  ghost predicate AllDelivered(m: Matching.MatchAssignment, ctx: CardanoTx, resolved: ResolvedInputs) {
    && SlotsDelivered(m.inputMap, ctx.inputs, resolved)
    && SlotsDelivered(m.referenceMap, ctx.references, resolved)
  }

  /** Why a candidate does not lift, if it does not: its source has no profile, a party of the
      profile has an address that does not decode, or an output that was delivered for a matched
      input does not decode. */
  ghost function LiftError(p: LiftInputs, ctx: CardanoTx, resolved: ResolvedInputs): Option<Error> {
    if p.source.profile.None? then Some(UnknownProfile)
    else if !PartiesDecode(p.source.profile.value) then Some(InvalidAddress)
    else if !AllDelivered(p.assignment, ctx, resolved) then Some(PallasDecode)
    else None
  }

  lemma {:induction false} DeliveredIsViewable(c: Found, ctx: CardanoTx, resolved: ResolvedInputs)
    requires Assigned(c, ctx, resolved)
    ensures var m := c.payload.assignment;
      AllDelivered(m, ctx, resolved) <==>
        AllViewable(Flatten(m.inputMap), ctx.inputs, resolved) &&
        AllViewable(Flatten(m.referenceMap), ctx.references, resolved)
  {
    var p, m := c.payload, c.payload.assignment;
    MatchIsSound(p.tir, ctx, resolved, m.profileName, m.txName);
    hide Matching.MatchSpec, AllViewable, SlotsDelivered, Flatten;
    AllViewableIsDelivered(m.inputMap, ctx.inputs, resolved);
    AllViewableIsDelivered(m.referenceMap, ctx.references, resolved);
  }

  /** A candidate lifts if and only if there is no such reason. */
  lemma {:induction false} CandidateLiftsExactly(
      sources: seq<Source>, ctx: CardanoTx, resolved: ResolvedInputs, survivor: Ranked<LiftInputs>)
    requires Genuine(sources, ctx, resolved, survivor.candidate)
    ensures LiftOf(survivor, ctx, resolved).Ok? <==> LiftError(survivor.candidate.payload, ctx, resolved).None?
    ensures LiftOf(survivor, ctx, resolved).Err? ==>
      Some(LiftOf(survivor, ctx, resolved).error) == LiftError(survivor.candidate.payload, ctx, resolved)
  {
    GenuineIsAssigned(sources, ctx, resolved, survivor.candidate);
    var p := survivor.candidate.payload;
    DeliveredIsViewable(survivor.candidate, ctx, resolved);
    hide Genuine, Matching.MatchSpec, LiftedView, AllDelivered, AllViewable;
    LiftSucceedsExactly(p.source.profile, p.source.profileName, survivor.candidate.txName, p.tir, ctx, resolved,
                        p.assignment);
  }

  // ----- what a row shows

  /** The row is of a qualifying transaction of the source, under the names of both. */
  ghost predicate Behind(
      sources: seq<Source>, ctx: CardanoTx, resolved: ResolvedInputs, p: LiftInputs, row: Row) {
    && p.index < |sources| && p.source == sources[p.index]
    && row.txName in p.source.txs && p.tir == p.source.txs[row.txName].tir
    && ProcessLaws.Offers(sources, p.index, row.txName, ctx, resolved)
    && row.sourceName == p.source.name && row.protocolName == p.source.protocolName
    && row.profileName == row.lifted.profileName == p.source.profileName
    && row.txName == row.lifted.txName
    && row.txHash == row.lifted.txId == ctx.hash
  }

  /** The lift has one annotation per assigned part, at the place of its slot and made from it,
      for a sound assignment. */
  ghost predicate ShowsAssignment(p: LiftInputs, ctx: CardanoTx, resolved: ResolvedInputs, l: Lifted) {
    var m := p.assignment;
    && Sound(p.tir, ctx, resolved, m)
    && InputsAnnotated(p.tir.inputs, ctx.inputs, resolved, m.inputMap, l.inputs)
    && ReferencesAnnotated(ctx.references, resolved, m.referenceMap, l.references)
    && OutputsAnnotated(ctx.outputs, m.outputMap, l.outputs)
    && MintsAnnotated(ctx.mints, m.mintMap, l.mints)
    && MintsAnnotated(ctx.mints, m.burnMap, l.burns)
  }

  /** Where the template pins the address of an input or output, its annotation shows it. */
  ghost predicate ShowsPins(p: LiftInputs, l: Lifted) {
    var m := p.assignment;
    && |m.inputMap| == |p.tir.inputs| && |m.outputMap| == |p.tir.outputs|
    && (forall j: nat, k: nat | j < |m.inputMap| && k < |m.inputMap[j]| :: ShowsInputPin(p, l, j, k))
    && (forall j: nat, k: nat | j < |m.outputMap| && k < |m.outputMap[j]| :: ShowsOutputPin(p, l, j, k))
  }

  ghost predicate ShowsInputPin(p: LiftInputs, l: Lifted, j: nat, k: nat)
    requires j < |p.assignment.inputMap| == |p.tir.inputs|
  {
    var pin, at := Fingerprint.PinnedByQuery(p.tir.inputs[j].utxos), Offset(p.assignment.inputMap, j) + k;
    pin.Some? ==> at < |l.inputs| && l.inputs[at].view.address == pin.value
  }

  ghost predicate ShowsOutputPin(p: LiftInputs, l: Lifted, j: nat, k: nat)
    requires j < |p.assignment.outputMap| == |p.tir.outputs|
  {
    var pin, at := Expr.ConstAddress(p.tir.outputs[j].address), Offset(p.assignment.outputMap, j) + k;
    pin.Some? ==> at < |l.outputs| && l.outputs[at].view.address == pin.value
  }

  /** The parties are those of the profile, each with the join of everything credited to it. */
  ghost predicate ShowsRoles(p: LiftInputs, ctx: CardanoTx, resolved: ResolvedInputs, l: Lifted) {
    && p.source.profile.Some? && PartiesDecode(p.source.profile.value)
    && AllViewable(PickedOf(p.tir, ctx, p.assignment).inputs, ctx.inputs, resolved)
    && forall n | n in p.source.profile.value.parties :: ShowsRole(p, ctx, resolved, l, n)
  }

  ghost predicate ShowsRole(p: LiftInputs, ctx: CardanoTx, resolved: ResolvedInputs, l: Lifted, n: string)
    requires p.source.profile.Some? && PartiesDecode(p.source.profile.value) && n in p.source.profile.value.parties
    requires AllViewable(PickedOf(p.tir, ctx, p.assignment).inputs, ctx.inputs, resolved)
  {
    var seen := Sightings(PickedOf(p.tir, ctx, p.assignment), ctx, resolved);
    var kinds := Kinds(FreshParties(p.source.profile.value), seen, n);
    && n in l.parties && Some(l.parties[n].address) == p.source.profile.value.parties[n]
    && l.parties[n].role == Lub(kinds)
    && (l.parties[n].role.Absent? <==> kinds == {})
    && (l.parties[n].role.Multiple? <==> exists k, other :: k in kinds && other in kinds && k != other)
  }

  lemma {:induction false} LiftShowsAssignment(
      c: Found, rank: nat, ctx: CardanoTx, resolved: ResolvedInputs, l: Lifted)
    requires Assigned(c, ctx, resolved) && LiftOf(Ranked(c, rank), ctx, resolved) == Ok(l)
    ensures ShowsAssignment(c.payload, ctx, resolved, l)
  {
    var p := c.payload;
    hide LiftedView, Matching.MatchSpec;
    LiftLosesNothing(p.source.profile, p.source.profileName, c.txName, p.tir, ctx, resolved, p.assignment, l);
  }

  lemma {:induction false} LiftShowsInputPin(
      c: Found, rank: nat, ctx: CardanoTx, resolved: ResolvedInputs, l: Lifted, j: nat, k: nat)
    requires Assigned(c, ctx, resolved) && LiftOf(Ranked(c, rank), ctx, resolved) == Ok(l)
    requires j < |c.payload.assignment.inputMap| == |c.payload.tir.inputs| && k < |c.payload.assignment.inputMap[j]|
    ensures ShowsInputPin(c.payload, l, j, k)
  {
    var p := c.payload;
    hide LiftedView, Matching.MatchSpec, Offset, Fingerprint.PinnedByQuery;
    var pin := Fingerprint.PinnedByQuery(p.tir.inputs[j].utxos);
    if pin.Some? {
      PinnedInputShown(p.source.profile, p.source.profileName, c.txName, p.tir, ctx, resolved, p.assignment, l, j, k,
                       pin.value);
    }
  }

  lemma {:induction false} LiftShowsOutputPin(
      c: Found, rank: nat, ctx: CardanoTx, resolved: ResolvedInputs, l: Lifted, j: nat, k: nat)
    requires Assigned(c, ctx, resolved) && LiftOf(Ranked(c, rank), ctx, resolved) == Ok(l)
    requires j < |c.payload.assignment.outputMap| == |c.payload.tir.outputs| && k < |c.payload.assignment.outputMap[j]|
    ensures ShowsOutputPin(c.payload, l, j, k)
  {
    var p := c.payload;
    hide LiftedView, Matching.MatchSpec, Offset, Expr.ConstAddress;
    var pin := Expr.ConstAddress(p.tir.outputs[j].address);
    if pin.Some? {
      PinnedOutputShown(p.source.profile, p.source.profileName, c.txName, p.tir, ctx, resolved, p.assignment, l, j, k,
                        pin.value);
    }
  }

  lemma {:induction false} LiftShowsPins(c: Found, rank: nat, ctx: CardanoTx, resolved: ResolvedInputs, l: Lifted)
    requires Assigned(c, ctx, resolved) && LiftOf(Ranked(c, rank), ctx, resolved) == Ok(l)
    ensures ShowsPins(c.payload, l)
  {
    var p, m := c.payload, c.payload.assignment;
    assert |m.inputMap| == |p.tir.inputs| && |m.outputMap| == |p.tir.outputs| by {
      LiftShowsAssignment(c, rank, ctx, resolved, l);
    }
    hide LiftOf, Assigned, ShowsInputPin, ShowsOutputPin;
    forall j: nat, k: nat | j < |m.inputMap| && k < |m.inputMap[j]| ensures ShowsInputPin(p, l, j, k) {
      LiftShowsInputPin(c, rank, ctx, resolved, l, j, k);
    }
    forall j: nat, k: nat | j < |m.outputMap| && k < |m.outputMap[j]| ensures ShowsOutputPin(p, l, j, k) {
      LiftShowsOutputPin(c, rank, ctx, resolved, l, j, k);
    }
  }

  /** What was taken is what the template asks for; every annotation shows its part of the
      transaction, field by field; and every party has the role that the annotations give it. */
  ghost predicate ShowsTransaction(p: LiftInputs, ctx: CardanoTx, resolved: ResolvedInputs, l: Lifted) {
    && PlainMatch.Takes(p.tir, ctx, resolved, p.assignment)
    && p.source.profile.Some?
    && ShowsParts(p.source.profile.value, ctx, resolved, p.assignment, l)
    && forall n | n in p.source.profile.value.parties :: RoleAgrees(l, n)
  }

  lemma {:induction false} LiftShowsTransaction(
      c: Found, rank: nat, ctx: CardanoTx, resolved: ResolvedInputs, l: Lifted)
    requires Assigned(c, ctx, resolved) && LiftOf(Ranked(c, rank), ctx, resolved) == Ok(l)
    ensures ShowsTransaction(c.payload, ctx, resolved, l)
  {
    var p, m := c.payload, c.payload.assignment;
    assert p.source.profile.Some?;
    hide LiftedView, Matching.MatchSpec, PlainMatch.Takes, ShowsParts, RoleAgrees;
    PlainMatch.MatchTakesWhatIsAsked(p.tir, ctx, resolved, m);
    LiftShowsParts(p.source.profile.value, p.source.profileName, c.txName, p.tir, ctx, resolved, m, l);
    forall n | n in p.source.profile.value.parties ensures RoleAgrees(l, n) {
      RolesAgree(p.source.profile.value, p.source.profileName, c.txName, p.tir, ctx, resolved, m, l, n);
    }
  }

  lemma {:induction false} LiftShowsRoles(c: Found, rank: nat, ctx: CardanoTx, resolved: ResolvedInputs, l: Lifted)
    requires LiftOf(Ranked(c, rank), ctx, resolved) == Ok(l)
    ensures ShowsRoles(c.payload, ctx, resolved, l)
  {
    var p := c.payload;
    assert p.source.profile.Some? && PartiesDecode(p.source.profile.value);
    assert AllViewable(PickedOf(p.tir, ctx, p.assignment).inputs, ctx.inputs, resolved);
    hide LiftedView;
    forall n | n in p.source.profile.value.parties ensures ShowsRole(p, ctx, resolved, l, n) {
      RolesAreJoins(p.source.profile.value, p.source.profileName, c.txName, p.tir, ctx, resolved, p.assignment, l, n);
    }
  }

  /** Every row of every event is of a qualifying transaction of a source, shows everything that
      was assigned and nothing else, shows the addresses that the template pins, and has the
      roles that the transaction's inputs, outputs and signers amount to. */
  lemma {:induction false} RowShowsItsMatch(
      sources: seq<Source>, payload: CardanoPayload, point: ChainPoint, mode: MatchMode, rows: seq<Row>, k: nat)
    returns (p: LiftInputs)
    requires Outcome(sources, payload, point, mode, Ok(rows)) && k < |rows|
    ensures payload.parsed.Some? && Behind(sources, payload.parsed.value, payload.resolved, p, rows[k])
    ensures ShowsAssignment(p, payload.parsed.value, payload.resolved, rows[k].lifted)
    ensures ShowsPins(p, rows[k].lifted)
    ensures ShowsRoles(p, payload.parsed.value, payload.resolved, rows[k].lifted)
    ensures ShowsTransaction(p, payload.parsed.value, payload.resolved, rows[k].lifted)
  {
    var ctx, resolved := payload.parsed.value, payload.resolved;
    var c: seq<Found>, x: seq<Ranked<LiftInputs>> :|
      IsCollection(sources, |sources|, ctx, resolved, c) && IsSelection(c, mode, x) &&
      Lifts(x, ctx, resolved, point, Ok(rows));
    assert |rows| == |x| && LiftOf(x[k], ctx, resolved) == Ok(rows[k].lifted);
    assert rows[k] == RowOf(x[k], rows[k].lifted, point);
    p := x[k].candidate.payload;
    RowIsBehind(sources, ctx, resolved, point, mode, c, x, rows, k);
    hide *;
    LiftShowsAssignment(x[k].candidate, x[k].rank, ctx, resolved, rows[k].lifted);
    LiftShowsPins(x[k].candidate, x[k].rank, ctx, resolved, rows[k].lifted);
    LiftShowsRoles(x[k].candidate, x[k].rank, ctx, resolved, rows[k].lifted);
    LiftShowsTransaction(x[k].candidate, x[k].rank, ctx, resolved, rows[k].lifted);
  }

  lemma {:induction false} RowIsBehind(
      sources: seq<Source>, ctx: CardanoTx, resolved: ResolvedInputs, point: ChainPoint, mode: MatchMode,
      c: seq<Found>, x: seq<Ranked<LiftInputs>>, rows: seq<Row>, k: nat)
    requires IsCollection(sources, |sources|, ctx, resolved, c) && IsSelection(c, mode, x)
    requires Lifts(x, ctx, resolved, point, Ok(rows)) && k < |rows| == |x|
    requires LiftOf(x[k], ctx, resolved) == Ok(rows[k].lifted) && rows[k] == RowOf(x[k], rows[k].lifted, point)
    ensures Assigned(x[k].candidate, ctx, resolved)
    ensures Behind(sources, ctx, resolved, x[k].candidate.payload, rows[k])
  {
    hide IsCollection, IsSelection, Lifts, Genuine, Qualifies;
    ProcessLaws.RowFacts(sources, ctx, resolved, point, mode, c, x, rows, k);
    GenuineIsAssigned(sources, ctx, resolved, x[k].candidate);
    ProcessLaws.GenuineFacts(sources, ctx, resolved, x[k].candidate);
    hide Matching.MatchSpec, CreditAll, PickedOf;
  }

  // ----- when there are no rows but an error

  /** `e` is why the first survivor that does not lift does not. */
  ghost predicate FirstError(x: seq<Ranked<LiftInputs>>, ctx: CardanoTx, resolved: ResolvedInputs, e: Error) {
    exists k ::
      0 <= k < |x| && LiftError(x[k].candidate.payload, ctx, resolved) == Some(e) && forall j | 0 <= j < k ::
        LiftError(x[j].candidate.payload, ctx, resolved).None?
  }

  /** The transaction itself does not decode, or `e` is the first error among what is selected
      from all the candidates. */
  ghost predicate Stumbles(sources: seq<Source>, payload: CardanoPayload, mode: MatchMode, e: Error) {
    if payload.parsed.None? then e == PallasDecode
    else
      exists c, x ::
        IsCollection(sources, |sources|, payload.parsed.value, payload.resolved, c) && IsSelection(c, mode, x) &&
        FirstError(x, payload.parsed.value, payload.resolved, e)
  }

  /** `LiftError` is right about the survivor. */
  ghost predicate Foreseen(s: Ranked<LiftInputs>, ctx: CardanoTx, resolved: ResolvedInputs) {
    && (LiftOf(s, ctx, resolved).Ok? <==> LiftError(s.candidate.payload, ctx, resolved).None?)
    && (LiftOf(s, ctx, resolved).Err? ==>
          Some(LiftOf(s, ctx, resolved).error) == LiftError(s.candidate.payload, ctx, resolved))
  }

  lemma {:induction false} SurvivorsForeseen(
      sources: seq<Source>, ctx: CardanoTx, resolved: ResolvedInputs, mode: MatchMode, c: seq<Found>,
      x: seq<Ranked<LiftInputs>>)
    requires IsCollection(sources, |sources|, ctx, resolved, c) && IsSelection(c, mode, x)
    ensures forall i | 0 <= i < |x| :: Foreseen(x[i], ctx, resolved)
  {
    hide IsCollection, IsSelection, LiftOf, LiftError, Genuine;
    forall i: nat | i < |x| ensures Foreseen(x[i], ctx, resolved) {
      ProcessLaws.SelectedIsGenuine(sources, ctx, resolved, c, mode, x, i);
      CandidateLiftsExactly(sources, ctx, resolved, x[i]);
    }
  }

  lemma {:induction false} LiftsFailExactly(
      x: seq<Ranked<LiftInputs>>, ctx: CardanoTx, resolved: ResolvedInputs, point: ChainPoint, r: Result<seq<Row>>,
      e: Error)
    requires Lifts(x, ctx, resolved, point, r)
    requires forall i | 0 <= i < |x| :: Foreseen(x[i], ctx, resolved)
    ensures r == Err(e) <==> FirstError(x, ctx, resolved, e)
  {
    hide LiftOf, LiftError, RowOf;
    if r.Err? {
      var i :|
        0 <= i < |x| && LiftOf(x[i], ctx, resolved) == Err(r.error) && forall j | 0 <= j < i ::
          LiftOf(x[j], ctx, resolved).Ok?;
      assert LiftError(x[i].candidate.payload, ctx, resolved) == Some(r.error);
      assert FirstError(x, ctx, resolved, r.error);
      if FirstError(x, ctx, resolved, e) {
        var k :|
          0 <= k < |x| && LiftError(x[k].candidate.payload, ctx, resolved) == Some(e) && forall j | 0 <= j < k ::
            LiftError(x[j].candidate.payload, ctx, resolved).None?;
        assert i == k;
      }
    }
  }

  /** The rows of an event are an error exactly where its transaction does not decode, or a
      survivor does not lift: its source has no usable profile, or an output delivered for an
      input matched in it does not decode. The error is that of the first such survivor. */
  lemma {:induction false} OutcomeFailsExactly(
      sources: seq<Source>, payload: CardanoPayload, point: ChainPoint, mode: MatchMode, r: Result<seq<Row>>, e: Error)
    requires Outcome(sources, payload, point, mode, r)
    ensures r == Err(e) <==> Stumbles(sources, payload, mode, e)
  {
    if payload.parsed.Some? {
      var ctx, resolved := payload.parsed.value, payload.resolved;
      var c: seq<Found>, x: seq<Ranked<LiftInputs>> :|
        IsCollection(sources, |sources|, ctx, resolved, c) && IsSelection(c, mode, x) &&
        Lifts(x, ctx, resolved, point, r);
      hide IsCollection, IsSelection, Lifts, FirstError, Foreseen;
      SurvivorsForeseen(sources, ctx, resolved, mode, c, x);
      LiftsFailExactly(x, ctx, resolved, point, r, e);
      if Stumbles(sources, payload, mode, e) {
        var d: seq<Found>, y: seq<Ranked<LiftInputs>> :|
          IsCollection(sources, |sources|, ctx, resolved, d) && IsSelection(d, mode, y) &&
          FirstError(y, ctx, resolved, e);
        hide *;
        ProcessLaws.CollectionUnique(sources, ctx, resolved, c, d);
        SelectionLaws.SelectionUnique(c, d, mode, x, y);
      }
    }
  }
}
