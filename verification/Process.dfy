/** What the tracker does with a streamed event (bin/tracker/src/process.rs): gate and match
    every source, select among the matches, lift the survivors and persist their rows. Each
    step is a loop with a specification that says which results it may have. */
module Process {
  import opened Base
  import opened Names
  import opened Payload
  import opened Profile
  import opened Selection
  import opened Store
  import opened Summary
  import Anchors
  import Fingerprint
  import Lifting
  import Matching
  import Summarize
  import T = Tir

  /** A transaction of a source, specialized, with its fingerprint. */
  datatype Target = Target(tir: T.Tx, fingerprint: Fingerprint.Fingerprint)

  /** A configured source. `profile` is its profile as the lifter looks it up. */
  datatype Source = Source(
    name: string,
    protocolName: string,
    profileName: string,
    profile: Option<Profile>,
    anchors: Anchors.ProtocolAnchors,
    txs: map<string, Target>)

  /** What a survivor needs to be lifted; `index` is the position of its source. */
  datatype LiftInputs = LiftInputs(index: nat, source: Source, tir: T.Tx, assignment: Matching.MatchAssignment)

  type Found = Candidate<LiftInputs>

  type Row = MatchRow<Lifting.Lifted>

  // ----- collecting candidates

  ghost function Assignment(
      target: Target, ctx: CardanoTx, resolved: ResolvedInputs): Option<Matching.MatchAssignment> {
    Matching.MatchSpec(target.tir, ctx, resolved, "", "")
  }

  /** A transaction of a source is a candidate when the source's anchors gate, the fingerprint
      passes and the structural matcher assigns. */
  ghost predicate Qualifies(source: Source, name: string, ctx: CardanoTx, resolved: ResolvedInputs) {
    var summary := Summarize.Summarized(ctx, resolved);
    && name in source.txs
    && Anchors.HitsOf(source.anchors, summary).Gates()
    && source.txs[name].fingerprint.Matches(summary)
    && Assignment(source.txs[name], ctx, resolved).Some?
  }

  ghost function ScoreOf(source: Source, name: string, ctx: CardanoTx, resolved: ResolvedInputs): u32
    requires name in source.txs
  {
    var summary := Summarize.Summarized(ctx, resolved);
    Saturate32(Anchors.HitsOf(source.anchors, summary).total + source.txs[name].fingerprint.InformationScore())
  }

  ghost function CandidateFor(i: nat, source: Source, name: string, ctx: CardanoTx, resolved: ResolvedInputs): Found
    requires Qualifies(source, name, ctx, resolved)
  {
    Candidate(source.name, name, ScoreOf(source, name, ctx, resolved),
              LiftInputs(i, source, source.txs[name].tir, Assignment(source.txs[name], ctx, resolved).value))
  }

  predicate Earlier(a: Found, b: Found) {
    a.payload.index < b.payload.index || (a.payload.index == b.payload.index && Less(a.txName, b.txName))
  }

  ghost predicate Genuine(sources: seq<Source>, ctx: CardanoTx, resolved: ResolvedInputs, c: Found) {
    var i := c.payload.index;
    && i < |sources|
    && Qualifies(sources[i], c.txName, ctx, resolved)
    && c == CandidateFor(i, sources[i], c.txName, ctx, resolved)
  }

  ghost predicate Listed(cands: seq<Found>, i: nat, name: string) {
    exists k :: 0 <= k < |cands| && cands[k].payload.index == i && cands[k].txName == name
  }

  /** All candidates of the first `n` sources, and no others, by source and then by name. */
  ghost predicate IsCollection(
      sources: seq<Source>, n: nat, ctx: CardanoTx, resolved: ResolvedInputs, cands: seq<Found>) {
    && (forall a, b | 0 <= a < b < |cands| :: Earlier(cands[a], cands[b]))
    && (forall k | 0 <= k < |cands| :: cands[k].payload.index < n && Genuine(sources, ctx, resolved, cands[k]))
    && (forall i: nat, name | i < n && i < |sources| && Qualifies(sources[i], name, ctx, resolved) ::
      Listed(cands, i, name))
  }

  ghost function Qualified(source: Source, ctx: CardanoTx, resolved: ResolvedInputs): set<string> {
    set name | name in source.txs && Qualifies(source, name, ctx, resolved)
  }

  /** One candidate of source `i` per wanted transaction, in order of name. */
  ghost predicate Lists(cands: seq<Found>, i: nat, wanted: set<string>) {
    && (forall a, b | 0 <= a < b < |cands| :: Less(cands[a].txName, cands[b].txName))
    && (forall k | 0 <= k < |cands| :: cands[k].txName in wanted && cands[k].payload.index == i)
    && (forall name | name in wanted :: Listed(cands, i, name))
  }

  ghost predicate AllGenuine(sources: seq<Source>, ctx: CardanoTx, resolved: ResolvedInputs, cands: seq<Found>) {
    forall k | 0 <= k < |cands| :: Genuine(sources, ctx, resolved, cands[k])
  }

  /** The candidates of one source. */
  ghost predicate IsCollectionOf(
      sources: seq<Source>, i: nat, ctx: CardanoTx, resolved: ResolvedInputs, cands: seq<Found>) {
    i < |sources| && Lists(cands, i, Qualified(sources[i], ctx, resolved)) && AllGenuine(sources, ctx, resolved, cands)
  }

  method CollectCandidates(sources: seq<Source>, payload: CardanoPayload) returns (r: Result<seq<Found>>)
    ensures payload.parsed.None? ==> r == Err(PallasDecode)
    ensures payload.parsed.Some? ==>
      r.Ok? && IsCollection(sources, |sources|, payload.parsed.value, payload.resolved, r.value)
  {
    var summarized := Summarize.Summarize(payload);
    if summarized.Err? { return Err(PallasDecode); }
    ghost var ctx := payload.parsed.value;
    var cands: seq<Found> := [];
    for i := 0 to |sources|
      invariant IsCollection(sources, i, ctx, payload.resolved, cands)
    {
      var hits := Anchors.Hits(sources[i].anchors, summarized.value);
      var found := [];
      if hits.Gates() {
        found := CollectSource(sources, i, summarized.value, payload);
      } else {
        UngatedOffersNothing(sources, i, ctx, payload.resolved);
      }
      CollectionGrows(sources, i, ctx, payload.resolved, cands, found);
      cands := cands + found;
    }
    return Ok(cands);
  }

  /** The inner loop: the transactions of one gated source, in order of name. */
  method CollectSource(
      sources: seq<Source>, i: nat, summary: PayloadSummary, payload: CardanoPayload) returns (found: seq<Found>)
    requires i < |sources| && payload.parsed.Some?
    requires summary == Summarize.Summarized(payload.parsed.value, payload.resolved)
    requires Anchors.HitsOf(sources[i].anchors, summary).Gates()
    ensures IsCollectionOf(sources, i, payload.parsed.value, payload.resolved, found)
  {
    var source := sources[i];
    ghost var ctx := payload.parsed.value;
    hide Lists, AllGenuine, Qualified, Qualifies, CandidateFor, Summarize.Summarized, Anchors.HitsOf;
    var hits := Anchors.Hits(source.anchors, summary);
    var names := SortedNames(source.txs.Keys);
    found := [];
    NothingListed(sources, i, ctx, payload.resolved);
    for j := 0 to |names|
      invariant Lists(found, i, Elems(names[..j]) * Qualified(source, ctx, payload.resolved))
      invariant AllGenuine(sources, ctx, payload.resolved, found)
    {
      var name := names[j];
      assert name in names;
      var candidate := TryTransaction(source, i, name, hits, summary, payload);
      SourceAdvances(sources, i, names, j, ctx, payload.resolved, found, candidate);
      if candidate.Some? {
        found := found + [candidate.value];
      }
    }
    AllNamed(source, names, ctx, payload.resolved);
  }

  lemma {:induction false} NothingListed(sources: seq<Source>, i: nat, ctx: CardanoTx, resolved: ResolvedInputs)
    ensures forall qualified, names: seq<string> :: Lists([], i, Elems(names[..0]) * qualified)
    ensures AllGenuine(sources, ctx, resolved, [])
  {}

  lemma {:induction false} AllNamed(source: Source, names: seq<string>, ctx: CardanoTx, resolved: ResolvedInputs)
    requires forall x :: x in names <==> x in source.txs
    ensures Elems(names[..|names|]) * Qualified(source, ctx, resolved) == Qualified(source, ctx, resolved)
  {}

  lemma {:induction false} SourceAdvances(
      sources: seq<Source>, i: nat, names: seq<string>, j: nat, ctx: CardanoTx, resolved: ResolvedInputs,
      was: seq<Found>, candidate: Option<Found>)
    requires i < |sources| && j < |names| && Ascending(names)
    requires Lists(was, i, Elems(names[..j]) * Qualified(sources[i], ctx, resolved))
    requires AllGenuine(sources, ctx, resolved, was)
    requires candidate.Some? <==> Qualifies(sources[i], names[j], ctx, resolved)
    requires candidate.Some? ==> candidate.value == CandidateFor(i, sources[i], names[j], ctx, resolved)
    ensures var found := if candidate.Some? then was + [candidate.value] else was;
      && Lists(found, i, Elems(names[..j + 1]) * Qualified(sources[i], ctx, resolved))
      && AllGenuine(sources, ctx, resolved, found)
  {
    var found := if candidate.Some? then was + [candidate.value] else was;
    QualifiedNames(sources[i], ctx, resolved, names[j]);
    hide Lists, Qualified, Qualifies;
    SourceStep(names, j, i, Qualified(sources[i], ctx, resolved), was, found);
  }

  /** The body of the inner loop: fingerprint, match, score. */
  method TryTransaction(
      source: Source, i: nat, name: string, hits: Anchors.AnchorHits, summary: PayloadSummary, payload: CardanoPayload)
    returns (candidate: Option<Found>)
    requires name in source.txs && payload.parsed.Some?
    requires summary == Summarize.Summarized(payload.parsed.value, payload.resolved)
    requires hits == Anchors.HitsOf(source.anchors, summary) && hits.Gates()
    ensures candidate.Some? <==> Qualifies(source, name, payload.parsed.value, payload.resolved)
    ensures candidate.Some? ==> candidate.value == CandidateFor(i, source, name, payload.parsed.value, payload.resolved)
  {
    hide Anchors.HitsOf, Summarize.Summarized, Matching.MatchSpec;
    var target := source.txs[name];
    if !target.fingerprint.Matches(summary) { return None; }
    var assignment := Matching.MatchTx(target.tir, payload, "", "");
    if assignment.value.None? { return None; }
    var score := Saturate32(hits.total + target.fingerprint.InformationScore());
    return Some(Candidate(source.name, name, score, LiftInputs(i, source, target.tir, assignment.value.value)));
  }

  lemma {:induction false} SourceStep(
      names: seq<string>, j: nat, i: nat, qualified: set<string>, was: seq<Found>, found: seq<Found>)
    requires j < |names| && Ascending(names)
    requires Lists(was, i, Elems(names[..j]) * qualified)
    requires if names[j] in qualified
      then |found| == |was| + 1 && was <= found && found[|was|].txName == names[j] && found[|was|].payload.index == i
      else found == was
    ensures Lists(found, i, Elems(names[..j + 1]) * qualified)
  {
    assert names[..j + 1] == names[..j] + [names[j]];
    forall k | 0 <= k < |was| ensures Less(was[k].txName, names[j]) {
      assert was[k].txName in names[..j];
    }
    StillListed(was, found, i);
  }

  lemma {:induction false} StillListed(was: seq<Found>, found: seq<Found>, i: nat)
    requires was <= found
    ensures forall name | Listed(was, i, name) :: Listed(found, i, name)
  {
    forall name | Listed(was, i, name) ensures Listed(found, i, name) {
      var k :| 0 <= k < |was| && was[k].payload.index == i && was[k].txName == name;
      assert found[k] == was[k];
    }
  }

  lemma {:induction false} CollectionGrows(
      sources: seq<Source>, i: nat, ctx: CardanoTx, resolved: ResolvedInputs, cands: seq<Found>, found: seq<Found>)
    requires i < |sources| && IsCollection(sources, i, ctx, resolved, cands)
    requires IsCollectionOf(sources, i, ctx, resolved, found)
    ensures IsCollection(sources, i + 1, ctx, resolved, cands + found)
  {
    hide Genuine, Qualifies;
    var all := cands + found;
    forall n: nat, name | n < i + 1 && Qualifies(sources[n], name, ctx, resolved) ensures Listed(all, n, name) {
      if n < i {
        StillListed(cands, all, n);
      } else {
        QualifiedNames(sources[i], ctx, resolved, name);
        ListedLater(cands, found, n, name);
      }
    }
    CollectionOrdered(cands, found, i);
  }

  lemma {:induction false} QualifiedNames(source: Source, ctx: CardanoTx, resolved: ResolvedInputs, name: string)
    ensures name in Qualified(source, ctx, resolved) <==> Qualifies(source, name, ctx, resolved)
  {}

  lemma {:induction false} UngatedOffersNothing(sources: seq<Source>, i: nat, ctx: CardanoTx, resolved: ResolvedInputs)
    requires i < |sources| && !Anchors.HitsOf(sources[i].anchors, Summarize.Summarized(ctx, resolved)).Gates()
    ensures IsCollectionOf(sources, i, ctx, resolved, [])
  {}

  lemma {:induction false} ListedLater(cands: seq<Found>, found: seq<Found>, i: nat, name: string)
    requires Listed(found, i, name)
    ensures Listed(cands + found, i, name)
  {
    var k :| 0 <= k < |found| && found[k].payload.index == i && found[k].txName == name;
    assert (cands + found)[|cands| + k] == found[k];
  }

  lemma {:induction false} CollectionOrdered(cands: seq<Found>, found: seq<Found>, i: nat)
    requires forall a, b | 0 <= a < b < |cands| :: Earlier(cands[a], cands[b])
    requires forall k | 0 <= k < |cands| :: cands[k].payload.index < i
    requires forall a, b | 0 <= a < b < |found| :: Less(found[a].txName, found[b].txName)
    requires forall k | 0 <= k < |found| :: found[k].payload.index == i
    ensures forall a, b | 0 <= a < b < |cands + found| :: Earlier((cands + found)[a], (cands + found)[b])
  {}

  // ----- the rows of a transaction

  ghost function LiftOf(
      survivor: Ranked<LiftInputs>, ctx: CardanoTx, resolved: ResolvedInputs): Result<Lifting.Lifted> {
    var p := survivor.candidate.payload;
    Lifting.LiftedView(p.source.profile, p.source.profileName, survivor.candidate.txName, p.tir, ctx,
                       resolved, p.assignment)
  }

  function RowOf(survivor: Ranked<LiftInputs>, lifted: Lifting.Lifted, point: ChainPoint): Row {
    var source := survivor.candidate.payload.source;
    MatchRow(lifted.txId, point.slot, point.hash, source.name, source.protocolName, lifted.txName, source.profileName,
             lifted, survivor.candidate.score, survivor.rank)
  }

  /** One row per survivor, or the error of the first one that does not lift. */
  ghost predicate Lifts(
      out: seq<Ranked<LiftInputs>>, ctx: CardanoTx, resolved: ResolvedInputs, point: ChainPoint, r: Result<seq<Row>>) {
    match r
    case Ok(rows) =>
      |rows| == |out| &&
      forall i | 0 <= i < |out| ::
        LiftOf(out[i], ctx, resolved).Ok? && rows[i] == RowOf(out[i], LiftOf(out[i], ctx, resolved).value, point)
    case Err(e) =>
      exists i ::
        0 <= i < |out| && LiftOf(out[i], ctx, resolved) == Err(e) && forall j | 0 <= j < i ::
          LiftOf(out[j], ctx, resolved).Ok?
  }

  /** The rows come from some selection among all the candidates of all sources. */
  ghost predicate Outcome(
      sources: seq<Source>, payload: CardanoPayload, point: ChainPoint, mode: MatchMode, r: Result<seq<Row>>) {
    if payload.parsed.None? then r == Err(PallasDecode)
    else
      exists cands, out ::
        IsCollection(sources, |sources|, payload.parsed.value, payload.resolved, cands) &&
        IsSelection(cands, mode, out) &&
        Lifts(out, payload.parsed.value, payload.resolved, point, r)
  }

  method RunSpecializations(sources: seq<Source>, payload: CardanoPayload, point: ChainPoint, mode: MatchMode)
    returns (r: Result<seq<Row>>)
    ensures Outcome(sources, payload, point, mode, r)
  {
    hide IsCollection, IsSelection, Lifting.LiftedView;
    var cands := CollectCandidates(sources, payload);
    if cands.Err? { return Err(PallasDecode); }
    ghost var ctx := payload.parsed.value;
    var survivors := SelectMatches(cands.value, mode);
    var rows: seq<Row> := [];
    for i := 0 to |survivors|
      invariant |rows| == i
      invariant forall j | 0 <= j < i ::
        LiftOf(survivors[j], ctx, payload.resolved).Ok? &&
        rows[j] == RowOf(survivors[j], LiftOf(survivors[j], ctx, payload.resolved).value, point)
    {
      var p := survivors[i].candidate.payload;
      var lifted := Lifting.Lift(
        p.source.profile, p.source.profileName, survivors[i].candidate.txName, p.tir, payload, p.assignment);
      assert lifted == LiftOf(survivors[i], ctx, payload.resolved);
      if lifted.Err? {
        r := Err(lifted.error);
        assert Lifts(survivors, ctx, payload.resolved, point, r);
        return;
      }
      rows := rows + [RowOf(survivors[i], lifted.value, point)];
    }
    r := Ok(rows);
    assert Lifts(survivors, ctx, payload.resolved, point, r);
  }
}
