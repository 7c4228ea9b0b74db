/** What the rows of a transaction say, for every configuration, payload and mode: they are
    determined, they are a batch, and each is of the best that its source has to offer. Rows
    are traced through lifting and selection back to the transactions of the templates that
    qualify. */
module ProcessLaws {
  import opened Base
  import opened Names
  import opened Payload
  import opened Process
  import opened Selection
  import opened Store
  import Anchors
  import InformationScore
  import Lifting
  import Ordered
  import SelectionLaws
  import Summarize

  // ----- the rows are determined

  lemma {:induction false} CollectionUnique(
      sources: seq<Source>, ctx: CardanoTx, resolved: ResolvedInputs, a: seq<Found>, b: seq<Found>)
    requires IsCollection(sources, |sources|, ctx, resolved, a)
    requires IsCollection(sources, |sources|, ctx, resolved, b)
    ensures a == b
  {
    forall c | c in a ensures c in b { InOtherCollection(sources, ctx, resolved, a, b, c); }
    forall c | c in b ensures c in a { InOtherCollection(sources, ctx, resolved, b, a, c); }
    forall x, y | x in a && y in a && Earlier(x, y) ensures !Earlier(y, x) {
      if x.payload.index == y.payload.index { LessAsymmetric(x.txName, y.txName); }
    }
    Ordered.Unique(Earlier, a, b);
  }

  lemma {:induction false} InOtherCollection(
      sources: seq<Source>, ctx: CardanoTx, resolved: ResolvedInputs, a: seq<Found>, b: seq<Found>, c: Found)
    requires IsCollection(sources, |sources|, ctx, resolved, a)
    requires IsCollection(sources, |sources|, ctx, resolved, b)
    requires c in a
    ensures c in b
  {
    var k :| 0 <= k < |a| && a[k] == c;
    assert Genuine(sources, ctx, resolved, c);
    assert Listed(b, c.payload.index, c.txName);
    var l :| 0 <= l < |b| && b[l].payload.index == c.payload.index && b[l].txName == c.txName;
    assert Genuine(sources, ctx, resolved, b[l]);
  }

  /** The rows of an event are a function of the configuration and the event. */
  lemma {:induction false} OutcomeUnique(
      sources: seq<Source>, payload: CardanoPayload, point: ChainPoint, mode: MatchMode, r: Result<seq<Row>>,
      s: Result<seq<Row>>)
    requires Outcome(sources, payload, point, mode, r)
    requires Outcome(sources, payload, point, mode, s)
    ensures r == s
  {
    if payload.parsed.Some? {
      var ctx, resolved := payload.parsed.value, payload.resolved;
      var c: seq<Found>, x: seq<Ranked<LiftInputs>> :|
        IsCollection(sources, |sources|, ctx, resolved, c) && IsSelection(c, mode, x) &&
        Lifts(x, ctx, resolved, point, r);
      var d: seq<Found>, y: seq<Ranked<LiftInputs>> :|
        IsCollection(sources, |sources|, ctx, resolved, d) && IsSelection(d, mode, y) &&
        Lifts(y, ctx, resolved, point, s);
      CollectionUnique(sources, ctx, resolved, c, d);
      SelectionLaws.SelectionUnique(c, d, mode, x, y);
      LiftsUnique(x, ctx, resolved, point, r, s);
    }
  }

  lemma {:induction false} LiftsUnique(
      out: seq<Ranked<LiftInputs>>, ctx: CardanoTx, resolved: ResolvedInputs, point: ChainPoint, r: Result<seq<Row>>,
      s: Result<seq<Row>>)
    requires Lifts(out, ctx, resolved, point, r)
    requires Lifts(out, ctx, resolved, point, s)
    ensures r == s
  {
    if r.Ok? && s.Ok? {
      assert r.value == s.value;
    } else if r.Err? && s.Err? {
      var i :|
        0 <= i < |out| && LiftOf(out[i], ctx, resolved) == Err(r.error) &&
        forall j | 0 <= j < i :: LiftOf(out[j], ctx, resolved).Ok?;
      var k :|
        0 <= k < |out| && LiftOf(out[k], ctx, resolved) == Err(s.error) &&
        forall j | 0 <= j < k :: LiftOf(out[j], ctx, resolved).Ok?;
      assert i == k;
    }
  }

  // ----- what the rows say

  /** A transaction of a source whose name is `name` qualifies. */
  ghost predicate Offers(sources: seq<Source>, i: nat, name: string, ctx: CardanoTx, resolved: ResolvedInputs) {
    i < |sources| && Qualifies(sources[i], name, ctx, resolved)
  }

  lemma {:induction false} GenuineFacts(sources: seq<Source>, ctx: CardanoTx, resolved: ResolvedInputs, c: Found)
    requires Genuine(sources, ctx, resolved, c)
    ensures var i := c.payload.index;
      && Offers(sources, i, c.txName, ctx, resolved)
      && c.source == sources[i].name == c.payload.source.name
      && c.score == ScoreOf(sources[i], c.txName, ctx, resolved)
  {}

  lemma {:induction false} RowFacts(
      sources: seq<Source>, ctx: CardanoTx, resolved: ResolvedInputs, point: ChainPoint, mode: MatchMode,
      c: seq<Found>, x: seq<Ranked<LiftInputs>>, rows: seq<Row>, k: nat)
    requires IsCollection(sources, |sources|, ctx, resolved, c) && IsSelection(c, mode, x)
    requires Lifts(x, ctx, resolved, point, Ok(rows)) && k < |rows|
    ensures |rows| == |x|
    ensures rows[k].txHash == ctx.hash && rows[k].blockSlot == point.slot && rows[k].blockHash == point.hash
    ensures rows[k].sourceName == x[k].candidate.source && rows[k].txName == x[k].candidate.txName
    ensures rows[k].score == x[k].candidate.score && rows[k].matchRank == x[k].rank
    ensures Genuine(sources, ctx, resolved, x[k].candidate)
  {
    SelectedIsGenuine(sources, ctx, resolved, c, mode, x, k);
    GenuineFacts(sources, ctx, resolved, x[k].candidate);
    hide Genuine, Lifting.LiftedView;
    assert rows[k] == RowOf(x[k], LiftOf(x[k], ctx, resolved).value, point);
    LiftKeepsNames(x[k], ctx, resolved);
  }

  lemma {:induction false} LiftKeepsNames(survivor: Ranked<LiftInputs>, ctx: CardanoTx, resolved: ResolvedInputs)
    requires LiftOf(survivor, ctx, resolved).Ok?
    ensures LiftOf(survivor, ctx, resolved).value.txId == ctx.hash
    ensures LiftOf(survivor, ctx, resolved).value.txName == survivor.candidate.txName
  {}

  /** The rows of one event are one batch: one transaction, one block, no source twice. So
      the store takes all of them when the transaction is new to it. */
  lemma {:induction false} RowsAreABatch(
      sources: seq<Source>, payload: CardanoPayload, point: ChainPoint, mode: MatchMode, rows: seq<Row>)
    requires Outcome(sources, payload, point, mode, Ok(rows))
    ensures payload.parsed.Some? && IsBatch(rows, payload.parsed.value.hash, point)
  {
    var ctx, resolved := payload.parsed.value, payload.resolved;
    var c: seq<Found>, x: seq<Ranked<LiftInputs>> :|
      IsCollection(sources, |sources|, ctx, resolved, c) && IsSelection(c, mode, x) &&
      Lifts(x, ctx, resolved, point, Ok(rows));
    LiftedAreABatch(sources, ctx, resolved, point, mode, c, x, rows);
  }

  lemma {:induction false} LiftedAreABatch(
      sources: seq<Source>, ctx: CardanoTx, resolved: ResolvedInputs, point: ChainPoint, mode: MatchMode,
      c: seq<Found>, x: seq<Ranked<LiftInputs>>, rows: seq<Row>)
    requires IsCollection(sources, |sources|, ctx, resolved, c) && IsSelection(c, mode, x)
    requires Lifts(x, ctx, resolved, point, Ok(rows))
    ensures IsBatch(rows, ctx.hash, point)
  {
    assert |rows| == |x|;
    hide IsCollection, IsSelection, Lifts, Genuine, LiftOf, ScoreOf;
    SelectionLaws.OnePerSource(c, mode, x);
    forall i: nat | i < |rows|
      ensures rows[i].txHash == ctx.hash
      ensures rows[i].blockSlot == point.slot && rows[i].blockHash == point.hash
      ensures rows[i].sourceName == x[i].candidate.source
    {
      RowFacts(sources, ctx, resolved, point, mode, c, x, rows, i);
    }
  }

  lemma {:induction false} SelectedIsGenuine(
      sources: seq<Source>, ctx: CardanoTx, resolved: ResolvedInputs, c: seq<Found>, mode: MatchMode,
      x: seq<Ranked<LiftInputs>>, i: nat)
    requires IsCollection(sources, |sources|, ctx, resolved, c) && IsSelection(c, mode, x) && i < |x|
    ensures Genuine(sources, ctx, resolved, x[i].candidate)
  {
    assert Kept(c, mode, x[i].candidate);
    var k: nat :| IsChampion(c, k) && c[k] == x[i].candidate;
  }

  /** Every row names a source whose anchors gate and a transaction of it that passes its
      fingerprint and matches; its score is that transaction's, and no other qualifying
      transaction of a source of that name outscores it or comes first at the same score. */
  lemma {:induction false} RowIsBestOfItsSource(
      sources: seq<Source>, payload: CardanoPayload, point: ChainPoint, mode: MatchMode, rows: seq<Row>, k: nat)
    requires Outcome(sources, payload, point, mode, Ok(rows)) && k < |rows|
    ensures payload.parsed.Some?
    ensures exists i: nat ::
      && Offers(sources, i, rows[k].txName, payload.parsed.value, payload.resolved)
      && rows[k].sourceName == sources[i].name
      && rows[k].score == ScoreOf(sources[i], rows[k].txName, payload.parsed.value, payload.resolved)
    ensures forall j: nat, name |
        Offers(sources, j, name, payload.parsed.value, payload.resolved) && sources[j].name == rows[k].sourceName ::
      var score := ScoreOf(sources[j], name, payload.parsed.value, payload.resolved);
      score < rows[k].score || (score == rows[k].score && !Alphabetical(name, rows[k].txName))
  {
    hide Genuine, LiftOf, ScoreOf;
    var ctx, resolved := payload.parsed.value, payload.resolved;
    var c: seq<Found>, x: seq<Ranked<LiftInputs>> :|
      IsCollection(sources, |sources|, ctx, resolved, c) && IsSelection(c, mode, x) &&
      Lifts(x, ctx, resolved, point, Ok(rows));
    RowFacts(sources, ctx, resolved, point, mode, c, x, rows, k);
    GenuineFacts(sources, ctx, resolved, x[k].candidate);
    hide Qualifies, IsCollection, IsSelection, Lifts;
    assert Offers(sources, x[k].candidate.payload.index, rows[k].txName, ctx, resolved);
    forall j: nat, name | Offers(sources, j, name, ctx, resolved) && sources[j].name == rows[k].sourceName
      ensures var score := ScoreOf(sources[j], name, ctx, resolved);
        score < rows[k].score || (score == rows[k].score && !Alphabetical(name, rows[k].txName))
    {
      OfferIsBeaten(sources, ctx, resolved, c, mode, x, k, j, name);
      LessIsAlphabetical(name, rows[k].txName);
    }
  }

  /** The score adds the anchors that are present to what the fingerprint requires, capped at
      2^32 - 1. */
  lemma {:induction false} ScorePlainly(
      source: Source, name: string, ctx: CardanoTx, resolved: ResolvedInputs, entries: set<InformationScore.Entry>)
    requires name in source.txs
    requires forall e :: e in entries <==> InformationScore.Requires(source.txs[name].fingerprint, e)
    ensures var sum := Anchors.HitsOf(source.anchors, Summarize.Summarized(ctx, resolved)).total + |entries|;
      ScoreOf(source, name, ctx, resolved) == if sum < 0x1_0000_0000 then sum else 0xFFFF_FFFF
  {
    InformationScore.ScoreCountsEntries(source.txs[name].fingerprint, entries);
  }

  /** The rows come with the higher score first, and at equal scores in the alphabetical order of
      their sources. */
  lemma {:induction false} RowsInOrder(
      sources: seq<Source>, payload: CardanoPayload, point: ChainPoint, mode: MatchMode, rows: seq<Row>, i: nat, j: nat)
    requires Outcome(sources, payload, point, mode, Ok(rows)) && i < j < |rows|
    ensures rows[i].score > rows[j].score
         || (rows[i].score == rows[j].score && Alphabetical(rows[i].sourceName, rows[j].sourceName))
  {
    hide Genuine, LiftOf;
    var ctx, resolved := payload.parsed.value, payload.resolved;
    var c: seq<Found>, x: seq<Ranked<LiftInputs>> :|
      IsCollection(sources, |sources|, ctx, resolved, c) && IsSelection(c, mode, x) &&
      Lifts(x, ctx, resolved, point, Ok(rows));
    RowFacts(sources, ctx, resolved, point, mode, c, x, rows, i);
    RowFacts(sources, ctx, resolved, point, mode, c, x, rows, j);
    hide IsCollection, IsSelection, Lifts;
    SelectionLaws.SelectedByScoreAndName(c, mode, x);
  }

  lemma {:induction false} OfferIsBeaten(
      sources: seq<Source>, ctx: CardanoTx, resolved: ResolvedInputs, c: seq<Found>, mode: MatchMode,
      x: seq<Ranked<LiftInputs>>,
      k: nat, j: nat, name: string)
    requires IsCollection(sources, |sources|, ctx, resolved, c) && IsSelection(c, mode, x) && k < |x|
    requires Offers(sources, j, name, ctx, resolved) && sources[j].name == x[k].candidate.source
    ensures var score := ScoreOf(sources[j], name, ctx, resolved);
      score < x[k].candidate.score || (score == x[k].candidate.score && !Less(name, x[k].candidate.txName))
  {
    SelectionLaws.OnePerSource(c, mode, x);
    var l := OfferedIsCollected(sources, ctx, resolved, c, j, name);
    assert !Beats(c[l], x[k].candidate);
  }

  lemma {:induction false} OfferedIsCollected(
      sources: seq<Source>, ctx: CardanoTx, resolved: ResolvedInputs, c: seq<Found>, i: nat, name: string)
    returns (k: nat)
    requires IsCollection(sources, |sources|, ctx, resolved, c) && Offers(sources, i, name, ctx, resolved)
    ensures k < |c| && c[k] == CandidateFor(i, sources[i], name, ctx, resolved)
  {
    assert Listed(c, i, name);
    k :| k < |c| && c[k].payload.index == i && c[k].txName == name;
    assert Genuine(sources, ctx, resolved, c[k]);
  }

  /** In mode `All` every source with a qualifying transaction has a row. */
  lemma {:induction false} AllAnswersEveryOffer(
      sources: seq<Source>, payload: CardanoPayload, point: ChainPoint, rows: seq<Row>, i: nat, name: string)
    requires Outcome(sources, payload, point, All, Ok(rows)) && payload.parsed.Some?
    requires Offers(sources, i, name, payload.parsed.value, payload.resolved)
    ensures exists k :: 0 <= k < |rows| && rows[k].sourceName == sources[i].name
  {
    var ctx, resolved := payload.parsed.value, payload.resolved;
    var c: seq<Found>, x: seq<Ranked<LiftInputs>> :|
      IsCollection(sources, |sources|, ctx, resolved, c) && IsSelection(c, All, x) &&
      Lifts(x, ctx, resolved, point, Ok(rows));
    var l := OfferedIsCollected(sources, ctx, resolved, c, i, name);
    SelectionLaws.EverySourceKept(c, x, l);
    var k: nat :| k < |x| && x[k].candidate.source == c[l].source;
    assert |rows| == |x|;
    RowFacts(sources, ctx, resolved, point, All, c, x, rows, k);
  }

  /** In mode `Best` there is a row where anything qualifies, every row has rank one, and no
      qualifying transaction of any source outscores it. */
  lemma {:induction false} BestAnswersWithTheTop(
      sources: seq<Source>, payload: CardanoPayload, point: ChainPoint, rows: seq<Row>, i: nat, name: string)
    requires Outcome(sources, payload, point, Best, Ok(rows)) && payload.parsed.Some?
    requires Offers(sources, i, name, payload.parsed.value, payload.resolved)
    ensures rows != []
    ensures forall k | 0 <= k < |rows| ::
      rows[k].matchRank == 1 && rows[k].score >= ScoreOf(sources[i], name, payload.parsed.value, payload.resolved)
  {
    var ctx, resolved := payload.parsed.value, payload.resolved;
    var c: seq<Found>, x: seq<Ranked<LiftInputs>> :|
      IsCollection(sources, |sources|, ctx, resolved, c) && IsSelection(c, Best, x) &&
      Lifts(x, ctx, resolved, point, Ok(rows));
    var l := OfferedIsCollected(sources, ctx, resolved, c, i, name);
    BestIsNotEmpty(c, x, l);
    assert |rows| == |x|;
    forall k: nat | k < |rows| ensures rows[k].matchRank == 1 && rows[k].score >= c[l].score {
      RowFacts(sources, ctx, resolved, point, Best, c, x, rows, k);
      BestTops(c, x, k, l);
    }
  }

  lemma {:induction false} BestTops<T>(c: seq<Candidate<T>>, x: seq<Ranked<T>>, k: nat, l: nat)
    requires IsSelection(c, Best, x) && k < |x| && l < |c|
    ensures x[k].rank == 1 && x[k].candidate.score >= c[l].score
  {
    assert Kept(c, Best, x[k].candidate);
    RankOneIsMaximal(c, x[k].candidate.score);
  }

  lemma {:induction false} BestIsNotEmpty<T>(c: seq<Candidate<T>>, x: seq<Ranked<T>>, l: nat)
    requires IsSelection(c, Best, x) && l < |c|
    ensures x != []
  {
    var k := SelectionLaws.MaximalScore(c, |c|);
    var m := SurvivorAbove(c, k);
    assert Kept(c, Best, c[m]);
  }

  // ----- a single offer

  /** Where exactly one transaction of the only source qualifies and lifts, there is one row. */
  lemma {:induction false} LoneOffer(
      source: Source, name: string, payload: CardanoPayload, point: ChainPoint, mode: MatchMode)
    returns (row: Row)
    requires payload.parsed.Some? && source.txs.Keys == {name}
    requires Qualifies(source, name, payload.parsed.value, payload.resolved)
    requires LiftOf(Ranked(CandidateFor(0, source, name, payload.parsed.value, payload.resolved), 1),
                    payload.parsed.value, payload.resolved).Ok?
    ensures Outcome([source], payload, point, mode, Ok([row]))
  {
    var ctx, resolved := payload.parsed.value, payload.resolved;
    var c := CandidateFor(0, source, name, ctx, resolved);
    row := LoneLift(Ranked(c, 1), ctx, resolved, point);
    LoneCollection(source, name, ctx, resolved);
    LoneSelection(c, mode);
    hide *;
    OutcomeFrom([source], payload, point, mode, [c], [Ranked(c, 1)], Ok([row]));
  }

  lemma {:induction false} OutcomeFrom(
      sources: seq<Source>, payload: CardanoPayload, point: ChainPoint, mode: MatchMode, c: seq<Found>,
      x: seq<Ranked<LiftInputs>>, r: Result<seq<Row>>)
    requires payload.parsed.Some?
    requires IsCollection(sources, |sources|, payload.parsed.value, payload.resolved, c)
    requires IsSelection(c, mode, x) && Lifts(x, payload.parsed.value, payload.resolved, point, r)
    ensures Outcome(sources, payload, point, mode, r)
  {
    hide IsCollection, IsSelection, Lifts;
  }

  lemma {:induction false} LoneLift(
      survivor: Ranked<LiftInputs>, ctx: CardanoTx, resolved: ResolvedInputs, point: ChainPoint)
    returns (row: Row)
    requires LiftOf(survivor, ctx, resolved).Ok?
    ensures Lifts([survivor], ctx, resolved, point, Ok([row]))
  {
    hide LiftOf;
    row := RowOf(survivor, LiftOf(survivor, ctx, resolved).value, point);
  }

  lemma {:induction false} LoneCollection(source: Source, name: string, ctx: CardanoTx, resolved: ResolvedInputs)
    requires source.txs.Keys == {name} && Qualifies(source, name, ctx, resolved)
    ensures IsCollection([source], 1, ctx, resolved, [CandidateFor(0, source, name, ctx, resolved)])
  {
    var cands := [CandidateFor(0, source, name, ctx, resolved)];
    assert cands[0].payload.index == 0 && cands[0].txName == name;
    assert Listed(cands, 0, name);
    assert Genuine([source], ctx, resolved, cands[0]);
    forall i: nat, other | i < 1 && Qualifies([source][i], other, ctx, resolved) ensures Listed(cands, i, other) {
      assert other in source.txs.Keys;
    }
  }

  lemma {:induction false} LoneSelection<T>(c: Candidate<T>, mode: MatchMode)
    ensures IsSelection([c], mode, [Ranked(c, 1)])
  {
    var cands, out := [c], [Ranked(c, 1)];
    BeatsIrreflexive(c);
    assert IsChampion(cands, 0) && cands[0] == c;
    assert Survives(cands, c) && Kept(cands, mode, c);
    assert forall j | 0 <= j < |cands| :: cands[j].score <= c.score;
    RankOneIsMaximal(cands, c.score);
    forall k | 0 <= k < |cands| && Kept(cands, mode, cands[k])
      ensures exists i :: 0 <= i < |out| && out[i].candidate == cands[k]
    {
      assert out[0].candidate == cands[k];
    }
  }
}
