/** The order in which sources are configured does not show in the rows, provided that their
    names differ. Candidates carry the position of their source; the laws of selection are
    applied to candidates without it, because that position does change with the order, and
    lifting does not look at it. */
module SourceOrder {
  import opened Base
  import opened Payload
  import opened Process
  import opened Selection
  import opened SelectionLaws
  import opened Store
  import Lifting
  import ProcessLaws

  // ----- selections under a change of payload

  function MapCandidate<T, U>(f: T -> U, c: Candidate<T>): Candidate<U> {
    Candidate(c.source, c.txName, c.score, f(c.payload))
  }

  function MapCandidates<T, U>(f: T -> U, cs: seq<Candidate<T>>): (ds: seq<Candidate<U>>)
    ensures |ds| == |cs| && forall i | 0 <= i < |cs| :: ds[i] == MapCandidate(f, cs[i])
  {
    seq(|cs|, i requires 0 <= i < |cs| => MapCandidate(f, cs[i]))
  }

  function MapRanked<T, U>(f: T -> U, rs: seq<Ranked<T>>): (qs: seq<Ranked<U>>)
    ensures |qs| == |rs| && forall i | 0 <= i < |rs| :: qs[i] == Ranked(MapCandidate(f, rs[i].candidate), rs[i].rank)
  {
    seq(|rs|, i requires 0 <= i < |rs| => Ranked(MapCandidate(f, rs[i].candidate), rs[i].rank))
  }

  lemma {:induction false} ChampionMaps<T, U>(f: T -> U, cands: seq<Candidate<T>>, k: nat)
    ensures IsChampion(MapCandidates(f, cands), k) <==> IsChampion(cands, k)
  {}

  lemma {:induction false} ScoresMap<T, U>(f: T -> U, cands: seq<Candidate<T>>)
    ensures SurvivorScores(MapCandidates(f, cands)) == SurvivorScores(cands)
  {
    forall k: nat | k < |cands| ensures IsChampion(MapCandidates(f, cands), k) <==> IsChampion(cands, k) {
      ChampionMaps(f, cands, k);
    }
  }

  lemma {:induction false} KeptMaps<T, U>(f: T -> U, cands: seq<Candidate<T>>, mode: MatchMode, c: Candidate<T>)
    requires Kept(cands, mode, c)
    ensures Kept(MapCandidates(f, cands), mode, MapCandidate(f, c))
  {
    var k: nat :| IsChampion(cands, k) && cands[k] == c;
    ChampionMaps(f, cands, k);
    assert Survives(MapCandidates(f, cands), MapCandidates(f, cands)[k]);
  }

  lemma {:induction false} KeptComesFrom<T, U>(f: T -> U, cands: seq<Candidate<T>>, mode: MatchMode, d: Candidate<U>)
    returns (k: nat)
    requires Kept(MapCandidates(f, cands), mode, d)
    ensures k < |cands| && MapCandidate(f, cands[k]) == d && Kept(cands, mode, cands[k])
  {
    var ds := MapCandidates(f, cands);
    k :| IsChampion(ds, k) && ds[k] == d;
    ChampionMaps(f, cands, k);
    assert Survives(cands, cands[k]);
    assert mode.Best? ==> forall j | 0 <= j < |cands| :: ds[j].score <= d.score;
  }

  /** Selection does not look at payloads. */
  lemma {:induction false} SelectionMaps<T, U>(
      f: T -> U, cands: seq<Candidate<T>>, mode: MatchMode, out: seq<Ranked<T>>)
    requires IsSelection(cands, mode, out)
    ensures IsSelection(MapCandidates(f, cands), mode, MapRanked(f, out))
  {
    var ds, qs := MapCandidates(f, cands), MapRanked(f, out);
    ScoresMap(f, cands);
    forall i | 0 <= i < |qs| ensures Kept(ds, mode, qs[i].candidate) {
      KeptMaps(f, cands, mode, out[i].candidate);
    }
    forall n | 0 <= n < |ds| && Kept(ds, mode, ds[n]) ensures exists i :: 0 <= i < |qs| && qs[i].candidate == ds[n] {
      var k := KeptComesFrom(f, cands, mode, ds[n]);
      var i :| 0 <= i < |out| && out[i].candidate == cands[k];
      assert qs[i].candidate == ds[n];
    }
    assert InOrder(qs) by {
      forall i, j | 0 <= i < j < |qs| ensures Precedes(qs[i].candidate, qs[j].candidate) {
        assert Precedes(out[i].candidate, out[j].candidate);
      }
    }
  }

  // ----- what the position of a source is good for

  function Unplaced(p: LiftInputs): LiftInputs {
    p.(index := 0)
  }

  ghost predicate DistinctNames(sources: seq<Source>) {
    forall i, j | 0 <= i < j < |sources| :: sources[i].name != sources[j].name
  }

  /** Two candidates of one name and one transaction name are the same. */
  lemma {:induction false} SameNameSameCandidate(
      sources: seq<Source>, ctx: CardanoTx, resolved: ResolvedInputs, c: Found, d: Found)
    requires DistinctNames(sources) && Genuine(sources, ctx, resolved, c) && Genuine(sources, ctx, resolved, d)
    requires c.source == d.source && c.txName == d.txName
    ensures c == d
  {
    ProcessLaws.GenuineFacts(sources, ctx, resolved, c);
    ProcessLaws.GenuineFacts(sources, ctx, resolved, d);
    hide Qualifies, CandidateFor;
    assert c.payload.index == d.payload.index;
  }

  /** From distinct source names no tie is left to position. */
  lemma {:induction false} CollectionSettled(
      sources: seq<Source>, ctx: CardanoTx, resolved: ResolvedInputs, c: seq<Found>, mode: MatchMode)
    requires DistinctNames(sources) && IsCollection(sources, |sources|, ctx, resolved, c)
    ensures Settled(c, mode)
  {
    forall j: nat, k: nat | Unbeaten(c, j) && Unbeaten(c, k) && c[j].source == c[k].source
      ensures c[j] == c[k]
    {
      BeatenByUnbeaten(c, k, j);
      BeatenByUnbeaten(c, j, k);
      assert Genuine(sources, ctx, resolved, c[j]) && Genuine(sources, ctx, resolved, c[k]);
      SameNameSameCandidate(sources, ctx, resolved, c[j], c[k]);
    }
  }

  lemma {:induction false} SettledMaps<T, U>(f: T -> U, cands: seq<Candidate<T>>, mode: MatchMode)
    requires Settled(cands, mode)
    ensures Settled(MapCandidates(f, cands), mode)
  {
    var ds := MapCandidates(f, cands);
    forall j: nat, k: nat | Unbeaten(ds, j) && Unbeaten(ds, k) && ds[j].source == ds[k].source
        && (mode.Best? ==> Tops(ds, j))
      ensures ds[j] == ds[k]
    {
      UnbeatenMaps(f, cands, j);
      UnbeatenMaps(f, cands, k);
    }
  }

  lemma {:induction false} UnbeatenMaps<T, U>(f: T -> U, cands: seq<Candidate<T>>, k: nat)
    ensures Unbeaten(MapCandidates(f, cands), k) <==> Unbeaten(cands, k)
    ensures k < |cands| ==> (Tops(MapCandidates(f, cands), k) <==> Tops(cands, k))
  {
    var ds := MapCandidates(f, cands);
    assert forall j | 0 <= j < |cands| :: ds[j].score == cands[j].score;
  }

  lemma {:induction false} SameOffers(
      sources: seq<Source>, others: seq<Source>, ctx: CardanoTx, resolved: ResolvedInputs, c: seq<Found>, d: seq<Found>,
      e: Found)
    requires forall s :: s in sources ==> s in others
    requires IsCollection(sources, |sources|, ctx, resolved, c) && IsCollection(others, |others|, ctx, resolved, d)
    requires e in MapCandidates(Unplaced, c)
    ensures e in MapCandidates(Unplaced, d)
  {
    var k: nat :| k < |c| && MapCandidates(Unplaced, c)[k] == e;
    assert Genuine(sources, ctx, resolved, c[k]);
    ProcessLaws.GenuineFacts(sources, ctx, resolved, c[k]);
    var i := c[k].payload.index;
    assert sources[i] in others;
    var j: nat :| j < |others| && others[j] == sources[i];
    var l := ProcessLaws.OfferedIsCollected(others, ctx, resolved, d, j, c[k].txName);
    UnplacedAlike(sources, others, i, j, ctx, resolved, c[k], d[l]);
    assert MapCandidates(Unplaced, d)[l] == e;
  }

  lemma {:induction false} UnplacedAlike(
      sources: seq<Source>, others: seq<Source>, i: nat, j: nat, ctx: CardanoTx, resolved: ResolvedInputs, c: Found,
      d: Found)
    requires i < |sources| && j < |others| && sources[i] == others[j]
    requires Genuine(sources, ctx, resolved, c) && c.payload.index == i
    requires Qualifies(others[j], c.txName, ctx, resolved) && d == CandidateFor(j, others[j], c.txName, ctx, resolved)
    ensures MapCandidate(Unplaced, c) == MapCandidate(Unplaced, d)
  {
    assert c == CandidateFor(i, sources[i], c.txName, ctx, resolved);
  }

  /** Survivors that agree up to the position of their source lift to the same rows, or fail
      with the same error. */
  lemma {:induction false} LiftsAlike(
      x: seq<Ranked<LiftInputs>>, y: seq<Ranked<LiftInputs>>, ctx: CardanoTx, resolved: ResolvedInputs,
      point: ChainPoint,
      r: Result<seq<Row>>)
    requires MapRanked(Unplaced, x) == MapRanked(Unplaced, y) && Lifts(x, ctx, resolved, point, r)
    ensures Lifts(y, ctx, resolved, point, r)
  {
    hide LiftOf, RowOf, MapRanked;
    SurvivorsAlike(x, y, ctx, resolved, point);
    if r.Err? {
      var i :|
        0 <= i < |x| && LiftOf(x[i], ctx, resolved) == Err(r.error)
        && forall j | 0 <= j < i :: LiftOf(x[j], ctx, resolved).Ok?;
      assert LiftOf(y[i], ctx, resolved) == Err(r.error);
    }
  }

  lemma {:induction false} SurvivorsAlike(
      x: seq<Ranked<LiftInputs>>, y: seq<Ranked<LiftInputs>>, ctx: CardanoTx, resolved: ResolvedInputs,
      point: ChainPoint)
    requires MapRanked(Unplaced, x) == MapRanked(Unplaced, y)
    ensures |x| == |y|
    ensures forall i | 0 <= i < |x| :: LiftOf(x[i], ctx, resolved) == LiftOf(y[i], ctx, resolved)
    ensures forall i, l | 0 <= i < |x| :: RowOf(x[i], l, point) == RowOf(y[i], l, point)
  {
    hide LiftOf, RowOf;
    assert |x| == |MapRanked(Unplaced, x)| && |y| == |MapRanked(Unplaced, y)|;
    forall i | 0 <= i < |x|
      ensures LiftOf(x[i], ctx, resolved) == LiftOf(y[i], ctx, resolved)
      ensures forall l :: RowOf(x[i], l, point) == RowOf(y[i], l, point)
    {
      assert MapRanked(Unplaced, x)[i] == MapRanked(Unplaced, y)[i];
      AlikeSurvivors(x[i], y[i], ctx, resolved, point);
    }
  }

  lemma {:induction false} AlikeSurvivors(
      a: Ranked<LiftInputs>, b: Ranked<LiftInputs>, ctx: CardanoTx, resolved: ResolvedInputs, point: ChainPoint)
    requires MapCandidate(Unplaced, a.candidate) == MapCandidate(Unplaced, b.candidate) && a.rank == b.rank
    ensures LiftOf(a, ctx, resolved) == LiftOf(b, ctx, resolved)
    ensures forall l :: RowOf(a, l, point) == RowOf(b, l, point)
  {
    var p, q := Unplaced(a.candidate.payload), Unplaced(b.candidate.payload);
    assert p == q && p.source == a.candidate.payload.source && q.source == b.candidate.payload.source;
    hide Lifting.LiftedView;
  }

  /** Where the names of the sources differ, the same sources in any order give the same rows or
      the same error. */
  lemma {:induction false} SourceOrderIrrelevant(
      sources: seq<Source>, others: seq<Source>, payload: CardanoPayload, point: ChainPoint, mode: MatchMode,
      r: Result<seq<Row>>, s: Result<seq<Row>>)
    requires DistinctNames(sources) && forall source :: source in sources <==> source in others
    requires Outcome(sources, payload, point, mode, r) && Outcome(others, payload, point, mode, s)
    ensures r == s
  {
    if payload.parsed.Some? {
      var ctx, resolved := payload.parsed.value, payload.resolved;
      var c: seq<Found>, x: seq<Ranked<LiftInputs>> :|
        IsCollection(sources, |sources|, ctx, resolved, c)
        && IsSelection(c, mode, x) && Lifts(x, ctx, resolved, point, r);
      var d: seq<Found>, y: seq<Ranked<LiftInputs>> :|
        IsCollection(others, |others|, ctx, resolved, d)
        && IsSelection(d, mode, y) && Lifts(y, ctx, resolved, point, s);
      hide *;
      SameSurvivors(sources, others, ctx, resolved, mode, c, d, x, y);
      LiftsAlike(x, y, ctx, resolved, point, r);
      ProcessLaws.LiftsUnique(y, ctx, resolved, point, r, s);
    }
  }

  lemma {:induction false} SameSurvivors(
      sources: seq<Source>, others: seq<Source>, ctx: CardanoTx, resolved: ResolvedInputs, mode: MatchMode,
      c: seq<Found>, d: seq<Found>, x: seq<Ranked<LiftInputs>>, y: seq<Ranked<LiftInputs>>)
    requires DistinctNames(sources) && forall source :: source in sources <==> source in others
    requires IsCollection(sources, |sources|, ctx, resolved, c) && IsSelection(c, mode, x)
    requires IsCollection(others, |others|, ctx, resolved, d) && IsSelection(d, mode, y)
    ensures MapRanked(Unplaced, x) == MapRanked(Unplaced, y)
  {
    hide IsCollection, IsSelection, Settled, DistinctNames;
    CollectionSettled(sources, ctx, resolved, c, mode);
    SettledMaps(Unplaced, c, mode);
    SelectionMaps(Unplaced, c, mode, x);
    SelectionMaps(Unplaced, d, mode, y);
    forall e ensures e in MapCandidates(Unplaced, c) <==> e in MapCandidates(Unplaced, d) {
      if e in MapCandidates(Unplaced, c) { SameOffers(sources, others, ctx, resolved, c, d, e); }
      if e in MapCandidates(Unplaced, d) { SameOffers(others, sources, ctx, resolved, d, c, e); }
    }
    OrderIrrelevant(MapCandidates(Unplaced, c), MapCandidates(Unplaced, d), mode,
                    MapRanked(Unplaced, x), MapRanked(Unplaced, y));
  }
}
