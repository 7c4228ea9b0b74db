/** Selecting among match candidates: one per source, ranked across sources
    (`select_matches` in bin/tracker/src/process.rs). */
module Selection {
  import opened Base
  import opened Names

  datatype MatchMode = All | Best

  datatype Candidate<+T> = Candidate(source: string, txName: string, score: u32, payload: T)

  datatype Ranked<+T> = Ranked(candidate: Candidate<T>, rank: nat)

  // ----- one survivor per source

  /** A higher score wins, then the alphabetically first transaction name. */
  predicate Beats<T>(c: Candidate<T>, d: Candidate<T>) {
    c.score > d.score || (c.score == d.score && Less(c.txName, d.txName))
  }

  /** Nothing of its source beats candidate `k`, and it beats everything of its source that
      was collected earlier. */
  ghost predicate IsChampion<T>(cands: seq<Candidate<T>>, k: nat) {
    k < |cands| &&
    (forall j | 0 <= j < |cands| && cands[j].source == cands[k].source :: !Beats(cands[j], cands[k])) &&
    (forall j | 0 <= j < k && cands[j].source == cands[k].source :: Beats(cands[k], cands[j]))
  }

  ghost predicate Survives<T>(cands: seq<Candidate<T>>, c: Candidate<T>) {
    exists k: nat :: IsChampion(cands, k) && cands[k] == c
  }

  lemma {:induction false} BeatsTransitive<T>(a: Candidate<T>, b: Candidate<T>, c: Candidate<T>)
    requires Beats(a, b) && !Beats(c, b)
    ensures Beats(a, c)
  {
    if a.score == b.score && c.score == b.score {
      LessTotal(b.txName, c.txName);
      if b.txName != c.txName { LessTransitive(a.txName, b.txName, c.txName); }
    }
  }

  lemma {:induction false} BeatsIrreflexive<T>(a: Candidate<T>)
    ensures !Beats(a, a)
  {
    LessIrreflexive(a.txName);
  }

  lemma {:induction false} BeatsAsymmetric<T>(a: Candidate<T>, b: Candidate<T>)
    requires Beats(a, b)
    ensures !Beats(b, a)
  {
    if a.score == b.score { LessAsymmetric(a.txName, b.txName); }
  }

  /** What one more candidate does to the champions. */
  lemma {:induction false} ChampionStep<T>(cands: seq<Candidate<T>>, i: nat, k: nat)
    requires i < |cands| && IsChampion(cands[..i], k)
    ensures cands[i].source != cands[k].source || !Beats(cands[i], cands[k]) ==> IsChampion(cands[..i + 1], k)
    ensures cands[i].source == cands[k].source && Beats(cands[i], cands[k]) ==> IsChampion(cands[..i + 1], i)
  {
    var done, next := cands[..i], cands[..i + 1];
    assert forall j | 0 <= j < i :: next[j] == done[j];
    if cands[i].source == cands[k].source && Beats(cands[i], cands[k]) {
      forall j | 0 <= j < i && next[j].source == cands[i].source
        ensures Beats(cands[i], next[j]) && !Beats(next[j], cands[i])
      {
        BeatsTransitive(cands[i], cands[k], done[j]);
        BeatsAsymmetric(cands[i], done[j]);
      }
      BeatsIrreflexive(cands[i]);
    }
  }

  lemma {:induction false} FirstOfSource<T>(cands: seq<Candidate<T>>, i: nat)
    requires i < |cands| && forall j | 0 <= j < i :: cands[j].source != cands[i].source
    ensures IsChampion(cands[..i + 1], i)
  {
    BeatsIrreflexive(cands[i]);
  }

  /** The incumbent of every source seen so far is its champion. */
  ghost predicate HoldsChampions<T>(cands: seq<Candidate<T>>, best: map<string, Candidate<T>>) {
    && (forall s | s in best :: best[s].source == s && Survives(cands, best[s]))
    && (forall j | 0 <= j < |cands| :: cands[j].source in best)
  }

  method BestPerSource<T>(cands: seq<Candidate<T>>) returns (best: map<string, Candidate<T>>)
    ensures HoldsChampions(cands, best)
  {
    best := map[];
    for i := 0 to |cands|
      invariant HoldsChampions(cands[..i], best)
    {
      var cand := cands[i];
      var before := best;
      var replace :=
        cand.source !in best || cand.score > best[cand.source].score ||
        (cand.score == best[cand.source].score && Less(cand.txName, best[cand.source].txName));
      if replace {
        best := best[cand.source := cand];
      }
      ChampionsStep(cands, i, before, best);
    }
    assert cands[..|cands|] == cands;
  }

  lemma {:induction false} ChampionsStep<T>(
      cands: seq<Candidate<T>>, i: nat, before: map<string, Candidate<T>>, best: map<string, Candidate<T>>)
    requires i < |cands| && HoldsChampions(cands[..i], before)
    requires var cand := cands[i];
      best == if cand.source !in before || Beats(cand, before[cand.source]) then before[cand.source := cand] else before
    ensures HoldsChampions(cands[..i + 1], best)
  {
    hide Survives, Beats;
    forall s | s in best ensures best[s].source == s && Survives(cands[..i + 1], best[s]) {
      StillSurvives(cands, i, before, s);
    }
    assert cands[..i + 1] == cands[..i] + [cands[i]];
  }

  lemma {:induction false} StillSurvives<T>(
      cands: seq<Candidate<T>>, i: nat, before: map<string, Candidate<T>>, s: string)
    requires i < |cands| && HoldsChampions(cands[..i], before)
    ensures s != cands[i].source && s in before ==> Survives(cands[..i + 1], before[s])
    ensures s == cands[i].source ==>
      Survives(cands[..i + 1], if s !in before || Beats(cands[i], before[s]) then cands[i] else before[s])
  {
    hide Survives, Beats;
    if s in before {
      IncumbentOrChallenger(cands, i, before[s]);
    } else if s == cands[i].source {
      FirstOfItsSource(cands, i, before);
    }
  }

  /** A survivor so far stays one, unless the next candidate is of its source and beats it; then
      that one survives. */
  lemma {:induction false} IncumbentOrChallenger<T>(cands: seq<Candidate<T>>, i: nat, c: Candidate<T>)
    requires i < |cands| && Survives(cands[..i], c)
    ensures Survives(cands[..i + 1], if cands[i].source == c.source && Beats(cands[i], c) then cands[i] else c)
  {
    var k: nat :| IsChampion(cands[..i], k) && cands[..i][k] == c;
    ChampionStep(cands, i, k);
    hide IsChampion, Beats;
    assert cands[..i + 1][k] == c && cands[..i + 1][i] == cands[i];
  }

  lemma {:induction false} FirstOfItsSource<T>(cands: seq<Candidate<T>>, i: nat, before: map<string, Candidate<T>>)
    requires i < |cands| && HoldsChampions(cands[..i], before) && cands[i].source !in before
    ensures Survives(cands[..i + 1], cands[i])
  {
    hide IsChampion, Survives;
    assert forall j | 0 <= j < i :: cands[..i][j].source in before;
    FirstOfSource(cands, i);
    ChampionSurvives(cands[..i + 1], i);
  }

  lemma {:induction false} ChampionSurvives<T>(cands: seq<Candidate<T>>, k: nat)
    requires IsChampion(cands, k)
    ensures Survives(cands, cands[k])
  {}

  // ----- ranking across sources

  predicate Precedes<T>(a: Candidate<T>, b: Candidate<T>) {
    a.score > b.score || (a.score == b.score && Less(a.source, b.source))
  }

  lemma {:induction false} PrecedesTransitive<T>(a: Candidate<T>, b: Candidate<T>, c: Candidate<T>)
    requires Precedes(a, b) && Precedes(b, c)
    ensures Precedes(a, c)
  {
    if a.score == b.score == c.score { LessTransitive(a.source, b.source, c.source); }
  }

  lemma {:induction false} PrecedesTotal<T>(a: Candidate<T>, b: Candidate<T>)
    ensures Precedes(a, b) || Precedes(b, a) || (a.source == b.source && a.score == b.score)
  {
    LessTotal(a.source, b.source);
  }

  lemma {:induction false} PrecedesAsymmetric<T>(a: Candidate<T>, b: Candidate<T>)
    requires Precedes(a, b)
    ensures !Precedes(b, a) && a != b
  {
    if a.score == b.score { LessAsymmetric(a.source, b.source); }
  }

  ghost predicate Sorted<T>(cs: seq<Candidate<T>>) {
    forall i, j | 0 <= i < j < |cs| :: Precedes(cs[i], cs[j])
  }

  ghost predicate DistinctSources<T>(cs: seq<Candidate<T>>) {
    forall i, j | 0 <= i < j < |cs| :: cs[i].source != cs[j].source
  }

  /** Insertion sort by score descending, then source ascending. */
  method SortSurvivors<T>(cs: seq<Candidate<T>>) returns (sorted: seq<Candidate<T>>)
    requires DistinctSources(cs)
    ensures Sorted(sorted)
    ensures forall c :: c in sorted <==> c in cs
  {
    sorted := [];
    for i := 0 to |cs|
      invariant Sorted(sorted)
      invariant forall c :: c in sorted <==> c in cs[..i]
    {
      assert cs[..i + 1] == cs[..i] + [cs[i]];
      forall c | c in sorted ensures c.source != cs[i].source {
        assert c in cs[..i];
        var j :| 0 <= j < i && cs[j] == c;
      }
      sorted := Insert(sorted, cs[i]);
    }
    assert cs[..|cs|] == cs;
  }

  method Insert<T>(sorted: seq<Candidate<T>>, c: Candidate<T>) returns (r: seq<Candidate<T>>)
    requires Sorted(sorted)
    requires forall d | d in sorted :: d.source != c.source
    ensures Sorted(r)
    ensures forall d :: d in r <==> d in sorted || d == c
  {
    var p := 0;
    while p < |sorted| && Precedes(sorted[p], c)
      invariant 0 <= p <= |sorted|
      invariant forall i | 0 <= i < p :: Precedes(sorted[i], c)
    {
      p := p + 1;
    }
    r := sorted[..p] + [c] + sorted[p..];
    forall i | p <= i < |sorted| ensures Precedes(c, sorted[i]) {
      assert sorted[p] in sorted;
      PrecedesTotal(sorted[p], c);
      if i > p { PrecedesTransitive(c, sorted[p], sorted[i]); }
    }
    forall i, j | 0 <= i < j < |r| ensures Precedes(r[i], r[j]) {
      if i < p && j > p { assert Precedes(sorted[i], sorted[j - 1]); }
    }
  }

  ghost function Scores<T>(cs: seq<Candidate<T>>): set<int> {
    ScoresTo(cs, |cs|)
  }

  ghost function ScoresTo<T>(cs: seq<Candidate<T>>, n: nat): set<int>
    requires n <= |cs|
  {
    set i | 0 <= i < n :: cs[i].score
  }

  ghost function Above(scores: set<int>, score: int): set<int> {
    set s | s in scores && s > score
  }

  /** One plus the number of distinct larger scores. */
  ghost function DenseRank(scores: set<int>, score: int): nat {
    1 + |Above(scores, score)|
  }

  lemma {:induction false} ScoresStep<T>(cs: seq<Candidate<T>>, i: nat)
    requires Sorted(cs) && i < |cs|
    ensures ScoresTo(cs, i + 1) == ScoresTo(cs, i) + {cs[i].score}
    ensures cs[i].score in ScoresTo(cs, i) <==> i > 0 && cs[i - 1].score == cs[i].score
  {
    if cs[i].score in ScoresTo(cs, i) {
      var k :| 0 <= k < i && cs[k].score == cs[i].score;
      assert Precedes(cs[i - 1], cs[i]);
      assert k < i - 1 ==> Precedes(cs[k], cs[i - 1]);
    }
  }

  lemma {:induction false} AboveInOrder<T>(cs: seq<Candidate<T>>, i: nat)
    requires Sorted(cs) && i < |cs|
    ensures ScoresTo(cs, i + 1) == Above(Scores(cs), cs[i].score) + {cs[i].score}
  {
    forall k | 0 <= k < |cs| ensures cs[k].score > cs[i].score ==> k < i {
      if k > i { assert Precedes(cs[i], cs[k]); }
    }
    forall k | 0 <= k < i ensures cs[k].score >= cs[i].score {
      assert Precedes(cs[k], cs[i]);
    }
  }

  lemma {:induction false} RankInPrefix<T>(cs: seq<Candidate<T>>, i: nat)
    requires Sorted(cs) && i < |cs|
    ensures DenseRank(Scores(cs), cs[i].score) == |ScoresTo(cs, i + 1)|
    ensures |ScoresTo(cs, i + 1)| == |ScoresTo(cs, i)| + (if i > 0 && cs[i - 1].score == cs[i].score then 0 else 1)
  {
    AboveInOrder(cs, i);
    ScoresStep(cs, i);
    assert cs[i].score !in Above(Scores(cs), cs[i].score);
  }

  method AssignRanks<T>(cs: seq<Candidate<T>>) returns (ranked: seq<Ranked<T>>)
    requires Sorted(cs)
    ensures |ranked| == |cs|
    ensures forall i | 0 <= i < |cs| :: ranked[i] == Ranked(cs[i], DenseRank(Scores(cs), cs[i].score))
  {
    ranked := [];
    var rank := 0;
    var prevScore: Option<u32> := None;
    for i := 0 to |cs|
      invariant |ranked| == i && rank == |ScoresTo(cs, i)|
      invariant prevScore == if i == 0 then None else Some(cs[i - 1].score)
      invariant forall j | 0 <= j < i :: ranked[j] == Ranked(cs[j], DenseRank(Scores(cs), cs[j].score))
    {
      RankInPrefix(cs, i);
      if prevScore != Some(cs[i].score) {
        rank := rank + 1;
        prevScore := Some(cs[i].score);
      }
      ranked := ranked + [Ranked(cs[i], rank)];
    }
  }

  // ----- the whole selection

  ghost predicate InOrder<T>(ranked: seq<Ranked<T>>) {
    forall i, j | 0 <= i < j < |ranked| :: Precedes(ranked[i].candidate, ranked[j].candidate)
  }

  ghost predicate Kept<T>(cands: seq<Candidate<T>>, mode: MatchMode, c: Candidate<T>) {
    Survives(cands, c) && (mode.Best? ==> forall j | 0 <= j < |cands| :: cands[j].score <= c.score)
  }

  ghost function SurvivorScores<T>(cands: seq<Candidate<T>>): set<int> {
    set k: nat | k < |cands| && IsChampion(cands, k) :: cands[k].score
  }

  /** What a selection is, without saying how it is made: in order, exactly the candidates to
      keep, each ranked one past the number of distinct larger survivor scores. */
  ghost predicate IsSelection<T>(cands: seq<Candidate<T>>, mode: MatchMode, out: seq<Ranked<T>>) {
    && InOrder(out)
    && (forall i | 0 <= i < |out| :: Kept(cands, mode, out[i].candidate))
    && (forall k | 0 <= k < |cands| && Kept(cands, mode, cands[k]) ::
      exists i :: 0 <= i < |out| && out[i].candidate == cands[k])
    && (forall i | 0 <= i < |out| :: out[i].rank == DenseRank(SurvivorScores(cands), out[i].candidate.score))
  }

  method SelectMatches<T>(cands: seq<Candidate<T>>, mode: MatchMode) returns (out: seq<Ranked<T>>)
    ensures IsSelection(cands, mode, out)
  {
    var best := BestPerSource(cands);
    var survivors := IntoValues(cands, best);
    var sorted := SortSurvivors(survivors);
    var ranked := AssignRanks(sorted);
    SortedScores(cands, sorted);
    match mode
    case All =>
      out := ranked;
      forall c | Kept(cands, mode, c) ensures exists i :: 0 <= i < |out| && out[i].candidate == c {
        var i :| 0 <= i < |sorted| && sorted[i] == c;
        assert out[i].candidate == c;
      }
    case Best =>
      out := RetainFirst(ranked);
      RetainedIsBest(cands, sorted, ranked, out);
  }

  method IntoValues<T>(cands: seq<Candidate<T>>, best: map<string, Candidate<T>>) returns (values: seq<Candidate<T>>)
    requires HoldsChampions(cands, best)
    ensures DistinctSources(values)
    ensures forall c :: c in values <==> Survives(cands, c)
  {
    var names := SortedNames(best.Keys);
    values := [];
    for i := 0 to |names|
      invariant |values| == i
      invariant forall j | 0 <= j < i :: names[j] in best && values[j] == best[names[j]]
    {
      assert names[i] in names;
      values := values + [best[names[i]]];
    }
    forall i, j | 0 <= i < j < |values| ensures values[i].source != values[j].source {
      LessAsymmetric(names[i], names[j]);
    }
    forall c | Survives(cands, c) ensures c in values {
      OneSurvivor(cands, best, c);
      var i :| 0 <= i < |names| && names[i] == c.source;
      assert values[i] == c;
    }
  }

  lemma {:induction false} OneChampion<T>(cands: seq<Candidate<T>>, k: nat, l: nat)
    requires IsChampion(cands, k) && IsChampion(cands, l) && cands[k].source == cands[l].source
    ensures k == l
  {}

  lemma {:induction false} OneSurvivor<T>(cands: seq<Candidate<T>>, best: map<string, Candidate<T>>, c: Candidate<T>)
    requires HoldsChampions(cands, best) && Survives(cands, c)
    ensures c.source in best && best[c.source] == c
  {
    var k: nat :| IsChampion(cands, k) && cands[k] == c;
    assert Survives(cands, best[c.source]);
    var l: nat :| IsChampion(cands, l) && cands[l] == best[c.source];
    OneChampion(cands, k, l);
  }

  /** Every candidate has a survivor of its source that scores at least as much. */
  lemma {:induction false} SurvivorAbove<T>(cands: seq<Candidate<T>>, j: nat) returns (k: nat)
    requires j < |cands|
    ensures IsChampion(cands, k) && cands[k].source == cands[j].source && cands[k].score >= cands[j].score
  {
    k := ChampionUpTo(cands, j, |cands|);
    assert cands[..|cands|] == cands;
  }

  lemma {:induction false} ChampionIndex<T>(cands: seq<Candidate<T>>, k: nat)
    requires IsChampion(cands, k)
    ensures k < |cands|
  {}

  lemma {:induction false} ChampionUpTo<T>(cands: seq<Candidate<T>>, j: nat, n: nat) returns (k: nat)
    requires j < n <= |cands|
    ensures IsChampion(cands[..n], k) && cands[k].source == cands[j].source && cands[k].score >= cands[j].score
    decreases n
  {
    if exists i :: 0 <= i < n - 1 && cands[i].source == cands[j].source {
      var i :| 0 <= i < n - 1 && cands[i].source == cands[j].source;
      hide IsChampion;
      k := ChampionUpTo(cands, i, n - 1);
      ChampionIndex(cands[..n - 1], k);
      ChampionStep(cands, n - 1, k);
      if cands[n - 1].source == cands[k].source && Beats(cands[n - 1], cands[k]) { k := n - 1; }
      assert cands[..n][j] == cands[j] && cands[..n][k] == cands[k];
    } else {
      FirstOfSource(cands, j);
      k := j;
    }
  }

  lemma {:induction false} SortedScores<T>(cands: seq<Candidate<T>>, sorted: seq<Candidate<T>>)
    requires forall c :: c in sorted <==> Survives(cands, c)
    ensures Scores(sorted) == SurvivorScores(cands)
  {
    forall s | s in Scores(sorted) ensures s in SurvivorScores(cands) {
      var i :| 0 <= i < |sorted| && sorted[i].score == s;
      assert sorted[i] in sorted;
      var k: nat :| IsChampion(cands, k) && cands[k] == sorted[i];
    }
    forall s | s in SurvivorScores(cands) ensures s in Scores(sorted) {
      var k: nat :| k < |cands| && IsChampion(cands, k) && cands[k].score == s;
      assert Survives(cands, cands[k]);
      var i :| 0 <= i < |sorted| && sorted[i] == cands[k];
    }
  }

  /** A survivor has rank one exactly when no candidate at all, surviving or not, scores more. */
  lemma {:induction false} RankOneIsMaximal<T>(cands: seq<Candidate<T>>, score: int)
    ensures DenseRank(SurvivorScores(cands), score) == 1 <==> forall j | 0 <= j < |cands| :: cands[j].score <= score
  {
    var above := Above(SurvivorScores(cands), score);
    if above != {} {
      var s :| s in above;
      var k: nat :| k < |cands| && IsChampion(cands, k) && cands[k].score == s;
      assert cands[k].score > score;
    }
    forall j: nat | j < |cands| && cands[j].score > score ensures above != {} {
      var k := SurvivorAbove(cands, j);
      assert cands[k].score in above;
    }
  }

  lemma {:induction false} RetainedIsBest<T>(
      cands: seq<Candidate<T>>, sorted: seq<Candidate<T>>, ranked: seq<Ranked<T>>, out: seq<Ranked<T>>)
    requires Sorted(sorted) && |ranked| == |sorted|
    requires forall c :: c in sorted <==> Survives(cands, c)
    requires forall i | 0 <= i < |sorted| ::
      ranked[i] == Ranked(sorted[i], DenseRank(SurvivorScores(cands), sorted[i].score))
    requires InOrder(out) && forall r :: r in out <==> r in ranked && r.rank == 1
    ensures IsSelection(cands, Best, out)
  {
    forall i | 0 <= i < |out|
      ensures Kept(cands, Best, out[i].candidate)
      ensures out[i].rank == DenseRank(SurvivorScores(cands), out[i].candidate.score)
    {
      assert out[i] in ranked;
      var k :| 0 <= k < |ranked| && ranked[k] == out[i];
      assert sorted[k] in sorted;
      RankOneIsMaximal(cands, sorted[k].score);
    }
    forall c | Kept(cands, Best, c) ensures exists i :: 0 <= i < |out| && out[i].candidate == c {
      var k :| 0 <= k < |sorted| && sorted[k] == c;
      RankOneIsMaximal(cands, c.score);
      assert ranked[k].rank == 1 && ranked[k] in out;
      var i :| 0 <= i < |out| && out[i] == ranked[k];
      assert out[i].candidate == c;
    }
  }

  method RetainFirst<T>(ranked: seq<Ranked<T>>) returns (out: seq<Ranked<T>>)
    requires InOrder(ranked)
    ensures InOrder(out)
    ensures forall r :: r in out <==> r in ranked && r.rank == 1
  {
    out := [];
    for i := 0 to |ranked|
      invariant InOrder(out)
      invariant forall r :: r in out <==> r in ranked[..i] && r.rank == 1
    {
      assert ranked[..i + 1] == ranked[..i] + [ranked[i]];
      if ranked[i].rank == 1 {
        forall p | 0 <= p < |out| ensures Precedes(out[p].candidate, ranked[i].candidate) {
          assert out[p] in ranked[..i];
          var k :| 0 <= k < i && ranked[k] == out[p];
        }
        out := out + [ranked[i]];
      }
    }
    assert ranked[..|ranked|] == ranked;
  }
}
