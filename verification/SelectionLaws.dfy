/** What a selection of candidates guarantees, for every list of candidates and both modes. */
module SelectionLaws {
  import opened Names
  import opened Selection
  import Ordered

  /** `c` has a lower score than `d`, or the same score and a name that does not come first. */
  ghost predicate Outdone<T>(c: Candidate<T>, d: Candidate<T>) {
    c.score < d.score || (c.score == d.score && !Alphabetical(c.txName, d.txName))
  }

  /** The higher score first, and at equal scores the source that comes first. */
  ghost predicate Ahead<T>(c: Candidate<T>, d: Candidate<T>) {
    c.score > d.score || (c.score == d.score && Alphabetical(c.source, d.source))
  }

  /** Who survives and in which order, by score and alphabet. */
  lemma {:induction false} SelectedByScoreAndName<T>(cands: seq<Candidate<T>>, mode: MatchMode, out: seq<Ranked<T>>)
    requires IsSelection(cands, mode, out)
    ensures forall i | 0 <= i < |out| :: out[i].candidate in cands
    ensures forall i, k | 0 <= i < |out| && 0 <= k < |cands| && cands[k].source == out[i].candidate.source ::
      Outdone(cands[k], out[i].candidate)
    ensures forall i, j | 0 <= i < j < |out| :: Ahead(out[i].candidate, out[j].candidate)
  {
    OnePerSource(cands, mode, out);
    forall i | 0 <= i < |out| ensures out[i].candidate in cands {
      assert Kept(cands, mode, out[i].candidate);
    }
    forall i, k | 0 <= i < |out| && 0 <= k < |cands| && cands[k].source == out[i].candidate.source
      ensures Outdone(cands[k], out[i].candidate)
    {
      LessIsAlphabetical(cands[k].txName, out[i].candidate.txName);
    }
    forall i, j | 0 <= i < j < |out| ensures Ahead(out[i].candidate, out[j].candidate) {
      assert Precedes(out[i].candidate, out[j].candidate);
      LessIsAlphabetical(out[i].candidate.source, out[j].candidate.source);
    }
  }

  /** Dedup: no source appears twice, and each survivor outdoes every other candidate of its
      source, by score and then by name. */
  lemma {:induction false} OnePerSource<T>(cands: seq<Candidate<T>>, mode: MatchMode, out: seq<Ranked<T>>)
    requires IsSelection(cands, mode, out)
    ensures forall i, j | 0 <= i < j < |out| :: out[i].candidate.source != out[j].candidate.source
    ensures forall i, k | 0 <= i < |out| && 0 <= k < |cands| && cands[k].source == out[i].candidate.source ::
      !Beats(cands[k], out[i].candidate)
  {
    forall i, j | 0 <= i < j < |out| ensures out[i].candidate.source != out[j].candidate.source {
      assert Kept(cands, mode, out[i].candidate) && Kept(cands, mode, out[j].candidate);
      var k: nat :| IsChampion(cands, k) && cands[k] == out[i].candidate;
      var l: nat :| IsChampion(cands, l) && cands[l] == out[j].candidate;
      PrecedesAsymmetric(out[i].candidate, out[j].candidate);
      if cands[k].source == cands[l].source { OneChampion(cands, k, l); }
    }
    forall i, k | 0 <= i < |out| && 0 <= k < |cands| && cands[k].source == out[i].candidate.source
      ensures !Beats(cands[k], out[i].candidate)
    {
      assert Kept(cands, mode, out[i].candidate);
      var l: nat :| IsChampion(cands, l) && cands[l] == out[i].candidate;
    }
  }

  /** Without the mode filter every source that had a candidate keeps one. */
  lemma {:induction false} EverySourceKept<T>(cands: seq<Candidate<T>>, out: seq<Ranked<T>>, k: nat)
    requires IsSelection(cands, All, out) && k < |cands|
    ensures exists i :: 0 <= i < |out| && out[i].candidate.source == cands[k].source
  {
    var l := SurvivorAbove(cands, k);
    assert Kept(cands, All, cands[l]);
    var i :| 0 <= i < |out| && out[i].candidate == cands[l];
    assert out[i].candidate.source == cands[k].source;
  }

  /** Ranks start at one and never skip: from one survivor to the next the rank grows by one
      where the score drops and stays where it does not. */
  lemma {:induction false} RanksAreDense<T>(cands: seq<Candidate<T>>, mode: MatchMode, out: seq<Ranked<T>>)
    requires IsSelection(cands, mode, out)
    ensures out != [] ==> out[0].rank == 1
    ensures forall i | 0 <= i < |out| - 1 ::
      out[i + 1].rank == out[i].rank + if out[i + 1].candidate.score < out[i].candidate.score then 1 else 0
  {
    if out != [] { FirstIsMaximal(cands, mode, out); }
    forall i | 0 <= i < |out| - 1
      ensures out[i + 1].rank == out[i].rank + if out[i + 1].candidate.score < out[i].candidate.score then 1 else 0
    {
      RankStep(cands, mode, out, i);
    }
  }

  lemma {:induction false} FirstIsMaximal<T>(cands: seq<Candidate<T>>, mode: MatchMode, out: seq<Ranked<T>>)
    requires IsSelection(cands, mode, out) && out != []
    ensures out[0].rank == 1
  {
    forall j: nat | j < |cands| ensures cands[j].score <= out[0].candidate.score {
      if mode.All? {
        var k := SurvivorAbove(cands, j);
        assert Kept(cands, mode, cands[k]);
        var i :| 0 <= i < |out| && out[i].candidate == cands[k];
        assert i > 0 ==> Precedes(out[0].candidate, out[i].candidate);
      } else {
        assert Kept(cands, mode, out[0].candidate);
      }
    }
    RankOneIsMaximal(cands, out[0].candidate.score);
  }

  lemma {:induction false} RankStep<T>(cands: seq<Candidate<T>>, mode: MatchMode, out: seq<Ranked<T>>, i: nat)
    requires IsSelection(cands, mode, out) && i + 1 < |out|
    ensures out[i + 1].rank == out[i].rank + if out[i + 1].candidate.score < out[i].candidate.score then 1 else 0
  {
    var a, b := out[i].candidate, out[i + 1].candidate;
    assert Precedes(a, b) && Kept(cands, mode, a) && Kept(cands, mode, b);
    if b.score < a.score {
      var k: nat :| IsChampion(cands, k) && cands[k] == a;
      assert mode.All?;
      forall s | s in SurvivorScores(cands) && s > b.score ensures s >= a.score {
        NothingBetween(cands, out, i, s);
      }
      AboveNext(SurvivorScores(cands), b.score, a.score);
    }
  }

  lemma {:induction false} AboveNext(scores: set<int>, low: int, high: int)
    requires high in scores && low < high
    requires forall s | s in scores && s > low :: s >= high
    ensures DenseRank(scores, low) == DenseRank(scores, high) + 1
  {
    assert Above(scores, low) == Above(scores, high) + {high};
    assert high !in Above(scores, high);
  }

  lemma {:induction false} NothingBetween<T>(cands: seq<Candidate<T>>, out: seq<Ranked<T>>, i: nat, s: int)
    requires IsSelection(cands, All, out) && i + 1 < |out|
    requires s in SurvivorScores(cands) && s > out[i + 1].candidate.score
    ensures s >= out[i].candidate.score
  {
    var j := SurvivorAt(cands, out, s);
    hide IsSelection, SurvivorScores;
    ScoresFall(out, i, j);
  }

  lemma {:induction false} SurvivorAt<T>(cands: seq<Candidate<T>>, out: seq<Ranked<T>>, s: int) returns (j: nat)
    requires IsSelection(cands, All, out) && s in SurvivorScores(cands)
    ensures j < |out| && out[j].candidate.score == s && InOrder(out)
  {
    var k: nat :| k < |cands| && IsChampion(cands, k) && cands[k].score == s;
    assert Kept(cands, All, cands[k]) by { assert Survives(cands, cands[k]); }
    j :| j < |out| && out[j].candidate == cands[k];
  }

  lemma {:induction false} ScoresFall<T>(out: seq<Ranked<T>>, i: nat, j: nat)
    requires InOrder(out) && i + 1 < |out| && j < |out|
    ensures j <= i ==> out[j].candidate.score >= out[i].candidate.score
    ensures j > i ==> out[j].candidate.score <= out[i + 1].candidate.score
  {
    assert j < i ==> Precedes(out[j].candidate, out[i].candidate);
    assert j > i + 1 ==> Precedes(out[i + 1].candidate, out[j].candidate);
  }

  /** `Best` keeps exactly the survivors no candidate outscores, and ranks them all first. */
  lemma {:induction false} BestIsMaximal<T>(cands: seq<Candidate<T>>, out: seq<Ranked<T>>, all: seq<Ranked<T>>)
    requires IsSelection(cands, Best, out) && IsSelection(cands, All, all)
    ensures forall r :: r in out <==> r in all && forall k | 0 <= k < |cands| :: cands[k].score <= r.candidate.score
    ensures forall i | 0 <= i < |out| :: out[i].rank == 1
    ensures cands != [] ==> out != []
  {
    forall r | r in out
      ensures r in all && r.rank == 1 && forall k | 0 <= k < |cands| :: cands[k].score <= r.candidate.score
    {
      var i :| 0 <= i < |out| && out[i] == r;
      assert Kept(cands, Best, r.candidate);
      SameRanked(cands, Best, out, i, All, all);
      RankOneIsMaximal(cands, r.candidate.score);
    }
    forall r | r in all && (forall k | 0 <= k < |cands| :: cands[k].score <= r.candidate.score) ensures r in out {
      var i :| 0 <= i < |all| && all[i] == r;
      SameRanked(cands, All, all, i, Best, out);
    }
    if cands != [] {
      var k := MaximalScore(cands, |cands|);
      var l := SurvivorAbove(cands, k);
      assert Kept(cands, Best, cands[l]);
    }
  }

  lemma {:induction false} MaximalScore<T>(cands: seq<Candidate<T>>, n: nat) returns (k: nat)
    requires 0 < n <= |cands|
    ensures k < n && forall j | 0 <= j < n :: cands[j].score <= cands[k].score
  {
    if n == 1 {
      k := 0;
    } else {
      k := MaximalScore(cands, n - 1);
      if cands[n - 1].score > cands[k].score { k := n - 1; }
    }
  }

  lemma {:induction false} SameRanked<T>(
      cands: seq<Candidate<T>>, m: MatchMode, a: seq<Ranked<T>>, i: nat, n: MatchMode, b: seq<Ranked<T>>)
    requires IsSelection(cands, m, a) && IsSelection(cands, n, b)
    requires i < |a| && Kept(cands, n, a[i].candidate)
    ensures a[i] in b
  {
    var k: nat :| IsChampion(cands, k) && cands[k] == a[i].candidate;
    var j :| 0 <= j < |b| && b[j].candidate == cands[k];
    assert b[j] == a[i];
  }

  // ----- independence of order

  /** The specification of a selection leaves no choice, and two lists with the same survivors
      and the same top score have the same selection. */
  lemma {:induction false} SelectionUnique<T>(
      a: seq<Candidate<T>>, b: seq<Candidate<T>>, mode: MatchMode, x: seq<Ranked<T>>, y: seq<Ranked<T>>)
    requires IsSelection(a, mode, x) && IsSelection(b, mode, y)
    requires forall c :: Kept(a, mode, c) <==> Kept(b, mode, c)
    requires SurvivorScores(a) == SurvivorScores(b)
    ensures x == y
  {
    forall r | r in x ensures r in y { SelectedInBoth(a, b, mode, x, y, r); }
    forall r | r in y ensures r in x { SelectedInBoth(b, a, mode, y, x, r); }
    var less := (p: Ranked<T>, q: Ranked<T>) => Precedes(p.candidate, q.candidate);
    forall p, q | p in x && q in x && less(p, q) ensures !less(q, p) {
      PrecedesAsymmetric(p.candidate, q.candidate);
    }
    Ordered.Unique(less, x, y);
  }

  lemma {:induction false} SelectedInBoth<T>(
      a: seq<Candidate<T>>, b: seq<Candidate<T>>, mode: MatchMode, x: seq<Ranked<T>>, y: seq<Ranked<T>>, r: Ranked<T>)
    requires IsSelection(a, mode, x) && IsSelection(b, mode, y)
    requires Kept(a, mode, r.candidate) ==> Kept(b, mode, r.candidate)
    requires SurvivorScores(a) == SurvivorScores(b)
    requires r in x
    ensures r in y
  {
    var i :| 0 <= i < |x| && x[i] == r;
    assert Kept(a, mode, r.candidate);
    var k: nat :| IsChampion(b, k) && b[k] == r.candidate;
    var j :| 0 <= j < |y| && y[j].candidate == b[k];
    assert y[j] == r;
  }

  /** Nothing of its source beats candidate `k`. */
  ghost predicate Unbeaten<T>(cands: seq<Candidate<T>>, k: nat) {
    k < |cands| && forall j | 0 <= j < |cands| && cands[j].source == cands[k].source :: !Beats(cands[j], cands[k])
  }

  /** The survivor of a source is the first of its unbeaten candidates: among those, which have
      the same score and name and differ in payload alone, position decides. */
  lemma {:induction false} EarlierPayloadWins<T>(cands: seq<Candidate<T>>, k: nat)
    ensures IsChampion(cands, k) <==>
      Unbeaten(cands, k) && forall j | 0 <= j < k && cands[j].source == cands[k].source :: !Unbeaten(cands, j)
  {
    if Unbeaten(cands, k) {
      forall j: nat | j < k && cands[j].source == cands[k].source
        ensures !Unbeaten(cands, j) <==> Beats(cands[k], cands[j])
      {
        BeatenByUnbeaten(cands, k, j);
      }
    }
  }

  lemma {:induction false} BeatenByUnbeaten<T>(cands: seq<Candidate<T>>, k: nat, j: nat)
    requires Unbeaten(cands, k) && j < |cands| && cands[j].source == cands[k].source
    ensures Unbeaten(cands, j) <==> !Beats(cands[k], cands[j])
    ensures Unbeaten(cands, j) ==> cands[j].score == cands[k].score && cands[j].txName == cands[k].txName
  {
    LessTotal(cands[k].txName, cands[j].txName);
    if !Beats(cands[k], cands[j]) {
      assert !Beats(cands[j], cands[k]);
      assert cands[j].score == cands[k].score && cands[j].txName == cands[k].txName;
    }
  }

  /** No two different candidates are unbeaten in the same source; for mode `Best`, only among
      those with the top score. */
  ghost predicate Settled<T>(cands: seq<Candidate<T>>, mode: MatchMode) {
    forall j: nat, k: nat | Unbeaten(cands, j) && Unbeaten(cands, k) && cands[j].source == cands[k].source &&
                            (mode.Best? ==> Tops(cands, j)) ::
      cands[j] == cands[k]
  }

  ghost predicate Tops<T>(cands: seq<Candidate<T>>, k: nat)
    requires k < |cands|
  {
    forall j | 0 <= j < |cands| :: cands[j].score <= cands[k].score
  }

  lemma {:induction false} UnbeatenInBoth<T>(a: seq<Candidate<T>>, b: seq<Candidate<T>>, j: nat, k: nat)
    requires forall d :: d in a <==> d in b
    requires j < |a| && k < |b| && a[j] == b[k]
    ensures Unbeaten(a, j) <==> Unbeaten(b, k)
    ensures Tops(a, j) <==> Tops(b, k)
  {
    forall i: nat | i < |b| ensures exists l: nat :: l < |a| && a[l] == b[i] { assert b[i] in a; }
    forall i: nat | i < |a| ensures exists l: nat :: l < |b| && b[l] == a[i] { assert a[i] in b; }
  }

  lemma {:induction false} KeptInBoth<T>(a: seq<Candidate<T>>, b: seq<Candidate<T>>, mode: MatchMode, c: Candidate<T>)
    requires Settled(a, mode) && forall d :: d in a <==> d in b
    ensures Kept(a, mode, c) ==> Kept(b, mode, c)
  {
    if Kept(a, mode, c) {
      var k: nat :| IsChampion(a, k) && a[k] == c;
      assert c in b;
      var n: nat :| n < |b| && b[n] == c;
      UnbeatenInBoth(a, b, k, n);
      var l := ChampionOfSource(b, n);
      assert b[l] in a;
      var m: nat :| m < |a| && a[m] == b[l];
      UnbeatenInBoth(a, b, m, l);
      assert Unbeaten(a, k) && Unbeaten(a, m) && Unbeaten(b, l);
      assert mode.Best? ==> Tops(a, k);
      assert a[k] == a[m];
      assert Survives(b, c);
    }
  }

  lemma {:induction false} ChampionOfSource<T>(cands: seq<Candidate<T>>, j: nat) returns (k: nat)
    requires j < |cands|
    ensures IsChampion(cands, k) && cands[k].source == cands[j].source
  {
    k := SurvivorAbove(cands, j);
  }

  /** The scores of the survivors depend on the candidates alone, not on their order. */
  lemma {:induction false} ScoresInBoth<T>(a: seq<Candidate<T>>, b: seq<Candidate<T>>)
    requires forall d :: d in a <==> d in b
    ensures SurvivorScores(a) <= SurvivorScores(b)
  {
    forall s | s in SurvivorScores(a) ensures s in SurvivorScores(b) {
      var k: nat :| k < |a| && IsChampion(a, k) && a[k].score == s;
      assert a[k] in b;
      var n: nat :| n < |b| && b[n] == a[k];
      var l := SurvivorAbove(b, n);
      assert b[l] in a;
      var m: nat :| m < |a| && a[m] == b[l];
      assert !Beats(a[m], a[k]);
    }
  }

  /** The same candidates in any arrangement, and however often repeated, give the same
      survivors, ranks and order. */
  lemma {:induction false} OrderIrrelevant<T>(
      a: seq<Candidate<T>>, b: seq<Candidate<T>>, mode: MatchMode, x: seq<Ranked<T>>, y: seq<Ranked<T>>)
    requires Settled(a, mode)
    requires forall d :: d in a <==> d in b
    requires IsSelection(a, mode, x) && IsSelection(b, mode, y)
    ensures x == y
  {
    SettledInBoth(a, b, mode);
    forall c ensures Kept(a, mode, c) <==> Kept(b, mode, c) {
      KeptInBoth(a, b, mode, c);
      KeptInBoth(b, a, mode, c);
    }
    ScoresInBoth(a, b);
    ScoresInBoth(b, a);
    SelectionUnique(a, b, mode, x, y);
  }

  lemma {:induction false} SettledInBoth<T>(a: seq<Candidate<T>>, b: seq<Candidate<T>>, mode: MatchMode)
    requires Settled(a, mode) && forall d :: d in a <==> d in b
    ensures Settled(b, mode)
  {
    forall j: nat, k: nat | Unbeaten(b, j) && Unbeaten(b, k) && b[j].source == b[k].source
        && (mode.Best? ==> Tops(b, j))
      ensures b[j] == b[k]
    {
      assert b[j] in a && b[k] in a;
      var l: nat :| l < |a| && a[l] == b[j];
      var m: nat :| m < |a| && a[m] == b[k];
      UnbeatenInBoth(a, b, l, j);
      UnbeatenInBoth(a, b, m, k);
    }
  }

  /** Exactly when order does not matter: every rearrangement has the same selection if and only
      if no two different candidates are unbeaten in one source. */
  lemma {:induction false} OrderIrrelevantExactly<T(!new)>(a: seq<Candidate<T>>, mode: MatchMode)
    ensures Settled(a, mode) <==>
      forall b: seq<Candidate<T>>, x: seq<Ranked<T>>, y: seq<Ranked<T>> |
        multiset(b) == multiset(a) && IsSelection(a, mode, x) && IsSelection(b, mode, y) :: x == y
  {
    if Settled(a, mode) {
      forall b: seq<Candidate<T>>, x: seq<Ranked<T>>, y: seq<Ranked<T>> |
        multiset(b) == multiset(a) && IsSelection(a, mode, x) && IsSelection(b, mode, y)
        ensures x == y
      {
        forall d ensures d in a <==> d in b {
          assert d in a <==> d in multiset(a);
          assert d in b <==> d in multiset(b);
        }
        OrderIrrelevant(a, b, mode, x, y);
      }
    } else {
      var j: nat, k: nat :| Unbeaten(a, j) && Unbeaten(a, k) && a[j].source == a[k].source &&
        (mode.Best? ==> Tops(a, j)) && a[j] != a[k];
      var b, x, y := OrderMatters(a, mode, j, k);
    }
  }

  /** Two different unbeaten candidates of one source: exchanging the first unbeaten one with
      one that differs changes the selection. */
  lemma {:induction false} OrderMatters<T>(a: seq<Candidate<T>>, mode: MatchMode, j: nat, k: nat)
    returns (b: seq<Candidate<T>>, x: seq<Ranked<T>>, y: seq<Ranked<T>>)
    requires Unbeaten(a, j) && Unbeaten(a, k) && a[j].source == a[k].source && a[j] != a[k]
    requires mode.Best? ==> Tops(a, j)
    ensures multiset(b) == multiset(a) && IsSelection(a, mode, x) && IsSelection(b, mode, y) && x != y
  {
    var f, g := FirstAndOther(a, mode, j, k);
    b := a[f := a[g]][g := a[f]];
    forall d ensures d in a <==> d in b { ExchangeKeeps(a, f, g, d); }
    ExchangedChampion(a, b, f, g);
    if mode.Best? {
      TopsAlike(a, f, g);
      UnbeatenInBoth(a, b, g, f);
    }
    x := SelectionExists(a, mode);
    y := SelectionExists(b, mode);
    KeptDiffer(a, b, mode, f, x, y);
  }

  lemma {:induction false} FirstAndOther<T>(
      a: seq<Candidate<T>>, mode: MatchMode, j: nat, k: nat) returns (f: nat, g: nat)
    requires Unbeaten(a, j) && Unbeaten(a, k) && a[j].source == a[k].source && a[j] != a[k]
    requires mode.Best? ==> Tops(a, j)
    ensures IsChampion(a, f) && Unbeaten(a, g) && a[f].source == a[g].source && a[f] != a[g]
    ensures a[f].score == a[g].score && (mode.Best? ==> Tops(a, f))
  {
    f := ChampionOfSource(a, j);
    EarlierPayloadWins(a, f);
    g := if a[j] != a[f] then j else k;
    BeatenByUnbeaten(a, f, j);
    BeatenByUnbeaten(a, f, k);
    if mode.Best? { TopsAlike(a, j, f); }
  }

  lemma {:induction false} KeptDiffer<T>(
      a: seq<Candidate<T>>, b: seq<Candidate<T>>, mode: MatchMode, f: nat, x: seq<Ranked<T>>, y: seq<Ranked<T>>)
    requires IsSelection(a, mode, x) && IsSelection(b, mode, y)
    requires IsChampion(a, f) && IsChampion(b, f) && a[f].source == b[f].source && a[f] != b[f]
    requires mode.Best? ==> Tops(a, f) && Tops(b, f)
    ensures x != y
  {
    assert Survives(a, a[f]) && Survives(b, b[f]);
    assert Kept(a, mode, a[f]) && Kept(b, mode, b[f]);
    var p: nat :| p < |x| && x[p].candidate == a[f];
    var q: nat :| q < |y| && y[q].candidate == b[f];
    OnePerSource(a, mode, x);
    assert x == y ==> p == q;
  }

  lemma {:induction false} TopsAlike<T>(cands: seq<Candidate<T>>, j: nat, k: nat)
    requires j < |cands| && k < |cands| && Tops(cands, j) && cands[j].score == cands[k].score
    ensures Tops(cands, k)
  {}

  lemma {:induction false} ExchangeKeeps<T>(a: seq<Candidate<T>>, f: nat, g: nat, d: Candidate<T>)
    requires f < |a| && g < |a|
    ensures d in a <==> d in a[f := a[g]][g := a[f]]
    ensures multiset(a[f := a[g]][g := a[f]]) == multiset(a)
  {
    var b := a[f := a[g]][g := a[f]];
    assert d in b <==> d in multiset(b);
    assert d in a <==> d in multiset(a);
  }

  lemma {:induction false} ExchangedChampion<T>(a: seq<Candidate<T>>, b: seq<Candidate<T>>, f: nat, g: nat)
    requires IsChampion(a, f) && Unbeaten(a, g) && a[f].source == a[g].source && a[f] != a[g]
    requires b == a[f := a[g]][g := a[f]] && forall d :: d in a <==> d in b
    ensures IsChampion(b, f)
  {
    EarlierPayloadWins(a, f);
    EarlierPayloadWins(b, f);
    UnbeatenInBoth(a, b, g, f);
    assert f < g;
    forall i: nat | i < f && b[i].source == b[f].source ensures !Unbeaten(b, i) {
      UnbeatenInBoth(a, b, i, i);
    }
  }

  // ----- existence

  /** Every list of candidates has a selection. */
  lemma {:induction false} SelectionExists<T>(cands: seq<Candidate<T>>, mode: MatchMode) returns (out: seq<Ranked<T>>)
    ensures IsSelection(cands, mode, out)
  {
    var kept := KeptList(cands, mode);
    var sorted := SortExists(kept);
    out := seq(|sorted|, i requires 0 <= i < |sorted| =>
      Ranked(sorted[i], DenseRank(SurvivorScores(cands), sorted[i].score)));
    forall i | 0 <= i < |out| ensures Kept(cands, mode, out[i].candidate) {
      assert sorted[i] in sorted && sorted[i] in kept;
    }
    forall k | 0 <= k < |cands| && Kept(cands, mode, cands[k])
      ensures exists i :: 0 <= i < |out| && out[i].candidate == cands[k]
    {
      var l: nat :| IsChampion(cands, l) && cands[l] == cands[k];
      assert KeptAt(cands, mode, l) && cands[l] in kept && cands[l] in sorted;
      var i :| 0 <= i < |sorted| && sorted[i] == cands[l];
      assert out[i].candidate == cands[k];
    }
  }

  ghost predicate KeptAt<T>(cands: seq<Candidate<T>>, mode: MatchMode, k: nat) {
    IsChampion(cands, k) && Kept(cands, mode, cands[k])
  }

  /** The positions of the flags that are up, in order. */
  function Raised(flags: seq<bool>): (ks: seq<nat>)
    ensures forall i, j | 0 <= i < j < |ks| :: ks[i] < ks[j]
    ensures forall i | 0 <= i < |ks| :: ks[i] < |flags| && flags[ks[i]]
    ensures forall k: nat | k < |flags| && flags[k] :: k in ks
  {
    if flags == [] then []
    else
      var n := |flags| - 1;
      Raised(flags[..n]) + if flags[n] then [n] else []
  }

  lemma {:induction false} KeptList<T>(cands: seq<Candidate<T>>, mode: MatchMode) returns (cs: seq<Candidate<T>>)
    ensures DistinctSources(cs)
    ensures forall c | c in cs :: Kept(cands, mode, c)
    ensures forall k: nat | KeptAt(cands, mode, k) :: cands[k] in cs
  {
    var flags := seq(|cands|, k requires 0 <= k < |cands| => KeptAt(cands, mode, k));
    var ks := Raised(flags);
    assert forall i | 0 <= i < |ks| :: KeptAt(cands, mode, ks[i]) by {
      assert forall i | 0 <= i < |ks| :: flags[ks[i]];
    }
    assert forall k: nat | KeptAt(cands, mode, k) :: k in ks by {
      assert forall k: nat | KeptAt(cands, mode, k) :: flags[k];
    }
    hide KeptAt, Kept;
    cs := seq(|ks|, i requires 0 <= i < |ks| => cands[ks[i]]);
    ListedAreKept(cands, mode, ks, cs);
    forall k: nat | KeptAt(cands, mode, k) ensures cands[k] in cs {
      var i :| 0 <= i < |ks| && ks[i] == k;
      assert cs[i] == cands[k];
    }
  }

  lemma {:induction false} ListedAreKept<T>(
      cands: seq<Candidate<T>>, mode: MatchMode, ks: seq<nat>, cs: seq<Candidate<T>>)
    requires forall i, j | 0 <= i < j < |ks| :: ks[i] < ks[j]
    requires forall i | 0 <= i < |ks| :: KeptAt(cands, mode, ks[i])
    requires |cs| == |ks| && forall i | 0 <= i < |ks| :: ks[i] < |cands| && cs[i] == cands[ks[i]]
    ensures DistinctSources(cs)
    ensures forall c | c in cs :: Kept(cands, mode, c)
  {
    hide KeptAt, Kept;
    forall i, j | 0 <= i < j < |cs| ensures cs[i].source != cs[j].source {
      KeptApart(cands, mode, ks[i], ks[j]);
    }
    forall i | 0 <= i < |cs| ensures Kept(cands, mode, cs[i]) {
      KeptApart(cands, mode, ks[i], ks[i]);
    }
  }

  lemma {:induction false} KeptApart<T>(cands: seq<Candidate<T>>, mode: MatchMode, k: nat, l: nat)
    requires KeptAt(cands, mode, k) && KeptAt(cands, mode, l)
    ensures k < |cands| && l < |cands| && Kept(cands, mode, cands[k])
    ensures k != l ==> cands[k].source != cands[l].source
  {
    if cands[k].source == cands[l].source { OneChampion(cands, k, l); }
  }

  lemma {:induction false} SortExists<T>(cs: seq<Candidate<T>>) returns (sorted: seq<Candidate<T>>)
    requires DistinctSources(cs)
    ensures Sorted(sorted)
    ensures forall c :: c in sorted <==> c in cs
  {
    if cs == [] {
      sorted := [];
    } else {
      var n := |cs| - 1;
      var before := SortExists(cs[..n]);
      assert cs == cs[..n] + [cs[n]];
      forall d | d in before ensures d.source != cs[n].source {
        assert d in cs[..n];
        var i :| 0 <= i < n && cs[i] == d;
      }
      sorted := InsertExists(before, cs[n]);
    }
  }

  lemma {:induction false} InsertExists<T>(sorted: seq<Candidate<T>>, c: Candidate<T>) returns (r: seq<Candidate<T>>)
    requires Sorted(sorted)
    requires forall d | d in sorted :: d.source != c.source
    ensures Sorted(r)
    ensures forall d :: d in r <==> d in sorted || d == c
  {
    if sorted == [] {
      r := [c];
    } else {
      var n := |sorted| - 1;
      var last := sorted[n];
      assert sorted == sorted[..n] + [last];
      PrecedesTotal(last, c);
      if Precedes(last, c) {
        r := sorted + [c];
        forall d | d in sorted ensures Precedes(d, c) {
          var i :| 0 <= i < |sorted| && sorted[i] == d;
          if i < n { PrecedesTransitive(d, last, c); }
        }
        AppendSorted(sorted, c);
      } else {
        var before := InsertExists(sorted[..n], c);
        r := before + [last];
        assert forall d | d in sorted[..n] :: Precedes(d, last);
        AppendSorted(before, last);
      }
    }
  }

  lemma {:induction false} AppendSorted<T>(sorted: seq<Candidate<T>>, last: Candidate<T>)
    requires Sorted(sorted) && forall d | d in sorted :: Precedes(d, last)
    ensures Sorted(sorted + [last])
  {
    hide Precedes;
    forall i | 0 <= i < |sorted| ensures Precedes(sorted[i], last) { assert sorted[i] in sorted; }
  }

  // ----- idempotence

  function Candidates<T>(out: seq<Ranked<T>>): (cs: seq<Candidate<T>>)
    ensures |cs| == |out| && forall i | 0 <= i < |out| :: cs[i] == out[i].candidate
  {
    seq(|out|, i requires 0 <= i < |out| => out[i].candidate)
  }

  /** Selecting once more from what was selected changes nothing. */
  lemma {:induction false} Idempotent<T>(
      cands: seq<Candidate<T>>, mode: MatchMode, out: seq<Ranked<T>>, again: seq<Ranked<T>>)
    requires IsSelection(cands, mode, out)
    requires IsSelection(Candidates(out), mode, again)
    ensures again == out
  {
    var cs := Candidates(out);
    OnePerSource(cands, mode, out);
    forall k: nat | k < |cs| ensures IsChampion(cs, k) && Kept(cs, mode, cs[k]) {
      BeatsIrreflexive(cs[k]);
      if mode.Best? {
        var l: nat :| IsChampion(cands, l) && cands[l] == cs[k];
        forall j | 0 <= j < |cs| ensures cs[j].score <= cs[k].score {
          assert Kept(cands, Best, out[j].candidate) && Kept(cands, Best, out[k].candidate);
          var m: nat :| IsChampion(cands, m) && cands[m] == cs[j];
        }
      }
    }
    forall i | 0 <= i < |out| ensures out[i].rank == DenseRank(SurvivorScores(cs), out[i].candidate.score) {
      SameRankAgain(cands, mode, out, i);
    }
    assert IsSelection(cs, mode, out);
    SelectionUnique(cs, cs, mode, again, out);
  }

  lemma {:induction false} SameRankAgain<T>(cands: seq<Candidate<T>>, mode: MatchMode, out: seq<Ranked<T>>, i: nat)
    requires IsSelection(cands, mode, out) && i < |out|
    requires forall k: nat | k < |out| :: IsChampion(Candidates(out), k)
    ensures out[i].rank == DenseRank(SurvivorScores(Candidates(out)), out[i].candidate.score)
  {
    var cs := Candidates(out);
    if mode.Best? {
      var c := out[i].candidate;
      assert Kept(cands, Best, c);
      RankOneIsMaximal(cands, c.score);
      forall j | 0 <= j < |cs| ensures cs[j].score <= c.score {
        var m: nat :| IsChampion(cands, m) && cands[m] == out[j].candidate;
      }
      RankOneIsMaximal(cs, c.score);
    } else {
      forall s | s in SurvivorScores(cands) ensures s in SurvivorScores(cs) {
        var k: nat :| k < |cands| && IsChampion(cands, k) && cands[k].score == s;
        assert Kept(cands, mode, cands[k]);
        var j: nat :| j < |out| && out[j].candidate == cands[k];
        assert IsChampion(cs, j) && cs[j].score == s;
      }
      forall s | s in SurvivorScores(cs) ensures s in SurvivorScores(cands) {
        var j: nat :| j < |cs| && IsChampion(cs, j) && cs[j].score == s;
        var k: nat :| IsChampion(cands, k) && cands[k] == out[j].candidate;
      }
      assert SurvivorScores(cs) == SurvivorScores(cands);
    }
  }
}
