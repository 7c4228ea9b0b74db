/** When the greedy output loop finds an assignment whenever there is one. */
module OutputCompleteness {
  // Matching is known to be greedy rather than optimal; for outputs the TIR alone tells whether
  // that matters.

  import opened Base
  import opened Tir
  import opened Expr
  import opened Payload
  import opened Greedy
  import opened Matching
  import opened MatchLaws
  import Witness

  // ----- choices, and counting with them

  /** One entry for every required element and possibly for others, no entry twice. */
  ghost predicate IsChoice(outputs: seq<Output>, outs: seq<TxOutput>, f: seq<Option<nat>>) {
    && |f| == |outputs|
    && (forall t | 0 <= t < |f| :: !outputs[t].optional ==> f[t].Some?)
    && (forall t | 0 <= t < |f| && f[t].Some? :: f[t].value < |outs| && OutputAccepts(outputs[t], outs[f[t].value]))
    && Injective(f)
  }

  ghost predicate Injective(f: seq<Option<nat>>) {
    forall s, t | 0 <= s < t < |f| && f[s].Some? && f[t].Some? :: f[s].value != f[t].value
  }

  ghost predicate Choosable(outputs: seq<Output>, outs: seq<TxOutput>) {
    exists f :: IsChoice(outputs, outs, f)
  }

  ghost predicate Covers(f: seq<Option<nat>>, ts: set<nat>) {
    forall t | t in ts :: t < |f| && f[t].Some?
  }

  ghost function Image(f: seq<Option<nat>>, ts: set<nat>): set<nat>
    requires Covers(f, ts)
  {
    set t | t in ts :: f[t].value
  }

  lemma {:induction false} ImageCardinality(f: seq<Option<nat>>, ts: set<nat>)
    requires Covers(f, ts) && Injective(f)
    ensures |Image(f, ts)| == |ts|
  {
    if t :| t in ts {
      var rest := ts - {t};
      ImageCardinality(f, rest);
      assert Image(f, ts) == Image(f, rest) + {f[t].value};
    }
  }

  /** What the slots of a run hold, as a choice. */
  function Held(slots: seq<seq<nat>>): seq<Option<nat>> {
    seq(|slots|, t requires 0 <= t < |slots| => if slots[t] == [] then None else Some(slots[t][0]))
  }

  lemma {:induction false} HeldInjective(slots: seq<seq<nat>>)
    requires Disjoint(slots)
    ensures Injective(Held(slots))
  {
    var f := Held(slots);
    forall s, t | 0 <= s < t < |f| && f[s].Some? && f[t].Some? ensures f[s].value != f[t].value {
      assert slots[s][0] != slots[t][0];
    }
  }

  lemma {:induction false} HeldIsChoice(outputs: seq<Output>, outs: seq<TxOutput>, slots: seq<seq<nat>>)
    requires Assign(OutputDemands(outputs, outs), {}) == Some(slots)
    ensures IsChoice(outputs, outs, Held(slots))
  {
    OutputsSound(outputs, outs, slots);
    HeldInjective(slots);
    forall t | 0 <= t < |outputs|
      ensures !outputs[t].optional ==> Held(slots)[t].Some?
      ensures Held(slots)[t].Some? ==> Held(slots)[t].value in OutputRow(outputs[t], outs)
    {
      assert OutputSlotOk(outputs[t], slots[t], Before(slots, t), outs);
    }
  }

  // ----- no stealing, so greedy is complete

  /** Output `s` cannot take an entry that output `t`, coming later and required, depends on:
      they pin different addresses, or `s` is required too and accepts nothing `t` rejects. */
  predicate CannotSteal(s: Output, t: Output) {
    var ps, pt := ConstAddress(s.address), ConstAddress(t.address);
    (ps.Some? && pt.Some? && ps != pt) || (!s.optional && (pt.None? || ps == pt))
  }

  predicate NoStealing(outputs: seq<Output>) {
    forall s, t | 0 <= s < t < |outputs| && !outputs[t].optional :: CannotSteal(outputs[s], outputs[t])
  }

  lemma {:induction false} RowsNested(s: Output, t: Output, outs: seq<TxOutput>, x: nat)
    requires CannotSteal(s, t) && x in OutputRow(s, outs) && x in OutputRow(t, outs)
    ensures !s.optional && OutputRow(s, outs) <= OutputRow(t, outs)
  {
  }

  /** The demands in front of `k` that hold an entry output `k` could use. */
  ghost function Holders(outputs: seq<Output>, outs: seq<TxOutput>, slots: seq<seq<nat>>, k: nat): set<nat>
    requires k < |outputs|
  {
    set j: nat | j < |slots| && slots[j] != [] && slots[j][0] in OutputRow(outputs[k], outs)
  }

  /** Pigeonhole: `js` hold all of `row`, so `js` and `k` together cannot each get an entry
      of it. */
  lemma {:induction false} TooMany(row: set<nat>, js: set<nat>, k: nat, held: seq<Option<nat>>, f: seq<Option<nat>>)
    requires k !in js && Injective(held) && Injective(f)
    requires Covers(held, js) && row <= Image(held, js)
    requires Covers(f, js + {k})
    ensures !(Image(f, js + {k}) <= row)
  {
    ImageCardinality(held, js);
    SubsetCardinality(row, Image(held, js));
    ImageCardinality(f, js + {k});
    if Image(f, js + {k}) <= row { SubsetCardinality(Image(f, js + {k}), row); }
  }

  /** If output `k` finds nothing free, then its entries are all held by outputs that need
      them too: there is no choice. */
  lemma {:induction false} FailureMeansNoChoice(outputs: seq<Output>, outs: seq<TxOutput>, f: seq<Option<nat>>)
    requires NoStealing(outputs) && Assign(OutputDemands(outputs, outs), {}).None?
    ensures !IsChoice(outputs, outs, f)
  {
    var ds := OutputDemands(outputs, outs);
    var k, slots := FailureAt(ds, {});
    assert ds[..k] == OutputDemands(outputs[..k], outs);
    assert {} + Before(slots, k) == Before(slots, k);
    StuckMeansNoChoice(outputs, outs, f, k, slots);
  }

  lemma {:induction false} StuckMeansNoChoice(outputs: seq<Output>, outs: seq<TxOutput>, f: seq<Option<nat>>, k: nat,
                                              slots: seq<seq<nat>>)
    requires NoStealing(outputs) && k < |outputs| && |slots| == k
    requires Assign(OutputDemands(outputs[..k], outs), {}) == Some(slots)
    requires Serve(OutputDemand(outputs[k], outs), Before(slots, k)).None?
    ensures !IsChoice(outputs, outs, f)
  {
    var row := OutputRow(outputs[k], outs);
    ServeOne(row, !outputs[k].optional, Before(slots, k));
    OutputsSound(outputs[..k], outs, slots);
    HeldInjective(slots);
    var js := Holders(outputs, outs, slots, k);
    AtMostOneEach(outputs[..k], outs, slots);
    HoldersHoldRow(outputs, outs, slots, k);
    if IsChoice(outputs, outs, f) {
      HoldersNeedRow(outputs, outs, slots, k, f);
      TooMany(row, js, k, Held(slots), f);
    }
  }

  lemma {:induction false} AtMostOneEach(outputs: seq<Output>, outs: seq<TxOutput>, slots: seq<seq<nat>>)
    requires Assign(OutputDemands(outputs, outs), {}) == Some(slots)
    ensures forall j | 0 <= j < |slots| :: |slots[j]| <= 1
  {
    OutputsSound(outputs, outs, slots);
    forall j | 0 <= j < |slots| ensures |slots[j]| <= 1 {
      assert OutputSlotOk(outputs[j], slots[j], Before(slots, j), outs);
    }
  }

  lemma {:induction false} HoldersHoldRow(outputs: seq<Output>, outs: seq<TxOutput>, slots: seq<seq<nat>>, k: nat)
    requires k < |outputs| && |slots| == k
    requires forall j | 0 <= j < |slots| :: |slots[j]| <= 1
    requires OutputRow(outputs[k], outs) <= Before(slots, k)
    ensures var js := Holders(outputs, outs, slots, k);
      Covers(Held(slots), js) && OutputRow(outputs[k], outs) <= Image(Held(slots), js)
  {
    var js := Holders(outputs, outs, slots, k);
    forall x | x in OutputRow(outputs[k], outs) ensures x in Image(Held(slots), js) {
      var j: nat, i: nat :| j < k && i < |slots[j]| && slots[j][i] == x;
      assert j in js && Held(slots)[j] == Some(x);
    }
  }

  lemma {:induction false} HoldersNeedRow(outputs: seq<Output>, outs: seq<TxOutput>, slots: seq<seq<nat>>, k: nat,
                                          f: seq<Option<nat>>)
    requires k < |outputs| && |slots| == k && NoStealing(outputs) && IsChoice(outputs, outs, f) && !outputs[k].optional
    requires Assign(OutputDemands(outputs[..k], outs), {}) == Some(slots)
    ensures var js := Holders(outputs, outs, slots, k);
      Covers(f, js + {k}) && Image(f, js + {k}) <= OutputRow(outputs[k], outs)
  {
    var front := outputs[..k];
    OutputsSound(front, outs, slots);
    forall j | j in Holders(outputs, outs, slots, k)
      ensures !outputs[j].optional && OutputRow(outputs[j], outs) <= OutputRow(outputs[k], outs)
    {
      assert OutputSlotOk(front[j], slots[j], Before(slots, j), outs);
      RowsNested(outputs[j], outputs[k], outs, slots[j][0]);
    }
  }

  /** On the fragment, the loop gives up exactly when there is nothing to find. */
  lemma {:induction false} GreedyCompleteWithoutStealing(outputs: seq<Output>, outs: seq<TxOutput>)
    requires NoStealing(outputs)
    ensures Assign(OutputDemands(outputs, outs), {}).None? <==> !Choosable(outputs, outs)
  {
    var r := Assign(OutputDemands(outputs, outs), {});
    if r.Some? {
      HeldIsChoice(outputs, outs, r.value);
    } else {
      forall f ensures !IsChoice(outputs, outs, f) { FailureMeansNoChoice(outputs, outs, f); }
    }
  }

  // ----- stealing is possible, so greedy fails somewhere

  /** The outputs that compete for entries with address `a`; with `open`, also the required
      ones that accept any address. */
  predicate Competes(o: Output, a: Base.Bytes, open: bool) {
    !o.optional && (ConstAddress(o.address) == Some(a) || (open && ConstAddress(o.address).None?))
  }

  function Competitors(outputs: seq<Output>, a: Base.Bytes, open: bool): nat {
    if outputs == [] then 0
    else (if Competes(outputs[0], a, open) then 1 else 0) + Competitors(outputs[1..], a, open)
  }

  /** What the other required outputs need. */
  function Others(outputs: seq<Output>, a: Base.Bytes, open: bool): seq<TxOutput> {
    if outputs == [] then []
    else
      (if outputs[0].optional || Competes(outputs[0], a, open) then []
       else [Witness.OutputAt(ConstAddress(outputs[0].address))]) + Others(outputs[1..], a, open)
  }

  /** Just enough entries: those with address `a` first. */
  function Tight(outputs: seq<Output>, a: Base.Bytes, open: bool): seq<TxOutput> {
    seq(Competitors(outputs, a, open), _ => Witness.OutputAt(Some(a))) + Others(outputs, a, open)
  }

  /** The choice that gives competitors the entries from `na` on and the others those from
      `nb` on. */
  function TightChoice(outputs: seq<Output>, a: Base.Bytes, open: bool, na: nat, nb: nat): seq<Option<nat>> {
    if outputs == [] then []
    else if outputs[0].optional then [None] + TightChoice(outputs[1..], a, open, na, nb)
    else if Competes(outputs[0], a, open) then [Some(na)] + TightChoice(outputs[1..], a, open, na + 1, nb)
    else [Some(nb)] + TightChoice(outputs[1..], a, open, na, nb + 1)
  }

  /** The tight choice on a suffix of the outputs: required outputs and only they get an
      entry, competitors out of `[na, ea)` and the others out of `[nb, eb)`. */
  ghost predicate InRanges(outputs: seq<Output>, a: Base.Bytes, open: bool, na: nat, ea: nat, nb: nat, eb: nat,
                           f: seq<Option<nat>>) {
    && |f| == |outputs|
    && (forall t | 0 <= t < |f| :: f[t].Some? <==> !outputs[t].optional)
    && (forall t | 0 <= t < |f| && f[t].Some? ::
          if Competes(outputs[t], a, open) then na <= f[t].value < ea else nb <= f[t].value < eb)
  }

  ghost predicate Accepted(outputs: seq<Output>, outs: seq<TxOutput>, f: seq<Option<nat>>)
    requires |f| == |outputs|
  {
    forall t | 0 <= t < |f| && f[t].Some? && f[t].value < |outs| :: OutputAccepts(outputs[t], outs[f[t].value])
  }

  ghost predicate Hit(f: seq<Option<nat>>, outputs: seq<Output>, a: Base.Bytes, open: bool, competing: bool, i: nat)
    requires |f| == |outputs|
  {
    exists t: nat :: t < |f| && f[t] == Some(i) && Competes(outputs[t], a, open) == competing
  }

  lemma {:induction false} HitCons(f: seq<Option<nat>>, outputs: seq<Output>, a: Base.Bytes, open: bool,
                                   competing: bool, i: nat)
    requires |f| == |outputs| && f != []
    ensures Hit(f[1..], outputs[1..], a, open, competing, i) ==> Hit(f, outputs, a, open, competing, i)
    ensures f[0] == Some(i) && Competes(outputs[0], a, open) == competing ==> Hit(f, outputs, a, open, competing, i)
  {
    if Hit(f[1..], outputs[1..], a, open, competing, i) {
      var t: nat :| t < |f[1..]| && f[1..][t] == Some(i) && Competes(outputs[1..][t], a, open) == competing;
      assert f[t + 1] == Some(i) && Competes(outputs[t + 1], a, open) == competing;
    }
  }

  lemma {:induction false} TightChoiceCons(outputs: seq<Output>, a: Base.Bytes, open: bool, na: nat, nb: nat)
    requires outputs != []
    ensures TightChoice(outputs, a, open, na, nb) ==
      [if outputs[0].optional then None else Some(if Competes(outputs[0], a, open) then na else nb)] +
      TightChoice(outputs[1..], a, open, if Competes(outputs[0], a, open) then na + 1 else na,
                  if outputs[0].optional || Competes(outputs[0], a, open) then nb else nb + 1)
  {}

  lemma {:induction false} TightInRanges(outputs: seq<Output>, a: Base.Bytes, open: bool, na: nat, nb: nat)
    ensures InRanges(outputs, a, open, na, na + Competitors(outputs, a, open), nb, nb + |Others(outputs, a, open)|,
                     TightChoice(outputs, a, open, na, nb))
    decreases |outputs|
  {
    if outputs != [] {
      var o, rest := outputs[0], outputs[1..];
      var na' := if Competes(o, a, open) then na + 1 else na;
      var nb' := if o.optional || Competes(o, a, open) then nb else nb + 1;
      TightInRanges(rest, a, open, na', nb');
      var f := TightChoice(outputs, a, open, na, nb);
      assert f[1..] == TightChoice(rest, a, open, na', nb');
      assert forall t | 0 < t < |f| :: f[t] == f[1..][t - 1] && outputs[t] == rest[t - 1];
    }
  }

  lemma {:induction false} TightInjective(outputs: seq<Output>, a: Base.Bytes, open: bool, na: nat, nb: nat)
    requires na + Competitors(outputs, a, open) <= nb
    ensures Injective(TightChoice(outputs, a, open, na, nb))
    decreases |outputs|
  {
    hide ConstAddress;
    if outputs != [] {
      var o, rest := outputs[0], outputs[1..];
      var na' := if Competes(o, a, open) then na + 1 else na;
      var nb' := if o.optional || Competes(o, a, open) then nb else nb + 1;
      TightInjective(rest, a, open, na', nb');
      TightInRanges(rest, a, open, na', nb');
      var f := TightChoice(outputs, a, open, na, nb);
      assert f[1..] == TightChoice(rest, a, open, na', nb');
      assert forall t | 0 < t < |f| :: f[t] == f[1..][t - 1] && outputs[t] == rest[t - 1];
    }
  }

  /** `outs` holds, from `na` and from `nb` on, what the suffix of the outputs needs. */
  ghost predicate TightAt(outputs: seq<Output>, a: Base.Bytes, open: bool, na: nat, nb: nat, outs: seq<TxOutput>) {
    var ea := na + Competitors(outputs, a, open);
    && ea <= nb && nb + |Others(outputs, a, open)| == |outs|
    && (forall i | na <= i < ea :: outs[i] == Witness.OutputAt(Some(a)))
    && (forall i | nb <= i < |outs| :: outs[i] == Others(outputs, a, open)[i - nb])
  }

  lemma {:induction false} TightAccepted(
      outputs: seq<Output>, a: Base.Bytes, open: bool, na: nat, nb: nat, outs: seq<TxOutput>)
    requires TightAt(outputs, a, open, na, nb, outs)
    ensures |TightChoice(outputs, a, open, na, nb)| == |outputs|
    ensures Accepted(outputs, outs, TightChoice(outputs, a, open, na, nb))
    decreases |outputs|
  {
    hide ConstAddress;
    if outputs != [] {
      var o, rest := outputs[0], outputs[1..];
      var na' := if Competes(o, a, open) then na + 1 else na;
      var nb' := if o.optional || Competes(o, a, open) then nb else nb + 1;
      TightAccepted(rest, a, open, na', nb', outs);
      var f := TightChoice(outputs, a, open, na, nb);
      assert f[1..] == TightChoice(rest, a, open, na', nb');
      assert forall t | 0 < t < |f| :: f[t] == f[1..][t - 1] && outputs[t] == rest[t - 1];
    }
  }

  lemma {:induction false} TightHits(outputs: seq<Output>, a: Base.Bytes, open: bool, na: nat, nb: nat, i: nat)
    ensures |TightChoice(outputs, a, open, na, nb)| == |outputs|
    ensures na <= i < na + Competitors(outputs, a, open) ==>
      Hit(TightChoice(outputs, a, open, na, nb), outputs, a, open, true, i)
    ensures nb <= i < nb + |Others(outputs, a, open)| ==>
      Hit(TightChoice(outputs, a, open, na, nb), outputs, a, open, false, i)
    decreases |outputs|
  {
    if outputs != [] {
      var o, rest := outputs[0], outputs[1..];
      var na' := if Competes(o, a, open) then na + 1 else na;
      var nb' := if o.optional || Competes(o, a, open) then nb else nb + 1;
      TightHits(rest, a, open, na', nb', i);
      hide ConstAddress, TightChoice;
      var f := TightChoice(outputs, a, open, na, nb);
      TightChoiceCons(outputs, a, open, na, nb);
      assert f[1..] == TightChoice(rest, a, open, na', nb');
      HitCons(f, outputs, a, open, true, i);
      HitCons(f, outputs, a, open, false, i);
    }
  }

  function Start(outputs: seq<Output>, a: Base.Bytes, open: bool): seq<Option<nat>> {
    TightChoice(outputs, a, open, 0, Competitors(outputs, a, open))
  }

  lemma {:induction false} TightIsChoice(outputs: seq<Output>, a: Base.Bytes, open: bool)
    ensures IsChoice(outputs, Tight(outputs, a, open), Start(outputs, a, open))
  {
    hide TightChoice, Competitors, Competes, Others, OutputAccepts, ConstAddress;
    var n := Competitors(outputs, a, open);
    TightInRanges(outputs, a, open, 0, n);
    TightInjective(outputs, a, open, 0, n);
    TightAccepted(outputs, a, open, 0, n, Tight(outputs, a, open));
  }

  // ----- counting the tight payload

  ghost function Required(outputs: seq<Output>): set<nat> {
    set t: nat | t < |outputs| && !outputs[t].optional
  }

  ghost function CompetingSet(outputs: seq<Output>, a: Base.Bytes, open: bool): set<nat> {
    set t: nat | t < |outputs| && Competes(outputs[t], a, open)
  }

  /** There are exactly as many entries as required outputs, and as many with address `a` in
      front as competitors. */
  lemma {:induction false} TightCounts(outputs: seq<Output>, a: Base.Bytes, open: bool)
    ensures |Tight(outputs, a, open)| <= |Required(outputs)|
    ensures Competitors(outputs, a, open) == |CompetingSet(outputs, a, open)|
  {
    var n, outs, f := Competitors(outputs, a, open), Tight(outputs, a, open), Start(outputs, a, open);
    TightIsChoice(outputs, a, open);
    var rs, cs := Required(outputs), CompetingSet(outputs, a, open);
    TightInRanges(outputs, a, open, 0, n);
    forall i | i in Below(|outs|) ensures i in Image(f, rs) {
      TightHits(outputs, a, open, 0, n, i);
    }
    forall i | i in Below(n) ensures i in Image(f, cs) {
      TightHits(outputs, a, open, 0, n, i);
      assert Hit(f, outputs, a, open, true, i);
      var t: nat :| t < |f| && f[t] == Some(i) && Competes(outputs[t], a, open);
      assert t in cs;
    }
    ImageCardinality(f, rs);
    SubsetCardinality(Below(|outs|), Image(f, rs));
    ImageCardinality(f, cs);
    SubsetCardinality(Below(n), Image(f, cs));
    SubsetCardinality(Image(f, cs), Below(n));
  }

  /** In a tight payload an optional output that takes an entry starves a required one. */
  lemma {:induction false} OptionalsStayEmpty(
      outputs: seq<Output>, a: Base.Bytes, open: bool, slots: seq<seq<nat>>, j: nat)
    requires Assign(OutputDemands(outputs, Tight(outputs, a, open)), {}) == Some(slots) && |slots| == |outputs|
    requires j < |outputs| && outputs[j].optional
    ensures slots[j] == []
  {
    var outs := Tight(outputs, a, open);
    var f := Held(slots);
    HeldIsChoice(outputs, outs, slots);
    TightCounts(outputs, a, open);
    assert j !in Required(outputs);
    if slots[j] != [] {
      var js := Required(outputs) + {j};
      assert f[j].Some?;
      ImageCardinality(f, js);
      SubsetCardinality(Image(f, js), Below(|outs|));
    }
  }

  // ----- the two ways to steal

  /** An optional output takes an entry that a later required one needs. */
  lemma {:induction false} OptionalSteals(outputs: seq<Output>, j: nat, k: nat, a: Base.Bytes)
    requires j < k < |outputs| && outputs[j].optional && !outputs[k].optional
    requires ConstAddress(outputs[j].address).None? || ConstAddress(outputs[j].address) == Some(a)
    requires ConstAddress(outputs[j].address).Some? ==>
      ConstAddress(outputs[k].address).None? || ConstAddress(outputs[k].address) == Some(a)
    ensures Assign(OutputDemands(outputs, Tight(outputs, a, true)), {}).None?
  {
    hide Assign, OutputDemands;
    var outs := Tight(outputs, a, true);
    var r := Assign(OutputDemands(outputs, outs), {});
    if r.Some? {
      var slots := r.value;
      HeldIsChoice(outputs, outs, slots);
      OutputsSound(outputs, outs, slots);
      OptionalsStayEmpty(outputs, a, true, slots, j);
      assert OutputSlotOk(outputs[j], slots[j], Before(slots, j), outs);
      assert OutputSlotOk(outputs[k], slots[k], Before(slots, k), outs);
      var x := slots[k][0];
      assert x !in Before(slots, j);
      if ConstAddress(outputs[j].address).Some? {
        FrontNotGone(outputs, a, slots, j, k);
      }
    }
  }

  /** The outputs before `j` that hold an entry in front. */
  ghost function FrontHolders(slots: seq<seq<nat>>, j: nat, n: nat): set<nat>
    requires j <= |slots|
  {
    set t: nat | t < j && slots[t] != [] && slots[t][0] < n
  }

  lemma {:induction false} FrontHoldersCompete(outputs: seq<Output>, a: Base.Bytes, slots: seq<seq<nat>>, j: nat)
    requires Assign(OutputDemands(outputs, Tight(outputs, a, true)), {}) == Some(slots) && |slots| == |outputs|
    requires j <= |outputs|
    ensures FrontHolders(slots, j, Competitors(outputs, a, true)) <= CompetingSet(outputs, a, true)
  {
    HeldIsChoice(outputs, Tight(outputs, a, true), slots);
    forall t | t in FrontHolders(slots, j, Competitors(outputs, a, true)) ensures Competes(outputs[t], a, true) {
      if outputs[t].optional { OptionalsStayEmpty(outputs, a, true, slots, t); }
      assert Held(slots)[t] == Some(slots[t][0]);
    }
  }

  lemma {:induction false} InFront(slots: seq<seq<nat>>, j: nat, n: nat, i: nat)
    requires j <= |slots| && forall t | 0 <= t < |slots| :: |slots[t]| <= 1
    requires i < n && i in Before(slots, j)
    ensures i in Image(Held(slots), FrontHolders(slots, j, n))
  {
    var t: nat, l: nat :| t < j && l < |slots[t]| && slots[t][l] == i;
    assert t in FrontHolders(slots, j, n) && Held(slots)[t] == Some(i);
  }

  lemma {:induction false} FrontHoldersCover(slots: seq<seq<nat>>, j: nat, n: nat)
    requires j <= |slots| && Disjoint(slots) && forall t | 0 <= t < |slots| :: |slots[t]| <= 1
    requires Below(n) <= Before(slots, j)
    ensures n <= |FrontHolders(slots, j, n)|
  {
    var f, hs := Held(slots), FrontHolders(slots, j, n);
    forall i | i in Below(n) ensures i in Image(f, hs) {
      InFront(slots, j, n, i);
    }
    HeldInjective(slots);
    ImageCardinality(f, hs);
    SubsetCardinality(Below(n), Image(f, hs));
  }

  /** The entries in front cannot all be gone before competitor `k` was served. */
  lemma {:induction false} FrontNotGone(outputs: seq<Output>, a: Base.Bytes, slots: seq<seq<nat>>, j: nat, k: nat)
    requires Assign(OutputDemands(outputs, Tight(outputs, a, true)), {}) == Some(slots) && |slots| == |outputs|
    requires j < k < |outputs| && Competes(outputs[k], a, true)
    ensures !(Below(Competitors(outputs, a, true)) <= Before(slots, j))
  {
    hide Tight, Assign, OutputDemands, Competes, ConstAddress, Before, Below, Others;
    var n, cs := Competitors(outputs, a, true), CompetingSet(outputs, a, true);
    OutputsSound(outputs, Tight(outputs, a, true), slots);
    AtMostOneEach(outputs, Tight(outputs, a, true), slots);
    TightCounts(outputs, a, true);
    FrontHoldersCompete(outputs, a, slots, j);
    SubsetCardinality(FrontHolders(slots, j, n), cs - {k});
    if Below(n) <= Before(slots, j) { FrontHoldersCover(slots, j, n); }
  }

  lemma {:induction false} SubsetSameSize(s: set<nat>, t: set<nat>, x: nat)
    requires s <= t && |t| <= |s| && x in t
    ensures x in s
  {
    if x !in s { SubsetCardinality(s + {x}, t); }
  }

  /** Only the entries in front have address `a`. */
  lemma {:induction false} OthersLack(outputs: seq<Output>, a: Base.Bytes)
    ensures forall o | o in Others(outputs, a, false) :: o.address != Some(a)
  {
    if outputs != [] { OthersLack(outputs[1..], a); }
  }

  lemma {:induction false} FrontOnly(outputs: seq<Output>, a: Base.Bytes)
    ensures forall i | Competitors(outputs, a, false) <= i < |Tight(outputs, a, false)| ::
      Tight(outputs, a, false)[i].address != Some(a)
  {
    OthersLack(outputs, a);
    var n, outs := Competitors(outputs, a, false), Tight(outputs, a, false);
    assert forall i | n <= i < |outs| :: outs[i] in Others(outputs, a, false);
  }

  /** When every competitor was served, they hold exactly the entries in front. */
  lemma {:induction false} FrontHeldByCompetitors(outputs: seq<Output>, a: Base.Bytes, slots: seq<seq<nat>>, i: nat)
    requires Assign(OutputDemands(outputs, Tight(outputs, a, false)), {}) == Some(slots) && |slots| == |outputs|
    requires i < Competitors(outputs, a, false)
    ensures exists t: nat :: t < |slots| && Competes(outputs[t], a, false) && Held(slots)[t] == Some(i)
  {
    var outs, n, f := Tight(outputs, a, false), Competitors(outputs, a, false), Held(slots);
    var cs := CompetingSet(outputs, a, false);
    HeldIsChoice(outputs, outs, slots);
    TightCounts(outputs, a, false);
    FrontOnly(outputs, a);
    assert forall t | t in cs :: f[t].value < n;
    ImageCardinality(f, cs);
    SubsetSameSize(Image(f, cs), Below(n), i);
    var t :| t in cs && f[t].value == i;
    assert Competes(outputs[t], a, false) && f[t] == Some(i);
  }

  /** A required output that accepts anything takes an entry that a later output with a
      pinned address needs. */
  lemma {:induction false} OpenSteals(outputs: seq<Output>, j: nat, k: nat, a: Base.Bytes)
    requires j < k < |outputs| && !outputs[j].optional && !outputs[k].optional
    requires ConstAddress(outputs[j].address).None? && ConstAddress(outputs[k].address) == Some(a)
    ensures Assign(OutputDemands(outputs, Tight(outputs, a, false)), {}).None?
  {
    var outs, n := Tight(outputs, a, false), Competitors(outputs, a, false);
    var r := Assign(OutputDemands(outputs, outs), {});
    if r.Some? {
      var slots := r.value;
      HeldIsChoice(outputs, outs, slots);
      OutputsSound(outputs, outs, slots);
      assert OutputSlotOk(outputs[j], slots[j], Before(slots, j), outs);
      assert OutputSlotOk(outputs[k], slots[k], Before(slots, k), outs);
      FrontOnly(outputs, a);
      var x, y := slots[j][0], slots[k][0];
      assert y !in Before(slots, j);
      assert x <= y;
      FrontHeldByCompetitors(outputs, a, slots, x);
    }
  }

  /** The greedy output loop finds an assignment for every payload that has one if and only
      if no output can steal from a later required one. */
  lemma {:induction false} GreedyCompleteExact(outputs: seq<Output>)
    ensures NoStealing(outputs) <==>
      forall outs: seq<TxOutput> :: Assign(OutputDemands(outputs, outs), {}).None? <==> !Choosable(outputs, outs)
  {
    if NoStealing(outputs) {
      forall outs: seq<TxOutput>
        ensures Assign(OutputDemands(outputs, outs), {}).None? <==> !Choosable(outputs, outs)
      {
        GreedyCompleteWithoutStealing(outputs, outs);
      }
    } else {
      var j, k :| 0 <= j < k < |outputs| && !outputs[k].optional && !CannotSteal(outputs[j], outputs[k]);
      var outs := Stolen(outputs, j, k);
      assert Assign(OutputDemands(outputs, outs), {}).None? && Choosable(outputs, outs);
    }
  }

  /** A payload that has an assignment which the greedy loop misses. */
  lemma {:induction false} Stolen(outputs: seq<Output>, j: nat, k: nat) returns (outs: seq<TxOutput>)
    requires j < k < |outputs| && !outputs[k].optional && !CannotSteal(outputs[j], outputs[k])
    ensures Assign(OutputDemands(outputs, outs), {}).None? && Choosable(outputs, outs)
  {
    var pj, pk := ConstAddress(outputs[j].address), ConstAddress(outputs[k].address);
    var a := if pj.Some? then pj.value else if pk.Some? then pk.value else [];
    if outputs[j].optional {
      outs := Tight(outputs, a, true);
      TightIsChoice(outputs, a, true);
      OptionalSteals(outputs, j, k, a);
    } else {
      outs := Tight(outputs, a, false);
      TightIsChoice(outputs, a, false);
      OpenSteals(outputs, j, k, a);
    }
  }
}
