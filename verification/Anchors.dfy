/** Protocol anchors of a profile and the tiered count of those a transaction hits
    (crates/tx3-lift/src/anchors.rs). */
module Anchors {
  import opened Base
  import opened Names
  import opened Profile
  import opened RefParsing
  import opened Summary
  import Greedy
  import Payload
  import Summarize

  datatype ProtocolAnchors = ProtocolAnchors(addresses: set<Bytes>, utxoRefs: set<UtxoRef>, policies: set<Bytes>)
  {
    function Size(): nat {
      |addresses| + |utxoRefs| + |policies|
    }
  }

  datatype AnchorHits = AnchorHits(gating: nat, total: nat)
  {
    predicate Gates() {
      gating > 0
    }
  }

  // ----- counting hits

  /** A summary's addresses, references and policies at each tier. */
  function GatingAddresses(s: PayloadSummary): set<Bytes> {
    s.inputAddresses + s.outputAddressesWithDatum
  }

  function PresentAddresses(s: PayloadSummary): set<Bytes> {
    GatingAddresses(s) + s.outputAddresses
  }

  function PresentRefs(s: PayloadSummary): set<UtxoRef> {
    s.inputRefs + s.referenceRefs
  }

  function GatingPolicies(s: PayloadSummary): set<Bytes> {
    s.mintPolicies + s.burnPolicies
  }

  function PresentPolicies(s: PayloadSummary): set<Bytes> {
    GatingPolicies(s) + s.valuePolicies
  }

  /** Each tier is a sum of cardinalities of intersections. */
  function HitsOf(a: ProtocolAnchors, s: PayloadSummary): AnchorHits {
    AnchorHits(
      |a.addresses * GatingAddresses(s)| + |a.utxoRefs * PresentRefs(s)| + |a.policies * GatingPolicies(s)|,
      |a.addresses * PresentAddresses(s)| + |a.utxoRefs * PresentRefs(s)| + |a.policies * PresentPolicies(s)|)
  }

  /** How many of the anchors looked at so far are in the tier. */
  ghost function Counted<T>(all: set<T>, rest: set<T>, tier: set<T>): nat {
    |(all - rest) * tier|
  }

  lemma {:induction false} NothingCounted<T>(all: set<T>, tier: set<T>)
    ensures Counted(all, all, tier) == 0
  {
  }

  lemma {:induction false} AllCounted<T>(all: set<T>, tier: set<T>)
    ensures Counted(all, {}, tier) == |all * tier|
  {
    assert all - {} == all;
  }

  /** One more anchor of a class has been looked at. */
  lemma {:induction false} CountStep<T>(all: set<T>, rest: set<T>, x: T, tier: set<T>)
    requires rest <= all && x in rest
    ensures Counted(all, rest - {x}, tier) == Counted(all, rest, tier) + (if x in tier then 1 else 0)
  {
    assert (all - (rest - {x})) * tier == (all - rest) * tier + (if x in tier then {x} else {});
  }

  method Hits(a: ProtocolAnchors, s: PayloadSummary) returns (hits: AnchorHits)
    ensures hits == HitsOf(a, s)
  {
    var addressHits := CountTiers(a.addresses, s.inputAddresses, s.outputAddressesWithDatum, s.outputAddresses);
    var policyHits := CountTiers(a.policies, s.mintPolicies, s.burnPolicies, s.valuePolicies);
    var refHits := 0;
    var rest := a.utxoRefs;
    while rest != {}
      invariant rest <= a.utxoRefs
      invariant refHits == |(a.utxoRefs - rest) * PresentRefs(s)|
      decreases |rest|
    {
      var r :| r in rest;
      CountStep(a.utxoRefs, rest, r, PresentRefs(s));
      if r in s.inputRefs || r in s.referenceRefs {
        refHits := refHits + 1;
      }
      rest := rest - {r};
    }
    assert a.utxoRefs - {} == a.utxoRefs;
    return AnchorHits(addressHits.gating + refHits + policyHits.gating, addressHits.total + refHits + policyHits.total);
  }

  /** The loop over one class of anchors that has a soft tier. */
  method CountTiers<T(==)>(anchors: set<T>, strongA: set<T>, strongB: set<T>, soft: set<T>) returns (hits: AnchorHits)
    ensures hits == AnchorHits(|anchors * (strongA + strongB)|, |anchors * (strongA + strongB + soft)|)
  {
    hits := AnchorHits(0, 0);
    var rest := anchors;
    ghost var strong := strongA + strongB;
    ghost var any := strong + soft;
    NothingCounted(anchors, strong);
    NothingCounted(anchors, any);
    hide Counted;
    while rest != {}
      invariant rest <= anchors
      invariant hits.gating == Counted(anchors, rest, strong)
      invariant hits.total == Counted(anchors, rest, any)
      decreases |rest|
    {
      var x :| x in rest;
      CountStep(anchors, rest, x, strong);
      CountStep(anchors, rest, x, any);
      var gating := x in strongA || x in strongB;
      var present := gating || x in soft;
      if present {
        hits := hits.(total := hits.total + 1);
        if gating {
          hits := hits.(gating := hits.gating + 1);
        }
      }
      rest := rest - {x};
    }
    AllCounted(anchors, strong);
    AllCounted(anchors, any);
  }

  lemma {:induction false} IntersectionMonotone<T>(a: set<T>, s: set<T>, t: set<T>)
    requires s <= t
    ensures |a * s| <= |a * t| <= |a|
  {
    Greedy.SubsetCardinality(a * s, a * t);
    Greedy.SubsetCardinality(a * t, a);
  }

  lemma {:induction false} TierBounds(a: ProtocolAnchors, s: PayloadSummary)
    ensures HitsOf(a, s).gating <= HitsOf(a, s).total <= a.Size()
  {
    IntersectionMonotone(a.addresses, GatingAddresses(s), PresentAddresses(s));
    IntersectionMonotone(a.utxoRefs, PresentRefs(s), PresentRefs(s));
    IntersectionMonotone(a.policies, GatingPolicies(s), PresentPolicies(s));
  }

  /** What only the soft tier accounts for. */
  function SoftOnly(a: ProtocolAnchors, s: PayloadSummary): nat {
    |a.addresses * (s.outputAddresses - GatingAddresses(s))| + |a.policies * (s.valuePolicies - GatingPolicies(s))|
  }

  lemma {:induction false} IntersectionSplit<T>(a: set<T>, strong: set<T>, soft: set<T>)
    ensures |a * (strong + soft)| == |a * strong| + |a * (soft - strong)|
  {
    assert a * (strong + soft) == a * strong + a * (soft - strong);
  }

  /** The tiers partition the anchors that are present: a bare payment or a circulating asset
      raises `total` alone. */
  lemma {:induction false} TiersPartition(a: ProtocolAnchors, s: PayloadSummary)
    ensures HitsOf(a, s).total == HitsOf(a, s).gating + SoftOnly(a, s)
  {
    IntersectionSplit(a.addresses, GatingAddresses(s), s.outputAddresses);
    IntersectionSplit(a.policies, GatingPolicies(s), s.valuePolicies);
  }

  ghost predicate Grows(s: PayloadSummary, t: PayloadSummary) {
    && s.inputAddresses <= t.inputAddresses && s.outputAddresses <= t.outputAddresses
    && s.outputAddressesWithDatum <= t.outputAddressesWithDatum
    && s.inputRefs <= t.inputRefs && s.referenceRefs <= t.referenceRefs
    && s.mintPolicies <= t.mintPolicies && s.burnPolicies <= t.burnPolicies && s.valuePolicies <= t.valuePolicies
  }

  /** Both tiers are monotone in the summary. */
  lemma {:induction false} HitsMonotone(a: ProtocolAnchors, s: PayloadSummary, t: PayloadSummary)
    requires Grows(s, t)
    ensures HitsOf(a, s).gating <= HitsOf(a, t).gating && HitsOf(a, s).total <= HitsOf(a, t).total
  {
    IntersectionMonotone(a.addresses, GatingAddresses(s), GatingAddresses(t));
    IntersectionMonotone(a.addresses, PresentAddresses(s), PresentAddresses(t));
    IntersectionMonotone(a.utxoRefs, PresentRefs(s), PresentRefs(t));
    IntersectionMonotone(a.policies, GatingPolicies(s), GatingPolicies(t));
    IntersectionMonotone(a.policies, PresentPolicies(s), PresentPolicies(t));
  }

  /** On the summary of a transaction `total` is the flat count of distinct anchors that the
      scores were defined by before the tiers existed: the datum tier adds nothing. */
  lemma {:induction false} TotalIsFlat(a: ProtocolAnchors, tx: Payload.CardanoTx, resolved: Payload.ResolvedInputs)
    ensures var s := Summarize.Summarized(tx, resolved);
      HitsOf(a, s).total ==
        |a.addresses * (s.inputAddresses + s.outputAddresses)|
        + |a.utxoRefs * (s.inputRefs + s.referenceRefs)|
        + |a.policies * (s.mintPolicies + s.burnPolicies + s.valuePolicies)|
  {
    Summarize.DatumAddressesAreOutputAddresses(tx, resolved);
    var s := Summarize.Summarized(tx, resolved);
    assert PresentAddresses(s) == s.inputAddresses + s.outputAddresses;
  }

  /** A source gates exactly when one of its anchors is spent from, referenced, minted, burnt
      or receives a datum. */
  lemma {:induction false} GatesExact(a: ProtocolAnchors, s: PayloadSummary)
    ensures HitsOf(a, s).Gates() <==>
      || (exists x :: x in a.addresses && (x in s.inputAddresses || x in s.outputAddressesWithDatum))
      || (exists r :: r in a.utxoRefs && (r in s.inputRefs || r in s.referenceRefs))
      || (exists p :: p in a.policies && (p in s.mintPolicies || p in s.burnPolicies))
  {
    Meets(a.addresses, GatingAddresses(s));
    Meets(a.utxoRefs, PresentRefs(s));
    Meets(a.policies, GatingPolicies(s));
  }

  lemma {:induction false} Meets<T>(s: set<T>, t: set<T>)
    ensures |s * t| > 0 <==> exists x :: x in s && x in t
  {
    if x :| x in s && x in t { assert x in s * t; }
    if |s * t| > 0 { var x :| x in s * t; }
  }

  // ----- deriving anchors

  function StringRefs(env: seq<Json>): set<UtxoRef> {
    set i: nat | i < |env| && env[i].JsonString? && ParsedUtxoRef(env[i].text).Some? :: ParsedUtxoRef(env[i].text).value
  }

  function StringPolicies(env: seq<Json>): set<Bytes> {
    set i: nat | i < |env| && env[i].JsonString? && ParsePolicy(env[i].text).Some? :: ParsePolicy(env[i].text).value
  }

  function PartyAddresses(parties: map<string, Option<Bytes>>): set<Bytes> {
    set n | n in parties && parties[n].Some? :: parties[n].value
  }

  predicate AllDecode(parties: map<string, Option<Bytes>>) {
    forall n | n in parties :: parties[n].Some?
  }

  /** A profile has anchors exactly when all its party addresses decode; the anchors are the
      addresses, and the references and policies that its environment strings spell. */
  method FromProfile(profile: Profile) returns (r: Result<ProtocolAnchors>)
    ensures r.Ok? <==> AllDecode(profile.parties)
    ensures r.Ok? ==> r.value == ProtocolAnchors(
      PartyAddresses(profile.parties),
      match profile.values case Some(env) => StringRefs(env) case None => {},
      match profile.values case Some(env) => StringPolicies(env) case None => {})
  {
    var names := SortedNames(profile.parties.Keys);
    var addresses: set<Bytes> := {};
    for i := 0 to |names|
      invariant forall j | 0 <= j < i :: profile.parties[names[j]].Some?
      invariant addresses == set j | 0 <= j < i :: profile.parties[names[j]].value
    {
      var decoded := profile.parties[names[i]];
      if decoded.None? {
        return Err(InvalidAddress);
      }
      addresses := addresses + {decoded.value};
    }
    assert AllDecode(profile.parties);
    assert addresses == PartyAddresses(profile.parties) by {
      forall n | n in profile.parties ensures profile.parties[n].value in addresses {
        assert n in names;
      }
    }
    var refs, policies := ParseEnvironment(profile.Environment());
    return Ok(ProtocolAnchors(addresses, refs, policies));
  }

  method ParseEnvironment(env: seq<Json>) returns (refs: set<UtxoRef>, policies: set<Bytes>)
    ensures refs == StringRefs(env)
    ensures policies == StringPolicies(env)
  {
    refs, policies := {}, {};
    for i := 0 to |env|
      invariant refs == StringRefs(env[..i])
      invariant policies == StringPolicies(env[..i])
    {
      EnvironmentStep(env, i);
      if env[i].JsonString? {
        var s := env[i].text;
        RefOrPolicy(s);
        var r := ParseUtxoRef(s);
        if r.Some? {
          refs := refs + {r.value};
        } else {
          var p := ParsePolicy(s);
          if p.Some? {
            policies := policies + {p.value};
          }
        }
      }
    }
    assert env[..|env|] == env;
  }

  lemma {:induction false} EnvironmentStep(env: seq<Json>, i: nat)
    requires i < |env|
    ensures StringRefs(env[..i + 1]) == StringRefs(env[..i]) +
      (if env[i].JsonString? && ParsedUtxoRef(env[i].text).Some? then {ParsedUtxoRef(env[i].text).value} else {})
    ensures StringPolicies(env[..i + 1]) == StringPolicies(env[..i]) +
      (if env[i].JsonString? && ParsePolicy(env[i].text).Some? then {ParsePolicy(env[i].text).value} else {})
  {
    assert env[..i + 1] == env[..i] + [env[i]];
  }
}
