/** Parties of a lifted transaction and the roles they are seen in
    (crates/tx3-lift-cardano/src/lifting.rs). */
module Roles {
  import opened Base
  import opened Names

  datatype PartyRole = Absent | Input | Output | Signer | Multiple

  datatype PartyAnnotation = PartyAnnotation(name: string, address: Bytes, role: PartyRole)

  type Parties = map<string, PartyAnnotation>

  function CombineRole(prev: PartyRole, next: PartyRole): PartyRole {
    if prev.Absent? then next
    else if next.Absent? then prev
    else if prev == next then prev
    else Multiple
  }

  // ----- who gets the credit

  /** All stretches of length `n`. */
  function Windows(s: Bytes, n: nat): seq<Bytes>
    requires n <= |s|
  {
    seq(|s| - n + 1, i requires 0 <= i <= |s| - n => s[i..i + n])
  }

  predicate ContainsKeyhash(address: Bytes, keyhash: Bytes) {
    |address| >= 1 + |keyhash| && keyhash in Windows(address, |keyhash|)
  }

  /** Something in the transaction that points at a party: an address seen in a role, or a
      required signer's key hash. */
  datatype Observation = Seen(address: Bytes, role: PartyRole) | Signed(keyHash: Bytes)

  predicate PointsAt(o: Observation, address: Bytes) {
    match o
    case Seen(a, _) => a == address
    case Signed(kh) => ContainsKeyhash(address, kh)
  }

  function Kind(o: Observation): PartyRole {
    match o
    case Seen(_, role) => role
    case Signed(_) => Signer
  }

  ghost function Candidates(parties: Parties, o: Observation): set<string> {
    set n | n in parties && PointsAt(o, parties[n].address)
  }

  /** Credit goes to the first party in name order that the observation points at. */
  ghost function Credited(parties: Parties, o: Observation): Option<string> {
    var names := Candidates(parties, o);
    if names == {} then None else Some(First(names))
  }

  function WithRole(parties: Parties, n: string, role: PartyRole): Parties
    requires n in parties
  {
    parties[n := parties[n].(role := CombineRole(parties[n].role, role))]
  }

  ghost function CreditOnce(parties: Parties, o: Observation): Parties {
    match Credited(parties, o)
    case None => parties
    case Some(n) => WithRole(parties, n, Kind(o))
  }

  ghost function CreditAll(parties: Parties, obs: seq<Observation>): Parties {
    if obs == [] then parties else CreditOnce(CreditAll(parties, obs[..|obs| - 1]), obs[|obs| - 1])
  }

  /** Scan the parties in name order for the first one that `o` points at. */
  method FindParty(parties: Parties, o: Observation) returns (party: Option<string>)
    ensures party == Credited(parties, o)
  {
    var names := SortedNames(parties.Keys);
    for i := 0 to |names|
      invariant forall j | 0 <= j < i :: !PointsAt(o, parties[names[j]].address)
    {
      if PointsAt(o, parties[names[i]].address) {
        assert IsFirst(names[i], Candidates(parties, o)) by {
          forall n | n in Candidates(parties, o) && n != names[i] ensures Less(names[i], n) {
            assert n in names;
          }
        }
        FirstUnique(names[i], First(Candidates(parties, o)), Candidates(parties, o));
        return Some(names[i]);
      }
    }
    assert forall n | n in parties :: n in names;
    assert Candidates(parties, o) == {};
    return None;
  }

  method MatchParty(address: Bytes, parties: Parties, role: PartyRole) returns (party: Option<string>, after: Parties)
    ensures party == Credited(parties, Seen(address, role))
    ensures after == CreditOnce(parties, Seen(address, role))
  {
    party := FindParty(parties, Seen(address, role));
    after := match party case None => parties case Some(n) => WithRole(parties, n, role);
  }

  // ----- crediting changes roles only

  /** The same parties at the same addresses. */
  ghost predicate SameBook(p: Parties, q: Parties) {
    p.Keys == q.Keys && forall n | n in p :: q[n].name == p[n].name && q[n].address == p[n].address
  }

  lemma {:induction false} SameBookCredits(p: Parties, q: Parties, o: Observation)
    requires SameBook(p, q)
    ensures Credited(p, o) == Credited(q, o)
  {
    assert Candidates(p, o) == Candidates(q, o);
  }

  lemma {:induction false} CreditKeepsBook(parties: Parties, obs: seq<Observation>)
    ensures SameBook(parties, CreditAll(parties, obs))
  {
    if obs != [] { CreditKeepsBook(parties, obs[..|obs| - 1]); }
  }

  lemma {:induction false} CreditAppend(parties: Parties, a: seq<Observation>, b: seq<Observation>)
    ensures CreditAll(parties, a + b) == CreditAll(CreditAll(parties, a), b)
  {
    if b == [] {
      assert a + b == a;
    } else {
      CreditAppend(parties, a, b[..|b| - 1]);
      assert (a + b)[..|a + b| - 1] == a + b[..|b| - 1];
    }
  }

  // ----- roles as a join

  /** The kinds of observation credited to a party. */
  ghost function Kinds(parties: Parties, obs: seq<Observation>, n: string): set<PartyRole> {
    set i | 0 <= i < |obs| && Credited(parties, obs[i]) == Some(n) :: Kind(obs[i])
  }

  predicate IsKind(r: PartyRole) {
    r.Input? || r.Output? || r.Signer?
  }

  /** The least upper bound in the lattice `Absent` below the three kinds below `Multiple`. */
  ghost function Lub(kinds: set<PartyRole>): PartyRole {
    if kinds == {} then Absent
    else if exists k :: kinds == {k} then (var k :| kinds == {k}; k)
    else Multiple
  }

  /** What the least upper bound is: absent without observations, a kind when that is the only
      one, multiple when two differ. */
  lemma {:induction false} LubMeaning(kinds: set<PartyRole>)
    requires forall k | k in kinds :: IsKind(k)
    ensures Lub(kinds).Absent? <==> kinds == {}
    ensures Lub(kinds).Multiple? <==> exists k, l :: k in kinds && l in kinds && k != l
    ensures forall k | IsKind(k) :: Lub(kinds) == k <==> kinds == {k}
  {
    if kinds != {} {
      var k :| k in kinds;
      if kinds != {k} {
        assert kinds == (kinds - {k}) + {k};
        var l :| l in kinds - {k};
        assert l in kinds && l != k;
      }
    }
  }

  lemma {:induction false} LubStep(kinds: set<PartyRole>, k: PartyRole)
    requires IsKind(k) && forall l | l in kinds :: IsKind(l)
    ensures CombineRole(Lub(kinds), k) == Lub(kinds + {k})
  {
    LubMeaning(kinds);
    LubMeaning(kinds + {k});
    if kinds == {} {
      assert kinds + {k} == {k};
    } else if Lub(kinds).Multiple? {
    } else {
      var l := Lub(kinds);
      assert kinds == {l};
      assert kinds + {k} == {l, k};
    }
  }

  /** Combining roles is the join of that lattice: associative, commutative, idempotent, with
      `Absent` as its unit. */
  lemma {:induction false} CombineRoleIsJoin(a: PartyRole, b: PartyRole, c: PartyRole)
    ensures CombineRole(a, b) == CombineRole(b, a)
    ensures CombineRole(a, CombineRole(b, c)) == CombineRole(CombineRole(a, b), c)
    ensures CombineRole(a, a) == a && CombineRole(Absent, a) == a
  {
  }

  ghost predicate AllAbsent(parties: Parties) {
    forall n | n in parties :: parties[n].role.Absent?
  }

  /** However the observations are ordered, a party ends up with the join of the kinds
      credited to it. */
  lemma {:induction false} RoleIsLub(parties: Parties, obs: seq<Observation>, n: string)
    requires AllAbsent(parties) && n in parties
    requires forall i | 0 <= i < |obs| :: IsKind(Kind(obs[i]))
    ensures n in CreditAll(parties, obs)
    ensures CreditAll(parties, obs)[n].role == Lub(Kinds(parties, obs, n))
  {
    if obs == [] {
      assert Kinds(parties, obs, n) == {};
    } else {
      var front, last := obs[..|obs| - 1], obs[|obs| - 1];
      RoleIsLub(parties, front, n);
      CreditKeepsBook(parties, front);
      var before := CreditAll(parties, front);
      SameBookCredits(parties, before, last);
      var kinds := Kinds(parties, front, n);
      assert obs == front + [last];
      if Credited(parties, last) == Some(n) {
        assert Kinds(parties, obs, n) == kinds + {Kind(last)};
        LubStep(kinds, Kind(last));
      } else {
        assert Kinds(parties, obs, n) == kinds;
      }
    }
  }

  /** Roles do not depend on the order in which the transaction is walked. */
  lemma {:induction false} RolesIgnoreOrder(parties: Parties, obs: seq<Observation>, obs': seq<Observation>)
    requires AllAbsent(parties) && multiset(obs) == multiset(obs')
    requires forall i | 0 <= i < |obs| :: IsKind(Kind(obs[i]))
    ensures CreditAll(parties, obs) == CreditAll(parties, obs')
  {
    forall i | 0 <= i < |obs'| ensures obs'[i] in obs {
      assert obs'[i] in multiset(obs');
    }
    forall i | 0 <= i < |obs| ensures obs[i] in obs' {
      assert obs[i] in multiset(obs);
    }
    CreditKeepsBook(parties, obs);
    CreditKeepsBook(parties, obs');
    forall n | n in parties ensures CreditAll(parties, obs)[n] == CreditAll(parties, obs')[n] {
      RoleIsLub(parties, obs, n);
      RoleIsLub(parties, obs', n);
      assert Kinds(parties, obs, n) == Kinds(parties, obs', n);
    }
  }
}
