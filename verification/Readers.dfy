/** What the constant readers answer, by the shape of the expression. */
module Readers {
  // `Set` wrappers are looked through, in any number; nothing else is.

  import opened Base
  import opened Tir
  import opened Expr

  /** `core` under `n` wrappers. */
  ghost function Wrapped(core: Expression, n: nat): Expression {
    if n == 0 then core else EvalParam(Set(Wrapped(core, n - 1)))
  }

  ghost predicate Wraps(e: Expression, core: Expression) {
    exists n: nat :: e == Wrapped(core, n)
  }

  ghost predicate IsWrapper(e: Expression) {
    e.EvalParam? && e.param.Set?
  }

  lemma {:induction false} WrapsInner(e: Expression, core: Expression)
    requires !IsWrapper(core)
    ensures IsWrapper(e) ==> (Wraps(e, core) <==> Wraps(e.param.inner, core))
    ensures !IsWrapper(e) ==> (Wraps(e, core) <==> e == core)
  {
    if n: nat :| e == Wrapped(core, n) {
      if n > 0 { assert e.param.inner == Wrapped(core, n - 1); }
    }
    if IsWrapper(e) {
      if n: nat :| e.param.inner == Wrapped(core, n) { assert e == Wrapped(core, n + 1); }
    }
    assert core == Wrapped(core, 0);
  }

  /** An address literal. */
  lemma {:induction false} AddressRead(e: Expression, a: Base.Bytes)
    ensures ConstAddress(e) == Some(a) <==> Wraps(e, Address(a))
    decreases e
  {
    WrapsInner(e, Address(a));
    if IsWrapper(e) { AddressRead(e.param.inner, a); }
  }

  /** A list of references. */
  lemma {:induction false} RefsRead(e: Expression, refs: seq<UtxoRef>)
    ensures ConstUtxoRefs(e) == Some(refs) <==> Wraps(e, UtxoRefs(refs))
    decreases e
  {
    WrapsInner(e, UtxoRefs(refs));
    if IsWrapper(e) { RefsRead(e.param.inner, refs); }
  }

  /** A number. */
  lemma {:induction false} NumberRead(e: Expression, n: int)
    ensures ConstNumber(e) == Some(n) <==> Wraps(e, Number(n))
    decreases e
  {
    WrapsInner(e, Number(n));
    if IsWrapper(e) { NumberRead(e.param.inner, n); }
  }

  /** Bytes, or a hash. */
  ghost predicate Spells(e: Expression, b: Base.Bytes) {
    Wraps(e, Bytes(b)) || Wraps(e, Hash(b))
  }

  lemma {:induction false} BytesRead(e: Expression, b: Base.Bytes)
    ensures ConstBytes(e) == Some(b) <==> Spells(e, b)
    decreases e
  {
    WrapsInner(e, Bytes(b));
    WrapsInner(e, Hash(b));
    if IsWrapper(e) { BytesRead(e.param.inner, b); }
  }

  /** A query that is still to be resolved, under any name. */
  ghost predicate Asks(e: Expression, q: InputQuery) {
    exists name :: Wraps(e, EvalParam(ExpectInput(name, q)))
  }

  lemma {:induction false} QueryRead(e: Expression, q: InputQuery)
    ensures ExpectInputQuery(e) == Some(q) <==> Asks(e, q)
    decreases e
  {
    forall name
      ensures IsWrapper(e) ==>
        (Wraps(e, EvalParam(ExpectInput(name, q))) <==> Wraps(e.param.inner, EvalParam(ExpectInput(name, q))))
      ensures !IsWrapper(e) ==>
        (Wraps(e, EvalParam(ExpectInput(name, q))) <==> e == EvalParam(ExpectInput(name, q)))
    {
      WrapsInner(e, EvalParam(ExpectInput(name, q)));
    }
    hide Wraps;
    if IsWrapper(e) {
      QueryRead(e.param.inner, q);
    } else if ExpectInputQuery(e) == Some(q) {
      assert Wraps(e, EvalParam(ExpectInput(e.param.name, q)));
    }
  }

  /** No expression is both a list of references and a query. */
  lemma {:induction false} RefsOrQuery(e: Expression)
    ensures ConstUtxoRefs(e).None? || ExpectInputQuery(e).None?
    decreases e
  {
    if IsWrapper(e) { RefsOrQuery(e.param.inner); }
  }

  // ----- policies

  /** An asset met on the way down through lists and wrappers. */
  ghost predicate Holds(e: Expression, a: AssetExpr)
    decreases e
  {
    match e
    case Assets(assets) => a in assets
    case List(items) => exists i | 0 <= i < |items| :: Holds(items[i], a)
    case EvalParam(p) => p.Set? && Holds(p.inner, a)
    case _ => false
  }

  /** The policy of some asset, spelt out and not empty: the empty one is the native coin. */
  ghost predicate NamesPolicy(e: Expression, p: Base.Bytes) {
    p != [] && exists a :: Holds(e, a) && Spells(a.policy, p)
  }

  lemma {:induction false} PoliciesRead(e: Expression, p: Base.Bytes)
    ensures p in ConstPoliciesIn(e) <==> NamesPolicy(e, p)
    decreases e, 1
  {
    match e {
      case Assets(assets) => AssetPoliciesRead(assets, p);
      case List(items) => ListPoliciesRead(items, p);
      case EvalParam(param) =>
        if param.Set? {
          PoliciesRead(param.inner, p);
          assert forall a :: Holds(e, a) <==> Holds(param.inner, a);
        }
      case _ =>
    }
  }

  lemma {:induction false} AssetPoliciesRead(assets: seq<AssetExpr>, p: Base.Bytes)
    ensures p in AssetPolicies(assets) <==> p != [] && exists a :: a in assets && Spells(a.policy, p)
  {
    if assets != [] {
      AssetPoliciesRead(assets[1..], p);
      BytesRead(assets[0].policy, p);
      hide Spells;
      assert assets == [assets[0]] + assets[1..];
    }
  }

  lemma {:induction false} ListPoliciesRead(items: seq<Expression>, p: Base.Bytes)
    ensures p in ConstPoliciesInEach(items) <==> exists i | 0 <= i < |items| :: NamesPolicy(items[i], p)
    ensures NamesPolicy(List(items), p) <==> exists i | 0 <= i < |items| :: NamesPolicy(items[i], p)
    decreases items, 0
  {
    ListNames(items, p);
    if items != [] {
      PoliciesRead(items[0], p);
      ListPoliciesRead(items[1..], p);
      hide NamesPolicy;
      assert forall i | 0 < i < |items| :: items[i] == items[1..][i - 1];
    }
  }

  lemma {:induction false} ListNames(items: seq<Expression>, p: Base.Bytes)
    ensures NamesPolicy(List(items), p) <==> exists i | 0 <= i < |items| :: NamesPolicy(items[i], p)
  {
    hide Spells;
    assert forall a :: Holds(List(items), a) <==> exists i | 0 <= i < |items| :: Holds(items[i], a);
    if p != [] {
      if a :| Holds(List(items), a) && Spells(a.policy, p) {
        var i :| 0 <= i < |items| && Holds(items[i], a);
        assert NamesPolicy(items[i], p);
      }
      if i :| 0 <= i < |items| && NamesPolicy(items[i], p) {
        var a :| Holds(items[i], a) && Spells(a.policy, p);
        assert Holds(List(items), a);
      }
    }
  }
}
